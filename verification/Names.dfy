/** Looking a name up in a list: what `iter().position` and `iter().find` do with a list of named things. */
module Names {

  /** The first position of the name, or the length of the list. */
  function Position(names: seq<string>, name: string): (i: nat)
    ensures i <= |names|
    ensures i < |names| ==> names[i] == name
    ensures forall j | 0 <= j < i :: names[j] != name
  {
    if names == [] || names[0] == name then 0 else 1 + Position(names[1..], name)
  }
}
