/** The order a `BTreeMap` keyed by strings iterates in: ascending by code point. */
module Ordering {

  predicate Below(a: string, b: string) {
    b != [] && (a == [] || a[0] < b[0] || (a[0] == b[0] && Below(a[1..], b[1..])))
  }

  /** The texts agree up to `i`, where the first ends or has the smaller character. */
  ghost predicate PartsAt(a: string, b: string, i: nat) {
    i <= |a| && i < |b| && a[..i] == b[..i] && (i == |a| || a[i] < b[i])
  }

  lemma PartsLater(a: string, b: string, i: nat)
    requires a != [] && b != [] && a[0] == b[0]
    ensures PartsAt(a[1..], b[1..], i) <==> PartsAt(a, b, i + 1)
    ensures !PartsAt(a, b, 0)
  {
    if i < |a| && i + 1 < |b| {
      assert a[..i + 1] == [a[0]] + a[1..][..i] && b[..i + 1] == [b[0]] + b[1..][..i];
      assert a[1..][..i] == a[..i + 1][1..] && b[1..][..i] == b[..i + 1][1..];
    }
  }

  /** The order is by the first character in which two texts differ, a beginning before the whole. */
  lemma {:induction false} BelowExactly(a: string, b: string)
    ensures Below(a, b) <==> exists i: nat :: PartsAt(a, b, i)
  {
    if a == [] || b == [] || a[0] != b[0] {
      assert b != [] && (a == [] || a[0] < b[0]) ==> PartsAt(a, b, 0);
    } else {
      hide PartsAt;
      BelowExactly(a[1..], b[1..]);
      if Below(a[1..], b[1..]) {
        var i: nat :| PartsAt(a[1..], b[1..], i);
        PartsLater(a, b, i);
      }
      if exists i: nat :: PartsAt(a, b, i) {
        var i: nat :| PartsAt(a, b, i);
        PartsLater(a, b, if i > 0 then i - 1 else 0);
      }
    }
  }

  lemma {:induction false} BelowTransitive(a: string, b: string, c: string)
    requires Below(a, b) && Below(b, c)
    ensures Below(a, c)
  {
    if a != [] && a[0] == b[0] == c[0] {
      BelowTransitive(a[1..], b[1..], c[1..]);
    }
  }

  lemma {:induction false} BelowTotal(a: string, b: string)
    ensures Below(a, b) || a == b || Below(b, a)
    ensures !(Below(a, b) && Below(b, a)) && (Below(a, b) ==> a != b)
  {
    if a != [] && b != [] {
      BelowTotal(a[1..], b[1..]);
      assert a == [a[0]] + a[1..] && b == [b[0]] + b[1..];
    }
  }

  predicate Least(least: string, keys: set<string>) {
    least in keys && forall k | k in keys && k != least :: Below(least, k)
  }

  lemma {:induction false} LeastExists(keys: set<string>)
    requires keys != {}
    ensures exists least :: Least(least, keys)
    decreases keys
  {
    var some :| some in keys;
    var others := keys - {some};
    if others == {} {
      assert keys == {some};
      assert Least(some, keys);
    } else {
      LeastExists(others);
      var least :| Least(least, others);
      BelowTotal(some, least);
      if Below(some, least) {
        forall k | k in keys && k != some ensures Below(some, k) {
          if k != least { BelowTransitive(some, least, k); }
        }
        assert Least(some, keys);
      } else {
        assert Least(least, keys);
      }
    }
  }

  lemma LeastUnique(a: string, b: string, keys: set<string>)
    requires Least(a, keys) && Least(b, keys)
    ensures a == b
  {
    BelowTotal(a, b);
  }

  predicate Ascending(keys: seq<string>) {
    forall i, j | 0 <= i < j < |keys| :: Below(keys[i], keys[j])
  }

  lemma LeastFirst(least: string, keys: set<string>, rest: seq<string>)
    requires Least(least, keys) && Ascending(rest)
    requires forall k :: k in rest <==> k in keys - {least}
    ensures Ascending([least] + rest) && forall k :: k in [least] + rest <==> k in keys
  {
    hide Below;
    var all := [least] + rest;
    forall i, j | 0 <= i < j < |all| ensures Below(all[i], all[j]) {
      if i == 0 { assert rest[j - 1] in rest; } else { assert Below(rest[i - 1], rest[j - 1]); }
    }
  }

  /** The keys in iteration order. */
  function SortedKeys(keys: set<string>): (r: seq<string>)
    ensures forall k :: k in r <==> k in keys
    ensures Ascending(r)
    ensures |r| == |keys|
  {
    if keys == {} then []
    else
      LeastExists(keys);
      assert forall a, b | Least(a, keys) && Least(b, keys) :: a == b by {
        forall a, b | Least(a, keys) && Least(b, keys) ensures a == b { LeastUnique(a, b, keys); }
      }
      var least :| least in keys && Least(least, keys);
      var rest := SortedKeys(keys - {least});
      LeastFirst(least, keys, rest);
      [least] + rest
  }

  lemma MembersOrEmpty(listing: seq<string>)
    ensures listing == [] || exists k :: k in listing
  {
    if listing != [] { assert listing[0] in listing; }
  }

  lemma HeadIsLeast(keys: set<string>, listing: seq<string>)
    requires Ascending(listing) && listing != []
    requires forall k :: k in listing <==> k in keys
    ensures Least(listing[0], keys)
  {
    hide Below;
    assert listing[0] in listing;
    forall k | k in keys && k != listing[0] ensures Below(listing[0], k) {
      var i :| 0 <= i < |listing| && listing[i] == k;
    }
  }

  lemma TailLists(keys: set<string>, listing: seq<string>)
    requires Ascending(listing) && listing != []
    requires forall k :: k in listing <==> k in keys
    ensures Ascending(listing[1..])
    ensures forall k :: k in listing[1..] <==> k in keys - {listing[0]}
  {
    hide Below;
    forall k ensures k in listing[1..] <==> k in keys - {listing[0]} {
      if k in listing[1..] {
        var i :| 1 <= i < |listing| && listing[i] == k;
        BelowTotal(listing[0], k);
      }
      assert listing == [listing[0]] + listing[1..];
    }
  }

  /** No other ascending listing of the same keys exists. */
  lemma {:induction false} SortedKeysUnique(keys: set<string>, listing: seq<string>)
    requires Ascending(listing)
    requires forall k :: k in listing <==> k in keys
    ensures listing == SortedKeys(keys)
    decreases keys
  {
    hide Below, Ascending, Least;
    MembersOrEmpty(listing);
    MembersOrEmpty(SortedKeys(keys));
    if listing != [] {
      assert listing[0] in listing;
      var sorted := SortedKeys(keys);
      HeadIsLeast(keys, listing);
      HeadIsLeast(keys, sorted);
      LeastUnique(listing[0], sorted[0], keys);
      TailLists(keys, listing);
      SortedKeysUnique(keys - {listing[0]}, listing[1..]);
      assert listing == [listing[0]] + listing[1..];
    }
  }

  lemma AscendingDistinct(keys: seq<string>)
    requires Ascending(keys)
    ensures forall i, j | 0 <= i < j < |keys| :: keys[i] != keys[j]
  {
    forall i, j | 0 <= i < j < |keys| ensures keys[i] != keys[j] {
      BelowTotal(keys[i], keys[j]);
    }
  }
}
