/** The grammar of the `add` command's options (crates/targets/src/main.rs). */
module AddOptions {
  import opened Wrappers

  datatype AddError =
    | TargetRequired
    | UnknownOption(option: string)
    | DuplicateOption(option: string)
    | ValueRequired(option: string)

  predicate Known(option: string) {
    option == "--from" || option == "--channel" || option == "--enable" || option == "--start"
  }

  predicate TakesValue(option: string) { option == "--from" || option == "--channel" }

  predicate Dashed(text: string) { "--" <= text }

  /** What each option given is bound to: a value, or nothing for a flag. */
  type Bindings = map<string, Option<string>>

  /** The left-to-right reading of the arguments from `i` on. */
  function Scan(args: seq<string>, i: nat, bound: Bindings): Result<Bindings, AddError>
    decreases |args| - i
  {
    if i >= |args| then Success(bound)
    else
      var option := args[i];
      if !Known(option) then Failure(UnknownOption(option))
      else if option in bound then Failure(DuplicateOption(option))
      else if !TakesValue(option) then Scan(args, i + 1, bound[option := None])
      else if i + 1 == |args| || Dashed(args[i + 1]) then Failure(ValueRequired(option))
      else Scan(args, i + 2, bound[option := Some(args[i + 1])])
  }

  function Parse(args: seq<string>): Result<Bindings, AddError> {
    if args == [] then Failure(TargetRequired) else Scan(args, 1, map[])
  }

  // ---- The grammar the scan reads ----

  /** One option as given, with the value it takes. */
  datatype Given = Given(option: string, value: Option<string>)

  /** An option that takes a value has one that does not look like an option; a flag has none. */
  ghost predicate WellGiven(g: Given) {
    || (g.option in {"--from", "--channel"} && g.value.Some? && !("--" <= g.value.value))
    || (g.option in {"--enable", "--start"} && g.value.None?)
  }

  /** Options well given, none of them twice. */
  ghost predicate Lawful(given: seq<Given>) {
    && (forall g | g in given :: WellGiven(g))
    && forall i, j | 0 <= i < j < |given| :: given[i].option != given[j].option
  }

  /** The arguments that spell the options. */
  function Spelled(given: seq<Given>): seq<string> {
    if given == [] then []
    else
      var g := given[|given| - 1];
      Spelled(given[..|given| - 1]) + [g.option] + if g.value.Some? then [g.value.value] else []
  }

  /** What the options are bound to. */
  ghost predicate Binds(given: seq<Given>, bound: Bindings) {
    && (forall g | g in given :: g.option in bound && bound[g.option] == g.value)
    && forall option | option in bound :: exists g :: g in given && g.option == option
  }

  /** What is wrong with the arguments after the options already given. */
  ghost predicate Objects(given: seq<Given>, rest: seq<string>, error: AddError) {
    && rest != []
    && var option := rest[0];
       match error
       case TargetRequired => false
       case UnknownOption(text) => text == option && option !in {"--from", "--channel", "--enable", "--start"}
       case DuplicateOption(text) => text == option && exists g :: g in given && g.option == option
       case ValueRequired(text) =>
         && text == option && option in {"--from", "--channel"}
         && (forall g | g in given :: g.option != option)
         && (|rest| > 1 ==> "--" <= rest[1])
  }

  lemma OneMoreGiven(given: seq<Given>, bound: Bindings, g: Given)
    requires Lawful(given) && Binds(given, bound) && WellGiven(g) && g.option !in bound
    ensures Lawful(given + [g]) && Binds(given + [g], bound[g.option := g.value])
    ensures Spelled(given + [g]) == Spelled(given) + [g.option] + if g.value.Some? then [g.value.value] else []
  {
    hide WellGiven;
    var more := given + [g];
    assert more[..|given|] == given;
    forall i | 0 <= i < |given| ensures given[i].option != g.option { assert given[i] in given; }
    assert g in more;
    assert forall h | h in given :: h in more;
  }

  lemma OptionsNamed(option: string)
    ensures Known(option) <==> option in {"--from", "--channel", "--enable", "--start"}
    ensures TakesValue(option) <==> option in {"--from", "--channel"}
    ensures TakesValue(option) ==> Known(option) && option !in {"--enable", "--start"}
  {
  }

  lemma GivenValue(option: string, value: string)
    requires TakesValue(option) && !Dashed(value)
    ensures WellGiven(Given(option, Some(value)))
  {
  }

  lemma GivenFlag(option: string)
    requires Known(option) && !TakesValue(option)
    ensures WellGiven(Given(option, None))
  {
  }

  lemma ObjectsRightly(given: seq<Given>, bound: Bindings, rest: seq<string>)
    requires Binds(given, bound) && rest != []
    ensures var option := rest[0];
            && (!Known(option) ==> Objects(given, rest, UnknownOption(option)))
            && (option in bound ==> Objects(given, rest, DuplicateOption(option)))
            && (TakesValue(option) && option !in bound && (|rest| == 1 || Dashed(rest[1])) ==>
                  Objects(given, rest, ValueRequired(option)))
  {
    OptionsNamed(rest[0]);
  }

  /**
   The scan from any point: it ends with all options given, or with an objection to
   what follows the options given before it.
   */
  lemma {:induction false} ScanReads(args: seq<string>, i: nat, given: seq<Given>, bound: Bindings)
    returns (all: seq<Given>, rest: seq<string>)
    requires i <= |args| && Lawful(given) && Binds(given, bound)
    ensures Lawful(all) && Spelled(given) + args[i..] == Spelled(all) + rest
    ensures match Scan(args, i, bound)
            case Success(b) => rest == [] && Binds(all, b)
            case Failure(error) => Objects(all, rest, error)
    decreases |args| - i
  {
    hide Known, TakesValue, Dashed, Lawful, Binds, Objects, WellGiven, Spelled;
    if i == |args| {
      all, rest := given, [];
    } else {
      var option := args[i];
      all, rest := given, args[i..];
      assert rest[0] == option && (|rest| > 1 ==> rest[1] == args[i + 1]);
      ObjectsRightly(given, bound, rest);
      if Known(option) && option !in bound && !TakesValue(option) {
        GivenFlag(option);
        OneMoreGiven(given, bound, Given(option, None));
        all, rest := ScanReads(args, i + 1, given + [Given(option, None)], bound[option := None]);
        assert args[i..] == [option] + args[i + 1..];
      } else if Known(option) && option !in bound && i + 1 < |args| && !Dashed(args[i + 1]) {
        var value := Some(args[i + 1]);
        GivenValue(option, args[i + 1]);
        OneMoreGiven(given, bound, Given(option, value));
        all, rest := ScanReads(args, i + 2, given + [Given(option, value)], bound[option := value]);
        assert args[i..] == [option] + [args[i + 1]] + args[i + 2..];
      }
    }
  }

  /** The arguments are a target, options well given, and what is objected to, if anything is. */
  lemma ParseReads(args: seq<string>) returns (given: seq<Given>, rest: seq<string>)
    ensures args == [] <==> Parse(args) == Failure(TargetRequired)
    ensures args != [] ==> Lawful(given) && args[1..] == Spelled(given) + rest
    ensures args != [] && Parse(args).Success? ==> rest == [] && Binds(given, Parse(args).value)
    ensures args != [] && Parse(args).Failure? ==> Objects(given, rest, Parse(args).error)
  {
    given, rest := [], [];
    if args != [] {
      given, rest := ScanReads(args, 1, [], map[]);
    }
  }

  lemma {:induction false} ScanFollows(args: seq<string>, given: seq<Given>, rest: seq<string>)
    returns (bound: Bindings)
    requires Lawful(given) && args != [] && args[1..] == Spelled(given) + rest
    ensures Binds(given, bound) && Parse(args) == Scan(args, 1 + |Spelled(given)|, bound)
  {
    hide WellGiven, Lawful, Binds, Scan;
    if given == [] {
      bound := map[];
      NothingGiven();
    } else {
      var n := |given| - 1;
      var front, g := given[..n], given[n];
      var own := [g.option] + if g.value.Some? then [g.value.value] else [];
      assert Spelled(given) + rest == Spelled(front) + (own + rest);
      LawfulFront(given);
      var before := ScanFollows(args, front, own + rest);
      var i := 1 + |Spelled(front)|;
      assert args[i..] == own + rest;
      assert args[i] == (own + rest)[0] && (g.value.Some? ==> args[i + 1] == (own + rest)[1]);
      NotGivenYet(given, before);
      ScanOne(args, i, before, g);
      bound := before[g.option := g.value];
      assert given == front + [g];
      OneMoreGiven(front, before, g);
    }
  }

  lemma NothingGiven()
    ensures Lawful([]) && Binds([], map[]) && Spelled([]) == []
  {
  }

  lemma LawfulFront(given: seq<Given>)
    requires given != [] && Lawful(given)
    ensures Lawful(given[..|given| - 1]) && WellGiven(given[|given| - 1])
  {
  }

  lemma ScanOne(args: seq<string>, i: nat, bound: Bindings, g: Given)
    requires i < |args| && args[i] == g.option && WellGiven(g) && g.option !in bound
    requires g.value.Some? ==> i + 1 < |args| && args[i + 1] == g.value.value
    ensures Scan(args, i, bound) == Scan(args, i + (if g.value.Some? then 2 else 1), bound[g.option := g.value])
  {
    hide Known, TakesValue, Dashed;
    GivenMeans(g);
  }

  lemma NotGivenYet(given: seq<Given>, before: Bindings)
    requires given != [] && Lawful(given) && Binds(given[..|given| - 1], before)
    ensures given[|given| - 1].option !in before
  {
  }

  lemma GivenMeans(g: Given)
    requires WellGiven(g)
    ensures Known(g.option) && (TakesValue(g.option) <==> g.value.Some?)
    ensures g.value.Some? ==> !Dashed(g.value.value)
  {
  }

  /** Every lawful list of options is accepted, and bound as given. */
  lemma LawfulIsAccepted(target: string, given: seq<Given>)
    requires Lawful(given)
    ensures var r := Parse([target] + Spelled(given)); r.Success? && Binds(given, r.value)
  {
    hide Lawful, Binds, Spelled;
    var args := [target] + Spelled(given);
    assert args[1..] == Spelled(given) + [];
    var bound := ScanFollows(args, given, []);
  }

  /** And every objection is reported. */
  lemma ObjectionIsReported(target: string, given: seq<Given>, rest: seq<string>, error: AddError)
    requires Lawful(given) && Objects(given, rest, error)
    ensures Parse([target] + Spelled(given) + rest) == Failure(error)
  {
    hide Lawful, Spelled;
    var args := [target] + Spelled(given) + rest;
    assert args[1..] == Spelled(given) + rest;
    var bound := ScanFollows(args, given, rest);
    var i := 1 + |Spelled(given)|;
    assert args[i..] == rest;
    ReportedAt(args, i, given, bound, rest, error);
  }

  lemma BoundIsGiven(given: seq<Given>, bound: Bindings, option: string)
    requires Lawful(given) && Binds(given, bound)
    ensures option in bound <==> exists g :: g in given && g.option == option
    ensures option in bound ==> Known(option)
  {
    if option in bound {
      var g :| g in given && g.option == option;
      GivenMeans(g);
    }
  }

  lemma DashedExactly(text: string)
    ensures Dashed(text) <==> "--" <= text
  {
  }

  lemma ReportedAt(
      args: seq<string>, i: nat, given: seq<Given>, bound: Bindings, rest: seq<string>, error: AddError)
    requires i < |args| && args[i..] == rest && Lawful(given) && Binds(given, bound) && Objects(given, rest, error)
    ensures Scan(args, i, bound) == Failure(error)
  {
    hide Known, TakesValue, Dashed;
    var option := args[i];
    assert option == rest[0] && |args| == i + |rest| && (|rest| > 1 ==> args[i + 1] == rest[1]);
    OptionsNamed(option);
    BoundIsGiven(given, bound, option);
    if |rest| > 1 { assert Dashed(rest[1]) <==> "--" <= rest[1] by { DashedExactly(rest[1]); } }
  }

  /** `validate_add_args` accepts what the scan accepts and reports the scan's error. */
  method ValidateAddArgs(args: seq<string>) returns (r: Result<(), AddError>)
    ensures match Parse(args) case Success(_) => r.Success? case Failure(error) => r == Failure(error)
  {
    if args == [] {
      return Failure(TargetRequired);
    }
    var index := 1;
    var seen: set<string> := {};
    ghost var bound: Bindings := map[];
    while index < |args|
      invariant 1 <= index <= |args| && seen == bound.Keys
      invariant Parse(args) == Scan(args, index, bound)
    {
      var option := args[index];
      if !(option == "--from" || option == "--channel" || option == "--enable" || option == "--start") {
        return Failure(UnknownOption(option));
      }
      if option in seen {
        return Failure(DuplicateOption(option));
      }
      seen := seen + {option};
      index := index + 1;
      if option == "--from" || option == "--channel" {
        if index == |args| || "--" <= args[index] {
          return Failure(ValueRequired(option));
        }
        bound := bound[option := Some(args[index])];
        index := index + 1;
      } else {
        bound := bound[option := None];
      }
    }
    return Success(());
  }

  /** The first position of `text` at or after `i`, or the number of arguments. */
  function Position(args: seq<string>, text: string, i: nat): (p: nat)
    requires i <= |args|
    ensures i <= p <= |args|
    ensures p < |args| ==> args[p] == text
    ensures forall j | i <= j < p :: args[j] != text
    decreases |args| - i
  {
    if i == |args| || args[i] == text then i else Position(args, text, i + 1)
  }

  /** `option_value`: the argument after the first occurrence, wherever that is. */
  function OptionValue(args: seq<string>, option: string): Result<Option<string>, AddError> {
    var index := Position(args, option, 0);
    if index == |args| then Success(None)
    else if index + 1 < |args| then Success(Some(args[index + 1]))
    else Failure(ValueRequired(option))
  }

  /** Arguments that are something else are passed over. */
  lemma PositionSkips(args: seq<string>, text: string, i: nat)
    requires i < |args| && args[i] != text
    ensures Position(args, text, i) == Position(args, text, i + 1)
  {
  }

  /** What the scan binds an option to is decided by the option's first occurrence. */
  lemma {:induction false} ScanBinds(args: seq<string>, i: nat, bound: Bindings, option: string)
    requires i <= |args| && Scan(args, i, bound).Success? && Known(option)
    ensures var b, p := Scan(args, i, bound).value, Position(args, option, i);
            if option in bound then option in b && b[option] == bound[option] && p == |args|
            else
              && (option in b <==> p < |args|)
              && (option in b && TakesValue(option) ==>
                    p + 1 < |args| && !Dashed(args[p + 1]) && b[option] == Some(args[p + 1]))
    decreases |args| - i
  {
    hide Known, TakesValue, Dashed, Position;
    if i < |args| {
      var first := args[i];
      if first != option { PositionSkips(args, option, i); }
      if TakesValue(first) {
        KnownIsDashed(option);
        PositionSkips(args, option, i + 1);
        ScanBinds(args, i + 2, bound[first := Some(args[i + 1])], option);
      } else {
        ScanBinds(args, i + 1, bound[first := None], option);
      }
    }
  }

  lemma KnownIsDashed(option: string)
    requires Known(option)
    ensures Dashed(option)
  {
  }

  /**
   For accepted arguments, looking an option up by its first occurrence agrees with
   the scan exactly when the option's own text is not the target's name.
   */
  lemma OptionValueAgrees(args: seq<string>, option: string)
    requires Parse(args).Success? && TakesValue(option)
    ensures var b := Parse(args).value;
            OptionValue(args, option) == Success(if option in b then b[option] else None) <==> args[0] != option
  {
    ScanBinds(args, 1, map[], option);
    if args[0] == option {
      assert Position(args, option, 0) == 0;
      if |args| > 1 { assert Known(args[1]) && Dashed(args[1]); }
    } else {
      assert Position(args, option, 0) == Position(args, option, 1);
    }
  }

  /**
   For accepted arguments, a flag's presence agrees with the scan exactly when the
   flag's own text is not the target's name, or it is given as well.
   */
  lemma FlagAgrees(args: seq<string>, flag: string)
    requires Parse(args).Success? && Known(flag) && !TakesValue(flag)
    ensures (flag in args <==> flag in Parse(args).value) <==> (args[0] != flag || flag in args[1..])
  {
    ScanBinds(args, 1, map[], flag);
    var p := Position(args, flag, 1);
    if p < |args| { assert args[1..][p - 1] == flag; }
    if flag in args[1..] {
      var j :| 0 <= j < |args[1..]| && args[1..][j] == flag;
      assert args[j + 1] == flag;
    }
    assert args == [args[0]] + args[1..];
  }

  /** Accepted arguments on which lookup and scan part: the lookup fails, or takes another option for the value. */
  lemma OptionAsTarget()
    ensures Parse(["--from"]) == Success(map[]) && OptionValue(["--from"], "--from") == Failure(ValueRequired("--from"))
    ensures Parse(["--from", "--enable"]).Success? && "--from" !in Parse(["--from", "--enable"]).value
    ensures OptionValue(["--from", "--enable"], "--from") == Success(Some("--enable"))
  {
    var args := ["--from", "--enable"];
    assert Position(args, "--from", 0) == 0 && Position(["--from"], "--from", 0) == 0;
    assert args[1] != "--from" by { assert args[1][2] == 'e'; }
    assert Scan(args, 2, map["--enable" := None]) == Success(map["--enable" := None]);
  }

  /** And where a flag's presence parts from the scan. */
  lemma FlagAsTarget()
    ensures Parse(["--enable"]) == Success(map[]) && "--enable" in ["--enable"]
  {
  }
}
