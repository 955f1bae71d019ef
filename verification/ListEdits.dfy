/** What the edits of the target list do to the list, and when the edited configuration is still a good one. */
module ListEdits {
  import opened Wrappers
  import opened Protocol
  import opened Config
  import opened Machine
  import opened Agreement

  /** The parts of being well formed that depend on the targets. */
  ghost predicate GoodTargets(targets: seq<TargetConfig>) {
    (forall i | 0 <= i < |targets| :: ValidTarget(targets[i])) && Distinct(targets)
  }

  lemma WellFormedExactly(config: DaemonConfig)
    ensures WellFormed(config) <==> ValidFrame(config) && GoodTargets(config.targets)
  {
    hide ValidTarget, ValidFrame, Distinct;
    var targets := config.targets;
    if forall i | 0 <= i < |targets| :: ValidTarget(targets[i]) {
      forall t | t in targets ensures ValidTarget(t) { var i :| 0 <= i < |targets| && targets[i] == t; }
    }
  }

  lemma {:induction false} WithoutStranger(targets: seq<TargetConfig>, name: string)
    requires forall i | 0 <= i < |targets| :: targets[i].name != name
    ensures Without(targets, name) == targets
  {
    if targets != [] {
      WithoutStranger(targets[1..], name);
      assert targets == [targets[0]] + targets[1..];
    }
  }

  /** Removing takes the one entry out and closes the gap. */
  lemma {:induction false} RemovedExactly(targets: seq<TargetConfig>, i: nat)
    requires i < |targets| && Distinct(targets)
    ensures EditedList(targets, Remove(targets[i].name)) == targets[..i] + targets[i + 1..]
  {
    var name := targets[i].name;
    if i == 0 {
      WithoutStranger(targets[1..], name);
      assert targets[..0] + targets[1..] == targets[1..];
    } else {
      assert targets[0].name != name;
      RemovedExactly(targets[1..], i - 1);
      assert targets[..i] + targets[i + 1..] == [targets[0]] + (targets[1..][..i - 1] + targets[1..][i..]);
    }
  }

  lemma FoundAt(targets: seq<TargetConfig>, i: nat)
    requires i < |targets| && Distinct(targets)
    ensures IndexOf(targets, targets[i].name) == i
  {
  }

  /** Renaming changes the name of the one entry in its place. */
  lemma RenamedExactly(targets: seq<TargetConfig>, i: nat, replacement: string)
    requires i < |targets| && Distinct(targets)
    ensures EditedList(targets, Rename(targets[i].name, replacement))
            == targets[i := targets[i].(name := replacement)]
  {
    FoundAt(targets, i);
  }

  /** The one entry with this name is gone, and the gap is closed. */
  ghost predicate TakenOut(before: seq<TargetConfig>, name: string, after: seq<TargetConfig>) {
    exists i: nat :: i < |before| && before[i].name == name && after == before[..i] + before[i + 1..]
  }

  /** The one entry with this name has another name, in its old place. */
  ghost predicate RenamedIn(before: seq<TargetConfig>, name: string, replacement: string, after: seq<TargetConfig>) {
    exists i: nat ::
      i < |before| && before[i].name == name && after == before[i := before[i].(name := replacement)]
  }

  // ---- Well-formedness of the candidates ----

  /** An entry with a new name and a channel already in use makes a good configuration exactly if its name is valid. */
  lemma AddedIsWellFormed(config: DaemonConfig, entry: TargetConfig)
    requires WellFormed(config) && forall i | 0 <= i < |config.targets| :: config.targets[i].name != entry.name
    requires entry.channel.Some? ==> exists i :: 0 <= i < |config.targets| && config.targets[i].channel == entry.channel
    ensures WellFormed(config.(targets := config.targets + [entry])) <==> ValidTargetName(entry.name)
  {
    hide ValidTargetName, ValidChannel, ValidFrame, WellFormed;
    var edited := config.(targets := config.targets + [entry]);
    WellFormedExactly(config);
    WellFormedExactly(edited);
    SameFrame(config, edited.targets);
    assert edited.targets[|config.targets|] == entry;
  }

  lemma SameFrame(config: DaemonConfig, targets: seq<TargetConfig>)
    ensures ValidFrame(config.(targets := targets)) <==> ValidFrame(config)
  {
  }

  lemma RemovedIsWellFormed(config: DaemonConfig, i: nat)
    requires WellFormed(config) && i < |config.targets|
    ensures WellFormed(config.(targets := config.targets[..i] + config.targets[i + 1..]))
  {
    hide ValidTarget, ValidFrame, WellFormed;
    var edited := config.(targets := config.targets[..i] + config.targets[i + 1..]);
    WellFormedExactly(config);
    WellFormedExactly(edited);
    SameFrame(config, edited.targets);
  }

  lemma RenamedIsWellFormed(config: DaemonConfig, i: nat, replacement: string)
    requires WellFormed(config) && i < |config.targets|
    requires forall j | 0 <= j < |config.targets| :: config.targets[j].name != replacement
    ensures WellFormed(config.(targets := config.targets[i := config.targets[i].(name := replacement)]))
            <==> ValidTargetName(replacement)
  {
    hide ValidTargetName, ValidChannel, ValidFrame, WellFormed;
    var edited := config.(targets := config.targets[i := config.targets[i].(name := replacement)]);
    WellFormedExactly(config);
    WellFormedExactly(edited);
    SameFrame(config, edited.targets);
    assert ValidTarget(config.targets[i]);
    assert edited.targets[i].name == replacement;
  }

  /** A changed entry makes a good configuration exactly if the channel it is given, if any, is one. */
  lemma ChangedIsWellFormed(config: DaemonConfig, i: nat, change: ConfigChange)
    requires WellFormed(config) && i < |config.targets|
    ensures WellFormed(config.(targets := config.targets[i := Changed(config.targets[i], change)]))
            <==> match change case SetDisabled(_) => true case SetChannel(c) => c.Some? ==> ValidChannel(c.value)
  {
    hide ValidTargetName, ValidChannel, ValidFrame, WellFormed;
    var edited := config.(targets := config.targets[i := Changed(config.targets[i], change)]);
    WellFormedExactly(config);
    WellFormedExactly(edited);
    SameFrame(config, edited.targets);
    assert ValidTarget(config.targets[i]);
    assert edited.targets[i] == Changed(config.targets[i], change);
  }

  // ---- The same in a consistent state ----

  /** The entry of a target and the place it stands at. */
  lemma EntryOf(s: Daemon, name: string) returns (i: nat)
    requires Consistent(s) && name in s.targets
    ensures i < |s.config.targets| && s.config.targets[i] == s.targets[name].config && s.config.targets[i].name == name
  {
    var entry := s.targets[name].config;
    i :| 0 <= i < |s.config.targets| && s.config.targets[i] == entry;
  }

  lemma NoEntryOf(s: Daemon, name: string)
    requires Consistent(s) && name !in s.targets
    ensures forall i | 0 <= i < |s.config.targets| :: s.config.targets[i].name != name
  {
  }

  lemma Addition(s: Daemon, name: string, from: Option<string>, disabled: bool)
    requires Consistent(s) && name !in s.targets && (from.Some? ==> from.value in s.targets)
    ensures var channel := if from.Some? then s.targets[from.value].config.channel else None;
            var entry := TargetConfig(name, disabled, channel);
            WellFormed(EditedConfig(s.config, Add(entry))) <==> ValidTargetName(name)
  {
    hide ValidTargetName, WellFormed;
    NoEntryOf(s, name);
    if from.Some? { var i := EntryOf(s, from.value); }
    ConsistentIsWellFormed(s);
    var channel := if from.Some? then s.targets[from.value].config.channel else None;
    AddedIsWellFormed(s.config, TargetConfig(name, disabled, channel));
  }

  lemma ConsistentIsWellFormed(s: Daemon)
    requires Consistent(s)
    ensures WellFormed(s.config) && Distinct(s.config.targets)
  {
  }

  lemma Removal(s: Daemon, name: string)
    requires Consistent(s) && name in s.targets
    ensures TakenOut(s.config.targets, name, EditedList(s.config.targets, Remove(name)))
    ensures WellFormed(EditedConfig(s.config, Remove(name)))
  {
    hide WellFormed;
    ConsistentIsWellFormed(s);
    var i := EntryOf(s, name);
    RemovedExactly(s.config.targets, i);
    RemovedIsWellFormed(s.config, i);
  }

  lemma Renaming(s: Daemon, name: string, replacement: string)
    requires Consistent(s) && name in s.targets && replacement !in s.targets
    ensures RenamedIn(s.config.targets, name, replacement, EditedList(s.config.targets, Rename(name, replacement)))
    ensures WellFormed(EditedConfig(s.config, Rename(name, replacement))) <==> ValidTargetName(replacement)
  {
    hide WellFormed, ValidTargetName;
    ConsistentIsWellFormed(s);
    NoEntryOf(s, replacement);
    var i := EntryOf(s, name);
    RenamedExactly(s.config.targets, i, replacement);
    RenamedIsWellFormed(s.config, i, replacement);
  }
}
