/**
 Agreement between the configuration list, the runtime map, the persisted file
 and the target directories, over every interleaving, and what a failed list
 operation leaves behind.
 */
module Agreement {
  import opened Wrappers
  import opened Protocol
  import opened Config
  import opened Runtime
  import opened Machine

  /** The runtime map holds exactly the configured targets, each with its own entry. */
  ghost predicate Agree(list: seq<TargetConfig>, targets: map<string, RuntimeTarget>) {
    && Distinct(list)
    && (forall c | c in list :: c.name in targets && targets[c.name].config == c)
    && (forall n | n in targets :: targets[n].config in list && targets[n].config.name == n)
  }

  // ---- What an operation should do to the target set and to the directories ----

  function EditedKeys(keys: set<string>, op: Operation): set<string> {
    match op
    case Add(target) => keys + {target.name}
    case Remove(name) => keys - {name}
    case Rename(name, replacement) => keys - {name} + {replacement}
  }

  predicate Applicable(op: Operation, keys: set<string>) {
    match op
    case Add(target) => target.name !in keys
    case Remove(name) => name in keys
    case Rename(name, replacement) => name in keys && replacement !in keys
  }

  /** The directory set after the move, and when the move goes ahead at all. */
  function MovedDirs(op: Operation, pid: string, dirs: set<string>): set<string> {
    match op
    case Add(target) => dirs + {target.name}
    case Remove(name) => if name in dirs then dirs - {name} + {Parked(name, pid)} else dirs
    case Rename(name, replacement) => dirs - {name} + {replacement}
  }

  predicate Movable(op: Operation, dirs: set<string>) {
    match op
    case Add(target) => target.name !in dirs
    case Remove(name) => true
    case Rename(name, replacement) => name in dirs && replacement !in dirs
  }

  /** The directories that belong to targets; a parked directory never does. */
  function TargetDirs(dirs: set<string>): set<string> { set d | d in dirs && ValidTargetName(d) }

  lemma ParkedIsNoTarget(name: string, pid: string)
    ensures !ValidTargetName(Parked(name, pid))
  {
    assert Parked(name, pid)[0] == '.';
  }

  /** Two targets' directories are never parked under one name. */
  lemma ParkedApart(name: string, other: string, pid: string)
    ensures Parked(name, pid) == Parked(other, pid) <==> name == other
  {
    var p, q := Parked(name, pid), Parked(other, pid);
    if p == q {
      assert |p| == 9 + |name| + |pid| && |q| == 9 + |other| + |pid|;
      assert name == p[8..8 + |name|] && other == q[8..8 + |other|];
    }
  }

  // ---- The invariant ----

  ghost predicate Progress(s: Daemon) {
    match s.mutation
    case Unlocked => s.disk == s.config
    case Crashed => false
    case Holding(op, phase, before) =>
      var candidate := EditedConfig(before.config, op);
      && before.disk == before.config
      && Applicable(op, before.keys)
      && (op.Remove? ==> ValidTargetName(op.name))
      && (!phase.Committed? ==> s.config == before.config && s.targets.Keys == before.keys)
      && (!phase.Persisted? && !phase.Committed? ==> s.disk == before.disk)
      && (if phase.Checked? then s.dirs == before.dirs
          else Movable(op, before.dirs) && s.dirs == MovedDirs(op, s.pid, before.dirs))
      && (phase.Prepared? ==> phase.candidate == candidate)
      && (phase.Persisted? ==> phase.candidate == candidate == s.disk && WellFormed(candidate))
      && (phase.Committed? ==>
            s.config == s.disk == candidate && s.targets.Keys == EditedKeys(before.keys, op))
  }

  /** How a finished operation may have changed things. */
  ghost predicate Accountable(o: Outcome, pid: string) {
    var before, after := o.before, o.after;
    && before.disk == before.config
    && after.disk == after.config
    && Applicable(o.op, before.keys)
    && (o.op.Remove? ==> ValidTargetName(o.op.name))
    && (match o.ending
        case Refused(tidy) =>
          after.config == before.config && after.keys == before.keys
          && (if tidy then after.dirs == before.dirs
              else o.op.Add? && after.dirs == before.dirs + {o.op.target.name})
        case RolledBack(restored) =>
          after.config == before.config && after.keys == before.keys && Movable(o.op, before.dirs)
          && after.dirs ==
             (var moved := MovedDirs(o.op, pid, before.dirs);
              if restored then RestoredDirs(o.op, pid, moved) else moved)
        case Completed(cleaned) =>
          && after.config == EditedConfig(before.config, o.op)
          && WellFormed(after.config)
          && after.keys == EditedKeys(before.keys, o.op)
          && Movable(o.op, before.dirs)
          && after.dirs ==
             (var moved := MovedDirs(o.op, pid, before.dirs);
              if o.op.Remove? && cleaned then moved - {Parked(o.op.name, pid)} else moved))
  }

  /** Holds in every reachable state of every run. */
  ghost predicate Consistent(s: Daemon) {
    && Agree(s.config.targets, s.targets)
    && WellFormed(s.config)
    && WellFormed(s.disk)
    && Progress(s)
    && forall o | o in s.outcomes :: Accountable(o, s.pid)
  }

  // ---- List lemmas ----

  lemma {:induction false} WithoutMembers(list: seq<TargetConfig>, name: string)
    ensures forall c :: c in Without(list, name) <==> c in list && c.name != name
    ensures Distinct(list) ==> Distinct(Without(list, name))
  {
    if list != [] {
      var rest := list[1..];
      WithoutMembers(rest, name);
      assert list == [list[0]] + rest;
      if Distinct(list) {
        assert Distinct(rest);
        var kept := Without(list, name);
        forall i, j | 0 <= i < j < |kept| ensures kept[i].name != kept[j].name {
          if list[0].name != name {
            assert kept == [list[0]] + Without(rest, name);
            if i == 0 {
              assert kept[j] in Without(rest, name);
              var k :| 0 <= k < |rest| && rest[k] == kept[j];
              assert list[k + 1] == kept[j];
            }
          }
        }
      }
    }
  }

  /** Replacing one entry of a distinct list by one with a fresh or the same name. */
  lemma ReplacedMembers(list: seq<TargetConfig>, i: nat, entry: TargetConfig)
    requires i < |list| && Distinct(list)
    requires entry.name == list[i].name || forall c | c in list :: c.name != entry.name
    ensures Distinct(list[i := entry])
    ensures forall c :: c in list[i := entry] <==> c == entry || (c in list && c != list[i])
  {
    var replaced := list[i := entry];
    forall j, k | 0 <= j < k < |replaced| ensures replaced[j].name != replaced[k].name {
      assert list[j] in list && list[k] in list;
    }
    forall c ensures c in replaced <==> c == entry || (c in list && c != list[i]) {
      assert replaced[i] == entry;
      if c in list && c != list[i] {
        var j :| 0 <= j < |list| && list[j] == c;
        assert replaced[j] == c;
      }
      if c in replaced && c != entry {
        var j :| 0 <= j < |replaced| && replaced[j] == c;
        assert list[j] == c && list[j].name != list[i].name;
      }
    }
  }

  lemma IndexOfMember(list: seq<TargetConfig>, targets: map<string, RuntimeTarget>, name: string)
    requires Agree(list, targets)
    ensures name in targets <==> IndexOf(list, name) < |list|
    ensures name in targets ==> list[IndexOf(list, name)] == targets[name].config
  {
    if IndexOf(list, name) < |list| {
      assert list[IndexOf(list, name)] in list;
    }
    if name in targets {
      var i :| 0 <= i < |list| && list[i] == targets[name].config;
    }
  }

  // ---- Every step keeps the invariant ----

  /** A step the configuration side cannot see. */
  ghost predicate SameConfigSide(s: Daemon, t: Daemon) {
    && t.config == s.config && t.disk == s.disk && t.dirs == s.dirs && t.pid == s.pid
    && t.mutation == s.mutation && t.outcomes == s.outcomes
    && t.targets.Keys == s.targets.Keys
    && forall n | n in s.targets :: t.targets[n].config == s.targets[n].config
  }

  lemma EditTargetUnseen(s: Daemon, name: string, section: Section, prompt: bool)
    ensures SameConfigSide(s, EditTarget(s, name, section, prompt))
  {
    hide EditOf, RecordOf, Grown;
    if name in s.targets {
      SectionFrame(section, s.targets[name]);
    }
  }

  lemma UnseenKeeps(s: Daemon, t: Daemon)
    requires Consistent(s) && SameConfigSide(s, t)
    ensures Consistent(t)
  {
  }

  lemma ChangeEntryKeeps(s: Daemon, name: string, change: ConfigChange, written: bool)
    requires Consistent(s)
    ensures Consistent(ChangeEntry(s, name, change, written))
  {
    IndexOfMember(s.config.targets, s.targets, name);
    var i := IndexOf(s.config.targets, name);
    if i < |s.config.targets| {
      ReplacedMembers(s.config.targets, i, Changed(s.config.targets[i], change));
    }
  }

  /** Ending an operation that left configuration, file and runtime map in agreement. */
  lemma EndKeeps(s: Daemon, ending: Ending)
    requires s.mutation.Holding?
    requires Agree(s.config.targets, s.targets) && WellFormed(s.config) && s.disk == s.config
    requires forall o | o in s.outcomes :: Accountable(o, s.pid)
    requires Accountable(Outcome(s.mutation.op, ending, s.mutation.before, MarkOf(s)), s.pid)
    ensures Consistent(End(s, ending))
  {
  }

  lemma MoveDirsKeeps(s: Daemon, done: bool, tidy: bool)
    requires Consistent(s) && In(s, Checked)
    ensures Consistent(MoveDirs(s, done, tidy))
  {
    var op := s.mutation.op;
    EndKeeps(s, Refused(true));
    if op.Add? && op.target.name !in s.dirs {
      EndKeeps(s.(dirs := s.dirs + {op.target.name}), Refused(false));
    }
  }

  lemma BuildKeeps(s: Daemon)
    requires Consistent(s) && In(s, Moved)
    ensures Consistent(Build(s))
  {
    if s.mutation.op.Rename? {
      IndexOfMember(s.config.targets, s.targets, s.mutation.op.name);
    }
  }

  lemma PersistKeeps(s: Daemon, written: bool, restored: bool)
    requires Consistent(s) && s.mutation.Holding? && s.mutation.phase.Prepared?
    ensures Consistent(PersistCandidate(s, written, restored))
  {
  }

  lemma AgreeAfterAdd(
      list: seq<TargetConfig>, targets: map<string, RuntimeTarget>, entry: TargetConfig, t: RuntimeTarget)
    requires Agree(list, targets) && entry.name !in targets && t.config == entry
    ensures Agree(list + [entry], targets[entry.name := t])
  {
    assert forall c | c in list :: c.name in targets;
  }

  lemma AgreeAfterRemove(list: seq<TargetConfig>, targets: map<string, RuntimeTarget>, name: string)
    requires Agree(list, targets)
    ensures Agree(Without(list, name), targets - {name})
  {
    WithoutMembers(list, name);
  }

  lemma AgreeAfterRename(
      list: seq<TargetConfig>, targets: map<string, RuntimeTarget>, name: string, replacement: string, t: RuntimeTarget)
    requires Agree(list, targets) && name in targets && replacement !in targets
    requires t.config == targets[name].config.(name := replacement)
    ensures Agree(EditedList(list, Rename(name, replacement)), (targets - {name})[replacement := t])
  {
    hide IndexOf, Distinct;
    var i := IndexOf(list, name);
    IndexOfMember(list, targets, name);
    ReplacedMembers(list, i, t.config);
    assert EditedList(list, Rename(name, replacement)) == list[i := t.config];
  }

  /** The commit of a candidate that agrees with the runtime map it installs. */
  lemma RelistedKeeps(
      s: Daemon, candidate: DaemonConfig, targets: map<string, RuntimeTarget>, history: seq<seq<TargetRecord>>)
    requires Consistent(s) && s.mutation.Holding? && s.mutation.phase == Persisted(candidate)
    requires Agree(candidate.targets, targets) && targets.Keys == EditedKeys(s.targets.Keys, s.mutation.op)
    ensures Consistent(Relisted(s, candidate, targets).(history := history))
  {
  }

  /** What is known of the candidate when it is about to be committed. */
  lemma CandidateAtCommit(s: Daemon)
    requires Consistent(s) && s.mutation.Holding? && s.mutation.phase.Persisted?
    ensures s.mutation.phase.candidate == EditedConfig(s.config, s.mutation.op)
    ensures s.mutation.phase.candidate.targets == EditedList(s.config.targets, s.mutation.op)
    ensures Applicable(s.mutation.op, s.targets.Keys)
    ensures Agree(s.config.targets, s.targets)
  {
  }

  /** What the commit of a list operation does, field by field. */
  lemma CommitEffect(s: Daemon)
    requires s.mutation.Holding? && s.mutation.phase.Persisted?
    requires s.mutation.op.Rename? ==> s.mutation.op.name in s.targets
    ensures var t := CommitCandidate(s);
            && t.config == s.mutation.phase.candidate && t.disk == s.disk && t.dirs == s.dirs
            && t.targets == RelistedTargets(s.mutation.op, s.targets, |s.history|)
            && t.log == s.log + [Sent(SnapshotTaken(SnapshotFrom(t.config.node.id, t.targets)), 0)]
            && t.mutation == s.mutation.(phase := Committed)
            && t.flights == s.flights && t.outcomes == s.outcomes
            && |t.history| == |s.history| + (if s.mutation.op.Add? then 1 else 0)
  {
    hide RelistedTargets, SnapshotFrom, RecordOf;
  }

  lemma CommitAddKeeps(s: Daemon, target: TargetConfig)
    requires Consistent(s) && s.mutation.Holding? && s.mutation.phase.Persisted? && s.mutation.op == Add(target)
    ensures Consistent(CommitCandidate(s))
  {
    hide Consistent, Agree, RecordOf, SnapshotFrom, EditedConfig;
    CandidateAtCommit(s);
    var t := NewTarget(target, true, |s.history|);
    AgreeAfterAdd(s.config.targets, s.targets, target, t);
    RelistedKeeps(s, s.mutation.phase.candidate, s.targets[target.name := t], CommitCandidate(s).history);
  }

  lemma CommitRemoveKeeps(s: Daemon, name: string)
    requires Consistent(s) && s.mutation.Holding? && s.mutation.phase.Persisted? && s.mutation.op == Remove(name)
    ensures Consistent(CommitCandidate(s))
  {
    hide Consistent, Agree, RecordOf, SnapshotFrom, EditedConfig;
    CandidateAtCommit(s);
    AgreeAfterRemove(s.config.targets, s.targets, name);
    RelistedKeeps(s, s.mutation.phase.candidate, s.targets - {name}, s.history);
  }

  lemma CommitRenameKeeps(s: Daemon, name: string, replacement: string)
    requires Consistent(s) && s.mutation.Holding? && s.mutation.phase.Persisted?
    requires s.mutation.op == Rename(name, replacement)
    ensures Consistent(CommitCandidate(s))
  {
    hide Consistent, Agree, RecordOf, SnapshotFrom, EditedConfig;
    CandidateAtCommit(s);
    var t := Bump(s.targets[name].(config := s.targets[name].config.(name := replacement)));
    AgreeAfterRename(s.config.targets, s.targets, name, replacement, t);
    RelistedKeeps(s, s.mutation.phase.candidate, (s.targets - {name})[replacement := t], CommitCandidate(s).history);
  }

  lemma CommitKeeps(s: Daemon)
    requires Consistent(s) && s.mutation.Holding? && s.mutation.phase.Persisted?
    ensures Consistent(CommitCandidate(s))
  {
    match s.mutation.op
    case Add(target) => CommitAddKeeps(s, target);
    case Remove(name) => CommitRemoveKeeps(s, name);
    case Rename(name, replacement) => CommitRenameKeeps(s, name, replacement);
  }

  lemma CleanUpKeeps(s: Daemon, cleaned: bool)
    requires Consistent(s) && In(s, Committed)
    ensures Consistent(CleanUp(s, cleaned))
  {
    var op := s.mutation.op;
    if !op.Remove? || Parked(op.name, s.pid) !in s.dirs {
      if op.Remove? { assert s.dirs - {Parked(op.name, s.pid)} == s.dirs; }
      EndKeeps(s, Completed(true));
    } else if cleaned {
      EndKeeps(s.(dirs := s.dirs - {Parked(op.name, s.pid)}), Completed(true));
    } else {
      EndKeeps(s, Completed(false));
    }
  }

  lemma EndLaunchUnseen(s: Daemon, name: string, section: Section)
    ensures SameConfigSide(s, EndLaunch(s, name, section))
  {
    EditTargetUnseen(s.(flights := s.flights - multiset{name}), name, section, true);
  }

  lemma SectionStepUnseen(s: Daemon, l: Label)
    requires l.Run? || l.Attach? || l.LaunchSucceeded? || l.LaunchFailed? || l.Send?
    ensures SameConfigSide(s, Step(s, l))
  {
    match l
    case Run(name, section, prompt) => EditTargetUnseen(s, name, section, prompt);
    case Attach(name) => EditTargetUnseen(s, name, MarkOnline, true);
    case LaunchSucceeded(name) => EndLaunchUnseen(s, name, MarkOnline);
    case LaunchFailed(name) => EndLaunchUnseen(s, name, ClearLaunching);
    case Send(_) =>
  }

  lemma StartsKeep(s: Daemon, op: Operation)
    requires Consistent(s) && s.mutation.Unlocked? && Applicable(op, s.targets.Keys)
    ensures Consistent(Begin(s, op))
  {
    assert op.Remove? ==> ValidTarget(s.targets[op.name].config);
  }

  lemma AbortKeeps(s: Daemon)
    requires Consistent(s) && In(s, Checked) && s.mutation.op.Remove?
    ensures Consistent(End(s, Refused(true)))
  {
    EndKeeps(s, Refused(true));
  }

  lemma BeginStepKeeps(s: Daemon, l: Label)
    requires Consistent(s) && (l.BeginAdd? || l.BeginRemove? || l.BeginRename?)
    ensures Consistent(Step(s, l))
  {
    hide Consistent, Begin, Proceed, EditTarget, RunSection, EndLaunch, ChangeEntry, CommitCandidate, SendLate;
    if s.mutation.Unlocked? {
      match l
      case BeginAdd(name, from, enable) =>
        var channel := if from.Some? && from.value in s.targets then s.targets[from.value].config.channel else None;
        if name !in s.targets { StartsKeep(s, Add(TargetConfig(name, !enable, channel))); }
      case BeginRemove(name) => if name in s.targets { StartsKeep(s, Remove(name)); }
      case BeginRename(name, replacement) =>
        if name in s.targets && replacement !in s.targets { StartsKeep(s, Rename(name, replacement)); }
    }
  }

  lemma StepKeepsConsistency(s: Daemon, l: Label)
    requires Consistent(s)
    ensures Consistent(Step(s, l))
  {
    hide Consistent, SameConfigSide;
    hide MoveDirs, Build, PersistCandidate, CommitCandidate, CleanUp, ChangeEntry, EditTarget;
    match l
    case Change(name, change, written) => ChangeEntryKeeps(s, name, change, written);
    case MoveDirectory(done, tidy) => if In(s, Checked) { MoveDirsKeeps(s, done, tidy); }
    case BuildCandidate => if In(s, Moved) { BuildKeeps(s); }
    case Persist(written, restored) =>
      if s.mutation.Holding? && s.mutation.phase.Prepared? { PersistKeeps(s, written, restored); }
    case Commit => if s.mutation.Holding? && s.mutation.phase.Persisted? { CommitKeeps(s); }
    case Finish(cleaned) => if In(s, Committed) { CleanUpKeeps(s, cleaned); }
    case AbortRemove => if In(s, Checked) && s.mutation.op.Remove? { AbortKeeps(s); }
    case BeginAdd(_, _, _) => BeginStepKeeps(s, l);
    case BeginRemove(_) => BeginStepKeeps(s, l);
    case BeginRename(_, _) => BeginStepKeeps(s, l);
    case _ =>
      SectionStepUnseen(s, l);
      UnseenKeeps(s, Step(s, l));
  }

  // ---- Startup and runs ----

  lemma InsertSize(targets: map<string, RuntimeTarget>, name: string, t: RuntimeTarget)
    requires name !in targets
    ensures |targets[name := t]| == |targets| + 1
  {
    assert targets[name := t].Keys == targets.Keys + {name};
  }

  lemma {:induction false} BuiltAt(list: seq<TargetConfig>, i: nat)
    requires Distinct(list) && i < |list|
    ensures list[i].name in BuildTargets(list)
    ensures BuildTargets(list)[list[i].name] == NewTarget(list[i], list[i].disabled, i)
  {
    if i < |list| - 1 {
      BuiltAt(list[..|list| - 1], i);
    }
  }

  lemma DistinctFront(list: seq<TargetConfig>)
    requires Distinct(list) && list != []
    ensures Distinct(list[..|list| - 1])
    ensures forall c | c in list[..|list| - 1] :: c.name != list[|list| - 1].name
  {
  }

  lemma NameAbsent(list: seq<TargetConfig>, targets: map<string, RuntimeTarget>, name: string)
    requires Agree(list, targets) && forall c | c in list :: c.name != name
    ensures name !in targets
  {
  }

  lemma {:induction false} BuildTargetsAgrees(list: seq<TargetConfig>)
    requires Distinct(list)
    ensures Agree(list, BuildTargets(list)) && |BuildTargets(list)| == |list|
    ensures forall i | 0 <= i < |list| :: BuildTargets(list)[list[i].name] == NewTarget(list[i], list[i].disabled, i)
  {
    hide Distinct, Agree;
    if list != [] {
      var front, last := list[..|list| - 1], list[|list| - 1];
      DistinctFront(list);
      BuildTargetsAgrees(front);
      NameAbsent(front, BuildTargets(front), last.name);
      InsertSize(BuildTargets(front), last.name, NewTarget(last, last.disabled, |list| - 1));
      AgreeAfterAdd(front, BuildTargets(front), last, NewTarget(last, last.disabled, |list| - 1));
      assert list == front + [last];
    } else {
      NothingAgrees();
    }
    forall i | 0 <= i < |list|
      ensures list[i].name in BuildTargets(list)
      ensures BuildTargets(list)[list[i].name] == NewTarget(list[i], list[i].disabled, i)
    {
      BuiltAt(list, i);
    }
  }

  lemma NothingAgrees()
    ensures Agree([], map[])
  {
  }

  /** A target as startup builds it from its entry. */
  ghost predicate Fresh(c: TargetConfig, t: RuntimeTarget) {
    && t.config == c && t.stopped == c.disabled
    && !t.online && !t.launching && !t.recovering && t.revision == 0 && t.observed == DEFAULT_STATE
  }

  lemma BuildTargetsFresh(list: seq<TargetConfig>)
    requires Distinct(list)
    ensures var built := BuildTargets(list);
            && (forall c | c in list :: c.name in built && Fresh(c, built[c.name]))
            && (forall n | n in built :: built[n].config in list && Fresh(built[n].config, built[n]))
  {
    BuildTargetsAgrees(list);
    var built := BuildTargets(list);
    forall c | c in list ensures c.name in built && Fresh(c, built[c.name]) {
      var i :| 0 <= i < |list| && list[i] == c;
    }
    forall n | n in built ensures built[n].config in list && Fresh(built[n].config, built[n]) {
      assert built[n].config.name == n;
    }
  }

  /**
   Agreement over every run: whenever the state lock is free the runtime map is
   the configuration, no commit loses another task's update, both `expect` calls
   find their target, the file is the configuration except while a candidate is
   being committed, and every configuration ever written is valid.
   */
  lemma {:induction false} AgreementOverRuns(config: DaemonConfig, dirs: set<string>, pid: string, run: seq<Label>)
    requires WellFormed(config)
    ensures Consistent(Exec(Startup(config, dirs, pid), run))
  {
    if run == [] {
      BuildTargetsAgrees(config.targets);
    } else {
      AgreementOverRuns(config, dirs, pid, run[..|run| - 1]);
      StepKeepsConsistency(Exec(Startup(config, dirs, pid), run[..|run| - 1]), run[|run| - 1]);
    }
  }

  /**
   The mutation protocol, spelled out.  No step panics; with the lock free the file
   is the configuration; while an operation is under way the file is the
   configuration it found or its candidate; and what a commit installs is the
   operation applied to the configuration of that very moment, so no other task's
   update is lost.
   */
  lemma MutationProtocol(config: DaemonConfig, dirs: set<string>, pid: string, run: seq<Label>)
    requires WellFormed(config)
    ensures var s := Exec(Startup(config, dirs, pid), run);
            && !s.mutation.Crashed?
            && Agree(s.config.targets, s.targets)
            && (s.mutation.Unlocked? ==> s.disk == s.config)
            && (s.mutation.Holding? ==>
                  s.disk == s.mutation.before.config || s.disk == EditedConfig(s.mutation.before.config, s.mutation.op))
            && (s.mutation.Holding? && s.mutation.phase.Persisted? ==>
                  var t := CommitCandidate(s);
                  && t.config == t.disk == EditedConfig(s.config, s.mutation.op)
                  && t.targets.Keys == EditedKeys(s.targets.Keys, s.mutation.op))
  {
    hide Exec, Step, Agree, WellFormed, Accountable, EditedConfig, IndexOf, CommitCandidate;
    AgreementOverRuns(config, dirs, pid, run);
    var s := Exec(Startup(config, dirs, pid), run);
    if s.mutation.Holding? && s.mutation.phase.Persisted? {
      CandidateAtCommit(s);
      CommitEffect(s);
    }
  }

  /** Restarting from the file at any moment rebuilds one target per persisted entry, stopped if it is disabled. */
  lemma RestartRebuilds(config: DaemonConfig, dirs: set<string>, pid: string, run: seq<Label>)
    requires WellFormed(config)
    ensures var file := Exec(Startup(config, dirs, pid), run).disk;
            var rebuilt := BuildTargets(file.targets);
            && WellFormed(file)
            && |rebuilt| == |file.targets|
            && forall c | c in file.targets :: c.name in rebuilt && Fresh(c, rebuilt[c.name])
  {
    AgreementOverRuns(config, dirs, pid, run);
    var list := Exec(Startup(config, dirs, pid), run).disk.targets;
    BuildTargetsAgrees(list);
    BuildTargetsFresh(list);
  }

  // ---- What finished operations leave behind ----

  lemma StepKeepsPid(s: Daemon, l: Label)
    ensures Step(s, l).pid == s.pid
  {
  }

  lemma {:induction false} RunKeepsPid(s: Daemon, run: seq<Label>)
    ensures Exec(s, run).pid == s.pid
  {
    hide Step;
    if run != [] {
      RunKeepsPid(s, run[..|run| - 1]);
      StepKeepsPid(Exec(s, run[..|run| - 1]), run[|run| - 1]);
    }
  }

  /** A removal finds a parked directory of its own name but no target directory. */
  predicate Stale(op: Operation, pid: string, dirs: set<string>) {
    op.Remove? && op.name !in dirs && Parked(op.name, pid) in dirs
  }

  /**
   Rollback: an operation that ends before its commit leaves the target set, the
   configuration and the file as they were, and, when the tidying call succeeded,
   the target directories too, except for exactly one family: a removal rolled
   back over a stale parked directory puts that directory back as the target's.
   */
  lemma Rollback(o: Outcome, pid: string)
    requires Accountable(o, pid) && !o.ending.Completed?
    ensures o.after.keys == o.before.keys && o.after.config == o.before.config && o.after.disk == o.before.disk
    ensures o.ending == Refused(true) ==> o.after.dirs == o.before.dirs
    ensures o.ending == RolledBack(true) ==>
              (TargetDirs(o.after.dirs) == TargetDirs(o.before.dirs) <==> !Stale(o.op, pid, o.before.dirs))
  {
    if o.ending == RolledBack(true) {
      if o.op.Remove? {
        ParkedIsNoTarget(o.op.name, pid);
        if Stale(o.op, pid, o.before.dirs) {
          assert o.op.name in TargetDirs(o.after.dirs);
        }
      } else {
        assert o.after.dirs == o.before.dirs;
      }
    }
  }

  /** On success the target directories change exactly as the target set does. */
  lemma DirectoriesFollowTargets(o: Outcome, pid: string)
    requires Accountable(o, pid) && o.ending.Completed?
    ensures o.after.disk == o.after.config == EditedConfig(o.before.config, o.op)
    ensures o.after.keys == EditedKeys(o.before.keys, o.op)
    ensures TargetDirs(o.after.dirs) == TargetDirs(EditedKeys(o.before.dirs, o.op))
  {
    if o.op.Remove? {
      ParkedIsNoTarget(o.op.name, pid);
    }
  }

  /** The family the rollback law leaves out is real: the failed removal makes a directory the target did not have. */
  lemma StaleDirectoryComesBack(s: Daemon, name: string)
    requires s.mutation.Unlocked? && name in s.targets && Stale(Remove(name), s.pid, s.dirs)
    ensures var moved := Step(Step(s, BeginRemove(name)), MoveDirectory(true, true));
            var t := Step(Step(moved, BuildCandidate), Persist(false, true));
            t.mutation.Unlocked? && t.dirs == s.dirs - {Parked(name, s.pid)} + {name} && t.targets == s.targets
  {
  }

  /** Both laws hold of every operation that ever finishes, in every run. */
  lemma EveryOutcomeIsLawful(config: DaemonConfig, dirs: set<string>, pid: string, run: seq<Label>, o: Outcome)
    requires WellFormed(config) && o in Exec(Startup(config, dirs, pid), run).outcomes
    ensures !o.ending.Completed? ==>
              o.after.keys == o.before.keys && o.after.config == o.before.config && o.after.disk == o.before.disk
    ensures o.ending == Refused(true) ==> o.after.dirs == o.before.dirs
    ensures o.ending == RolledBack(true) ==>
              (TargetDirs(o.after.dirs) == TargetDirs(o.before.dirs) <==> !Stale(o.op, pid, o.before.dirs))
    ensures o.ending.Completed? ==>
              && o.after.disk == o.after.config == EditedConfig(o.before.config, o.op)
              && o.after.keys == EditedKeys(o.before.keys, o.op)
              && TargetDirs(o.after.dirs) == TargetDirs(EditedKeys(o.before.dirs, o.op))
  {
    hide Exec, Step, Agree, WellFormed, Progress, Accountable, Stale, TargetDirs, EditedConfig;
    AgreementOverRuns(config, dirs, pid, run);
    RunKeepsPid(Startup(config, dirs, pid), run);
    if o.ending.Completed? { DirectoriesFollowTargets(o, pid); } else { Rollback(o, pid); }
  }
}
