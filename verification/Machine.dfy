/**
 The daemon as a state machine.  Every label is one atomic step of the source:
 a critical section under the state lock, one file system action of the holder
 of the mutation lock, or the sending of an event.  A label that is not
 enabled leaves the state alone, so every sequence of labels is a run.
 (crates/mpv-targetsd/src/supervisor.rs)
 */
module Machine {
  import opened Wrappers
  import opened Json
  import opened Protocol
  import opened Fields
  import opened Config
  import opened Ordering
  import opened HealthReport
  import opened Runtime
  import Names

  /** A broadcast event.  The incarnation is auxiliary: it says which target a change was about. */
  datatype Sent = Sent(event: Event, incarnation: nat)

  /** The operations that edit the target list under the mutation lock. */
  datatype Operation =
    | Add(target: TargetConfig)
    | Remove(name: string)
    | Rename(name: string, replacement: string)

  /** Where the holder of the mutation lock is. */
  datatype Phase =
    | Checked
    | Moved
    | Prepared(candidate: DaemonConfig)
    | Persisted(candidate: DaemonConfig)
    | Committed

  /** What `add`, `remove` and `rename` must leave alone when they fail. */
  datatype Mark = Mark(config: DaemonConfig, disk: DaemonConfig, keys: set<string>, dirs: set<string>)

  /** The mutation lock, together with the local state of its holder. */
  datatype Mutation = Unlocked | Holding(op: Operation, phase: Phase, before: Mark) | Crashed

  /**
   How an operation ended: before anything was persisted, after a failed
   persist, or after its commit.  The flag says whether the file system call
   that tidies up succeeded.
   */
  datatype Ending = Refused(tidy: bool) | RolledBack(restored: bool) | Completed(cleaned: bool)

  datatype Outcome = Outcome(op: Operation, ending: Ending, before: Mark, after: Mark)

  /**
   The shared state.  `history`, `flights` and `outcomes` are auxiliary: the
   records every incarnation went through, the launches under way, and the
   finished list operations.
   */
  datatype Daemon = Daemon(
    config: DaemonConfig,
    targets: map<string, RuntimeTarget>,
    disk: DaemonConfig,
    dirs: set<string>,
    pid: string,
    mutation: Mutation,
    log: seq<Sent>,
    unsent: seq<Sent>,
    history: seq<seq<TargetRecord>>,
    flights: multiset<string>,
    outcomes: seq<Outcome>)

  /** The edits of one configuration entry that go through `persist_target_change`. */
  datatype ConfigChange = SetDisabled(disabled: bool) | SetChannel(channel: Option<string>)

  datatype Label =
    | Run(name: string, section: Section, prompt: bool)    // a section; `prompt`: its event is sent at once
    | Attach(name: string)                                 // startup finds the socket live: mark_online
    | LaunchSucceeded(name: string)                        // a launch under way ends in mark_online
    | LaunchFailed(name: string)                           // a launch under way ends in clear_launching
    | Change(name: string, change: ConfigChange, written: bool)
    | BeginAdd(name: string, from: Option<string>, enable: bool)
    | BeginRemove(name: string)
    | BeginRename(name: string, replacement: string)
    | AbortRemove                                          // the stop inside remove failed
    | MoveDirectory(done: bool, tidy: bool)
    | BuildCandidate
    | Persist(written: bool, restored: bool)
    | Commit
    | Finish(cleaned: bool)
    | Send(k: nat)                                         // an event computed earlier goes out

  // ---- The snapshot ----

  function RecordsIn(keys: seq<string>, targets: map<string, RuntimeTarget>): seq<TargetRecord>
    requires forall k | k in keys :: k in targets
  {
    seq(|keys|, i requires 0 <= i < |keys| => RecordOf(keys[i], targets[keys[i]]))
  }

  /** The records in the order the sorted map iterates. */
  function Records(targets: map<string, RuntimeTarget>): seq<TargetRecord> {
    RecordsIn(SortedKeys(targets.Keys), targets)
  }

  function SnapshotFrom(nodeId: string, targets: map<string, RuntimeTarget>): Snapshot {
    Snapshot(PROTOCOL_VERSION, nodeId, HealthOf(Records(targets)), Records(targets))
  }

  function SnapshotOf(s: Daemon): Snapshot { SnapshotFrom(s.config.node.id, s.targets) }

  // ---- Edits of one target ----

  function Grown(history: seq<seq<TargetRecord>>, incarnation: nat, r: TargetRecord): seq<seq<TargetRecord>> {
    if incarnation < |history| then history[incarnation := history[incarnation] + [r]] else history
  }

  function ChangeEvent(name: string, t: RuntimeTarget, changes: Changes): Sent {
    Sent(TargetChanged(name, t.revision, ToObject(changes)), t.incarnation)
  }

  function Announce(s: Daemon, name: string, t: RuntimeTarget, changes: Changes, atOnce: bool): Daemon {
    var sent := ChangeEvent(name, t, changes);
    s.(targets := s.targets[name := t],
       history := Grown(s.history, t.incarnation, RecordOf(name, t)),
       log := if atOnce then s.log + [sent] else s.log,
       unsent := if atOnce then s.unsent else s.unsent + [sent])
  }

  function EditTarget(s: Daemon, name: string, section: Section, prompt: bool): Daemon {
    if name !in s.targets then s
    else
      match EditOf(section, s.targets[name])
      case Untouched => s
      case Silent(t) => s.(targets := s.targets[name := t])
      case Announced(t, changes) => Announce(s, name, t, changes, prompt || !SendsAfterUnlock(section))
  }

  /** `start` decides to launch. */
  predicate ClaimsLaunch(s: Daemon, name: string) {
    name in s.targets && !s.targets[name].config.disabled && !s.targets[name].online && !s.targets[name].launching
  }

  function RunSection(s: Daemon, name: string, section: Section, prompt: bool): Daemon {
    var edited := EditTarget(s, name, section, prompt);
    if section.Start? && ClaimsLaunch(s, name) then edited.(flights := s.flights + multiset{name}) else edited
  }

  function EndLaunch(s: Daemon, name: string, section: Section): Daemon {
    if name !in s.flights then s
    else EditTarget(s.(flights := s.flights - multiset{name}), name, section, true)
  }

  // ---- One configuration entry ----

  /** The index of the first entry with this name, or the length of the list. */
  function IndexOf(targets: seq<TargetConfig>, name: string): (i: nat)
    ensures i <= |targets|
    ensures i < |targets| ==> targets[i].name == name
    ensures forall j | 0 <= j < i :: targets[j].name != name
  {
    var names := seq(|targets|, i requires 0 <= i < |targets| => targets[i].name);
    assert forall j | 0 <= j < |targets| :: names[j] == targets[j].name;
    Names.Position(names, name)
  }

  function Changed(t: TargetConfig, change: ConfigChange): TargetConfig {
    match change
    case SetDisabled(disabled) => t.(disabled := disabled)
    case SetChannel(channel) => t.(channel := channel)
  }

  function ChangeFields(change: ConfigChange): Changes {
    match change
    case SetDisabled(disabled) => map[Field.Disabled := Bool(disabled)]
    case SetChannel(channel) => map[Field.Channel := OptionalStr(channel)]
  }

  function ChangeEntry(s: Daemon, name: string, change: ConfigChange, written: bool): Daemon {
    var i := IndexOf(s.config.targets, name);
    if !s.mutation.Unlocked? || i == |s.config.targets| then s
    else if Changed(s.config.targets[i], change) == s.config.targets[i] then s
    else
      var entry := Changed(s.config.targets[i], change);
      var candidate := s.config.(targets := s.config.targets[i := entry]);
      if !WellFormed(candidate) || !written then s
      else if name !in s.targets then s.(config := candidate, disk := candidate, mutation := Crashed)
      else Announce(s.(config := candidate, disk := candidate), name,
                    Bump(s.targets[name].(config := entry)), ChangeFields(change), true)
  }

  // ---- The target list, under the mutation lock ----

  function Without(targets: seq<TargetConfig>, name: string): seq<TargetConfig> {
    if targets == [] then []
    else (if targets[0].name == name then [] else [targets[0]]) + Without(targets[1..], name)
  }

  function EditedList(targets: seq<TargetConfig>, op: Operation): seq<TargetConfig> {
    match op
    case Add(target) => targets + [target]
    case Remove(name) => Without(targets, name)
    case Rename(name, replacement) =>
      var i := IndexOf(targets, name);
      if i == |targets| then targets else targets[i := targets[i].(name := replacement)]
  }

  function EditedConfig(config: DaemonConfig, op: Operation): DaemonConfig {
    config.(targets := EditedList(config.targets, op))
  }

  function MarkOf(s: Daemon): Mark { Mark(s.config, s.disk, s.targets.Keys, s.dirs) }

  function Begin(s: Daemon, op: Operation): Daemon { s.(mutation := Holding(op, Checked, MarkOf(s))) }

  function End(s: Daemon, ending: Ending): Daemon
    requires s.mutation.Holding?
  {
    s.(mutation := Unlocked,
       outcomes := s.outcomes + [Outcome(s.mutation.op, ending, s.mutation.before, MarkOf(s))])
  }

  function StartAdd(s: Daemon, name: string, from: Option<string>, enable: bool): Daemon {
    if !s.mutation.Unlocked? || name in s.targets || (from.Some? && from.value !in s.targets) then s
    else
      var channel := if from.Some? then s.targets[from.value].config.channel else None;
      Begin(s, Add(TargetConfig(name, !enable, channel)))
  }

  function StartRename(s: Daemon, name: string, replacement: string): Daemon {
    if !s.mutation.Unlocked? || name !in s.targets || replacement in s.targets || !s.targets[name].stopped then s
    else Begin(s, Rename(name, replacement))
  }

  /** The directory a removal parks the target's directory under. */
  function Parked(name: string, pid: string): string { ".remove-" + name + "-" + pid }

  function MoveDirs(s: Daemon, done: bool, tidy: bool): Daemon
    requires s.mutation.Holding?
  {
    var moved := s.(mutation := s.mutation.(phase := Moved));
    match s.mutation.op
    case Add(target) =>
      if target.name in s.dirs then End(s, Refused(true))
      else if done then moved.(dirs := s.dirs + {target.name})
      else if tidy then End(s, Refused(true))
      else End(s.(dirs := s.dirs + {target.name}), Refused(false))
    case Remove(name) =>
      if name !in s.dirs then moved
      else if done then moved.(dirs := s.dirs - {name} + {Parked(name, s.pid)})
      else End(s, Refused(true))
    case Rename(name, replacement) =>
      if replacement in s.dirs || name !in s.dirs || !done then End(s, Refused(true))
      else moved.(dirs := s.dirs - {name} + {replacement})
  }

  /** A rename whose entry is not in the list gives up without moving the directory back. */
  function Build(s: Daemon): Daemon
    requires s.mutation.Holding?
  {
    var op := s.mutation.op;
    if op.Rename? && IndexOf(s.config.targets, op.name) == |s.config.targets| then End(s, Refused(false))
    else s.(mutation := s.mutation.(phase := Prepared(EditedConfig(s.config, op))))
  }

  function RestoredDirs(op: Operation, pid: string, dirs: set<string>): set<string> {
    match op
    case Add(target) => dirs - {target.name}
    case Remove(name) => if Parked(name, pid) in dirs then dirs - {Parked(name, pid)} + {name} else dirs
    case Rename(name, replacement) => dirs - {replacement} + {name}
  }

  function PersistCandidate(s: Daemon, written: bool, restored: bool): Daemon
    requires s.mutation.Holding? && s.mutation.phase.Prepared?
  {
    var candidate := s.mutation.phase.candidate;
    if WellFormed(candidate) && written then
      s.(disk := candidate, mutation := s.mutation.(phase := Persisted(candidate)))
    else if restored then End(s.(dirs := RestoredDirs(s.mutation.op, s.pid, s.dirs)), RolledBack(true))
    else End(s, RolledBack(RestoredDirs(s.mutation.op, s.pid, s.dirs) == s.dirs))
  }

  function Relisted(s: Daemon, candidate: DaemonConfig, targets: map<string, RuntimeTarget>): Daemon
    requires s.mutation.Holding?
  {
    s.(config := candidate, targets := targets, mutation := s.mutation.(phase := Committed),
       log := s.log + [Sent(SnapshotTaken(SnapshotFrom(candidate.node.id, targets)), 0)])
  }

  /** The runtime map with one target added, removed, or moved to its new name. */
  function RelistedTargets(op: Operation, targets: map<string, RuntimeTarget>, births: nat): map<string, RuntimeTarget>
    requires op.Rename? ==> op.name in targets
  {
    match op
    case Add(target) => targets[target.name := NewTarget(target, true, births)]
    case Remove(name) => targets - {name}
    case Rename(name, replacement) =>
      var t := targets[name];
      (targets - {name})[replacement := Bump(t.(config := t.config.(name := replacement)))]
  }

  function RelistedHistory(
      op: Operation, targets: map<string, RuntimeTarget>, history: seq<seq<TargetRecord>>): seq<seq<TargetRecord>>
    requires op.Rename? ==> op.name in targets
  {
    match op
    case Add(target) => history + [[RecordOf(target.name, NewTarget(target, true, |history|))]]
    case Remove(_) => history
    case Rename(name, replacement) =>
      var t := targets[name];
      Grown(history, t.incarnation, RecordOf(replacement, Bump(t.(config := t.config.(name := replacement)))))
  }

  /** A rename looks its target up a second time; finding nothing there would be a panic. */
  function CommitCandidate(s: Daemon): Daemon
    requires s.mutation.Holding? && s.mutation.phase.Persisted?
  {
    var op, candidate := s.mutation.op, s.mutation.phase.candidate;
    if op.Rename? && op.name !in s.targets then s.(config := candidate, mutation := Crashed)
    else
      Relisted(s, candidate, RelistedTargets(op, s.targets, |s.history|))
        .(history := RelistedHistory(op, s.targets, s.history))
  }

  function CleanUp(s: Daemon, cleaned: bool): Daemon
    requires s.mutation.Holding?
  {
    var op := s.mutation.op;
    if !op.Remove? || Parked(op.name, s.pid) !in s.dirs then End(s, Completed(true))
    else if cleaned then End(s.(dirs := s.dirs - {Parked(op.name, s.pid)}), Completed(true))
    else End(s, Completed(false))
  }

  // ---- Steps and runs ----

  predicate In(s: Daemon, phase: Phase) { s.mutation.Holding? && s.mutation.phase == phase }

  function SendLate(s: Daemon, k: nat): Daemon {
    if k < |s.unsent| then s.(log := s.log + [s.unsent[k]], unsent := s.unsent[..k] + s.unsent[k + 1..]) else s
  }

  /** The steps of the holder of the mutation lock. */
  function Proceed(s: Daemon, l: Label): Daemon {
    match l
    case AbortRemove => if In(s, Checked) && s.mutation.op.Remove? then End(s, Refused(true)) else s
    case MoveDirectory(done, tidy) => if In(s, Checked) then MoveDirs(s, done, tidy) else s
    case BuildCandidate => if In(s, Moved) then Build(s) else s
    case Persist(written, restored) =>
      if s.mutation.Holding? && s.mutation.phase.Prepared? then PersistCandidate(s, written, restored) else s
    case Finish(cleaned) => if In(s, Committed) then CleanUp(s, cleaned) else s
    case _ => s
  }

  function TakeCommit(s: Daemon): Daemon {
    if s.mutation.Holding? && s.mutation.phase.Persisted? then CommitCandidate(s) else s
  }

  /** The launch-ending sections happen only at the end of a launch or at startup. */
  function RunLabel(s: Daemon, name: string, section: Section, prompt: bool): Daemon {
    if section.MarkOnline? || section.ClearLaunching? then s else RunSection(s, name, section, prompt)
  }

  function StartRemove(s: Daemon, name: string): Daemon {
    if !s.mutation.Unlocked? || name !in s.targets then s else Begin(s, Remove(name))
  }

  function Step(s: Daemon, l: Label): Daemon {
    match l
    case Run(name, section, prompt) => RunLabel(s, name, section, prompt)
    case Attach(name) => EditTarget(s, name, MarkOnline, true)
    case LaunchSucceeded(name) => EndLaunch(s, name, MarkOnline)
    case LaunchFailed(name) => EndLaunch(s, name, ClearLaunching)
    case Change(name, change, written) => ChangeEntry(s, name, change, written)
    case BeginAdd(name, from, enable) => StartAdd(s, name, from, enable)
    case BeginRemove(name) => StartRemove(s, name)
    case BeginRename(name, replacement) => StartRename(s, name, replacement)
    case Commit => TakeCommit(s)
    case Send(k) => SendLate(s, k)
    case _ => Proceed(s, l)
  }

  function Exec(s: Daemon, run: seq<Label>): Daemon {
    if run == [] then s else Step(Exec(s, run[..|run| - 1]), run[|run| - 1])
  }

  // ---- Startup ----

  /** `Supervisor::new`: the runtime map collected from the list, a later duplicate replacing an earlier one. */
  function BuildTargets(targets: seq<TargetConfig>): map<string, RuntimeTarget> {
    if targets == [] then map[]
    else
      var last := targets[|targets| - 1];
      BuildTargets(targets[..|targets| - 1])[last.name := NewTarget(last, last.disabled, |targets| - 1)]
  }

  function Startup(config: DaemonConfig, dirs: set<string>, pid: string): Daemon {
    var history := seq(|config.targets|, i requires 0 <= i < |config.targets| =>
      [RecordOf(config.targets[i].name, NewTarget(config.targets[i], config.targets[i].disabled, i))]);
    Daemon(config, BuildTargets(config.targets), config, dirs, pid, Unlocked, [], [], history, multiset{}, [])
  }
}
