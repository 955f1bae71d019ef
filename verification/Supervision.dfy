/**
 The supervisor object, its methods run one at a time.  The methods change the
 fields in place as the source does; the ghost field `run` records the steps of
 the state machine they amount to, so every theorem about runs holds of the object.
 (crates/mpv-targetsd/src/supervisor.rs)
 */
module Supervision {
  import opened Wrappers
  import opened Json
  import opened Protocol
  import opened Fields
  import opened Observed
  import opened Config
  import opened Runtime
  import opened Machine
  import opened Agreement
  import opened Receiver
  import opened Replica
  import opened Backoff
  import opened ListEdits

  datatype SupervisorError =
    | NoSuchTarget(name: string)
    | TargetDisabled
    | TargetAlreadyStopped
    | RenameRequiresStopped
    | IpcUnavailable
    | LaunchFailure
    | ConfigFailure
    | Rejected
    | TargetExists(name: string)

  /** The map with one target edited by a section. */
  function Edited(targets: map<string, RuntimeTarget>, name: string, section: Section): map<string, RuntimeTarget> {
    if name in targets && !EditOf(section, targets[name]).Untouched?
    then targets[name := EditOf(section, targets[name]).t]
    else targets
  }

  /** The broadcast with the event a section sends, if it announces anything. */
  function LogAfter(log: seq<Sent>, targets: map<string, RuntimeTarget>, name: string, section: Section): seq<Sent> {
    if name in targets && EditOf(section, targets[name]).Announced?
    then log + [ChangeEvent(name, EditOf(section, targets[name]).t, EditOf(section, targets[name]).changes)]
    else log
  }

  // Which edit a section makes, one section at a time.

  lemma StartEditOf(t: RuntimeTarget)
    ensures EditOf(Section.Start, t) == StartEdit(t)
  {
  }

  lemma StopEditOf(t: RuntimeTarget)
    ensures EditOf(Section.Stop, t) == StopEdit(t)
  {
  }

  lemma OnlineEditOf(t: RuntimeTarget)
    ensures EditOf(MarkOnline, t) == OnlineEdit(t)
  {
  }

  lemma OfflineEditOf(section: Section, t: RuntimeTarget)
    requires section.MarkOffline? || section.TargetLost?
    ensures EditOf(section, t) == OfflineEdit(t)
  {
  }

  lemma LaunchingEditOf(t: RuntimeTarget)
    ensures EditOf(ClearLaunching, t) == Silent(t.(launching := false))
  {
  }

  lemma RecoveryEditOf(begin: bool, t: RuntimeTarget)
    ensures EditOf(if begin then BeginRecovery else CheckRecovery, t) == RecoveryEdit(t, begin)
  {
  }

  lemma ClearEditOf(t: RuntimeTarget)
    ensures EditOf(ClearObserved, t) == ClearEdit(t)
  {
  }

  lemma MediaEditOf(reason: Option<MediaEndReason>, error: Option<string>, t: RuntimeTarget)
    requires reason.None? ==> error.None?
    ensures EditOf(if reason.Some? then MediaEnd(reason.value, error) else ClearMediaEnd, t)
            == MediaEndEdit(t, reason, error)
  {
  }

  lemma ObserveEditOf(field: Field, raw: Json, t: RuntimeTarget)
    ensures EditOf(Observe(field, raw), t) == ObserveEdit(t, field, raw)
  {
  }

  /** The states a run goes through. */
  ghost predicate Path(trail: seq<Daemon>, run: seq<Label>) {
    |trail| == |run| + 1 && forall i | 0 <= i < |run| :: trail[i + 1] == Step(trail[i], run[i])
  }

  lemma {:induction false} PathIsExec(trail: seq<Daemon>, run: seq<Label>)
    requires Path(trail, run)
    ensures trail[|run|] == Exec(trail[0], run)
  {
    if run != [] {
      PathIsExec(trail[..|run|], run[..|run| - 1]);
    }
  }

  lemma PathAppend(trail: seq<Daemon>, run: seq<Label>, l: Label)
    requires Path(trail, run)
    ensures Path(trail + [Step(trail[|run|], l)], run + [l])
  {
  }

  lemma PromptKeepsUnsent(s: Daemon, l: Label)
    requires Prompt(l) && s.unsent == []
    ensures Step(s, l).unsent == []
  {
  }

  /** What a section does to the machine, field by field. */
  lemma EditEffect(s: Daemon, name: string, section: Section)
    ensures var t := EditTarget(s, name, section, true);
            && t.targets == Edited(s.targets, name, section)
            && t.log == LogAfter(s.log, s.targets, name, section)
            && t.config == s.config && t.disk == s.disk && t.dirs == s.dirs && t.mutation == s.mutation
            && t.unsent == s.unsent && |t.history| == |s.history| && t.flights == s.flights && t.outcomes == s.outcomes
  {
    hide EditOf;
  }

  lemma EntryKnown(s: Daemon, name: string)
    requires Consistent(s)
    ensures name in s.targets <==> IndexOf(s.config.targets, name) < |s.config.targets|
    ensures name in s.targets ==> s.config.targets[IndexOf(s.config.targets, name)] == s.targets[name].config
    ensures s.mutation.Unlocked? ==> s.disk == s.config
    ensures WellFormed(s.config)
  {
    IndexOfMember(s.config.targets, s.targets, name);
  }

  /** What a configuration change does to the machine, field by field. */
  lemma EntryEffect(s: Daemon, name: string, change: ConfigChange)
    requires s.mutation.Unlocked? && name in s.targets
    requires IndexOf(s.config.targets, name) < |s.config.targets|
    requires var i := IndexOf(s.config.targets, name);
             var entry := Changed(s.config.targets[i], change);
             entry != s.config.targets[i] && WellFormed(s.config.(targets := s.config.targets[i := entry]))
    ensures var i := IndexOf(s.config.targets, name);
            var entry := Changed(s.config.targets[i], change);
            var t, u := ChangeEntry(s, name, change, true), Bump(s.targets[name].(config := entry));
            && t.config == t.disk == s.config.(targets := s.config.targets[i := entry])
            && t.targets == s.targets[name := u]
            && t.log == s.log + [ChangeEvent(name, u, ChangeFields(change))]
            && t.dirs == s.dirs && t.mutation == s.mutation && t.flights == s.flights && |t.history| == |s.history|
  {
  }

  /** Parking, restoring and deleting a directory, as far as target directories go. */
  lemma ParkingIsInvisible(name: string, pid: string, dirs: set<string>)
    ensures var moved := MovedDirs(Remove(name), pid, dirs);
            && TargetDirs(moved) == TargetDirs(dirs) - {name}
            && TargetDirs(moved - {Parked(name, pid)}) == TargetDirs(dirs) - {name}
            && (!Stale(Remove(name), pid, dirs) ==>
                  TargetDirs(RestoredDirs(Remove(name), pid, moved)) == TargetDirs(dirs))
  {
    ParkedIsNoTarget(name, pid);
  }

  /** No launch is under way, and a disabled target is stopped. */
  ghost predicate Calm(targets: map<string, RuntimeTarget>) {
    forall n | n in targets :: CalmTarget(targets[n])
  }

  ghost predicate CalmTarget(t: RuntimeTarget) { !t.launching && (t.config.disabled ==> t.stopped) }

  /** Editing one target calmly keeps the whole map calm. */
  lemma CalmEdit(before: map<string, RuntimeTarget>, after: map<string, RuntimeTarget>, name: string)
    requires Calm(before) && (name in after ==> CalmTarget(after[name]))
    requires forall n | n in after && n != name :: n in before && after[n] == before[n]
    ensures Calm(after)
  {
  }

  /** A section edits its own target and no other. */
  lemma EditedFrame(targets: map<string, RuntimeTarget>, name: string, section: Section)
    ensures var edited := Edited(targets, name, section);
            && edited.Keys == targets.Keys
            && (name in targets ==> edited[name] == TargetAfter(section, targets[name]))
            && forall n | n in targets && n != name :: edited[n] == targets[n]
  {
    hide EditOf;
  }

  lemma LogAfterGrows(log: seq<Sent>, targets: map<string, RuntimeTarget>, name: string, section: Section)
    ensures log <= LogAfter(log, targets, name, section)
  {
    hide EditOf;
  }

  /** What an observed message does to a target. */
  lemma ObserveEffect(field: Field, raw: Json, t: RuntimeTarget)
    requires IsObserved(field)
    ensures var u := TargetAfter(Observe(field, raw), t);
            var stored := ApplyObserved(t.observed, field, Normalize(field, raw));
            u == t.(observed := if stored.Some? then stored.value else t.observed,
                    revision := t.revision + if u.observed != t.observed then 1 else 0)
  {
    hide Normalize, Assign, IsObserved;
    ObserveEditOf(field, raw, t);
  }

  lemma MediaEffect(reason: Option<MediaEndReason>, error: Option<string>, t: RuntimeTarget)
    requires reason.None? ==> error.None?
    ensures var u := TargetAfter(if reason.Some? then MediaEnd(reason.value, error) else ClearMediaEnd, t);
            u == t.(observed := t.observed.(lastEndReason := reason, lastEndError := error),
                    revision := t.revision + if u.observed != t.observed then 1 else 0)
  {
    hide EndChanges;
    MediaEditOf(reason, error, t);
  }

  /** What claiming a launch does to a target, and how the launch can end. */
  lemma StartEffect(t: RuntimeTarget)
    requires !t.config.disabled && !t.launching
    ensures var u := TargetAfter(Section.Start, t);
            && u == t.(stopped := false, launching := !t.online, revision := t.revision + if t.stopped then 1 else 0)
            && (!t.online ==>
                  TargetAfter(MarkOnline, u)
                  == t.(stopped := false, online := true, recovering := false, revision := u.revision + 1))
            && (!t.online ==>
                  TargetAfter(ClearLaunching, u) == t.(stopped := false, revision := u.revision))
  {
  }

  lemma DelaySteps()
    ensures NthDelay(0) == 1 && forall n: nat :: NextDelay(NthDelay(n)) == NthDelay(n + 1)
  {
  }

  lemma RecoveryEffect(begin: bool, t: RuntimeTarget)
    ensures TargetAfter(if begin then BeginRecovery else CheckRecovery, t)
            == t.(recovering := if begin then t.recovering || IsWanted(t) else t.recovering && IsWanted(t))
  {
  }

  /** What the sections of `stop` do to a running target, after the first and after the last of them. */
  lemma StopEffect(t: RuntimeTarget)
    requires !t.stopped && !t.launching
    ensures TargetAfter(Section.Stop, t) == t.(stopped := true, revision := t.revision + 1)
    ensures TargetAfter(MarkOffline, TargetAfter(ClearObserved, TargetAfter(Section.Stop, t)))
            == t.(stopped := true, online := false, observed := DEFAULT_STATE,
                  revision := t.revision + 1 + Cleared(t) + if t.online then 1 else 0)
  {
    hide ClearChanges;
  }

  /** Clearing an observed state takes a revision unless there is nothing to clear. */
  function Cleared(t: RuntimeTarget): nat { if t.observed != DEFAULT_STATE then 1 else 0 }

  lemma SwitchOffEffect(t: RuntimeTarget)
    ensures TargetAfter(DisabledOff, TargetAfter(ClearObserved, t))
            == t.(stopped := true, online := false, launching := false, recovering := false, observed := DEFAULT_STATE,
                  revision := t.revision + Cleared(t) + if !t.stopped || t.online then 1 else 0)
  {
    hide ClearChanges;
  }

  lemma LostEffect(t: RuntimeTarget)
    ensures TargetAfter(ClearObserved, TargetAfter(TargetLost, t))
            == if t.online
               then t.(online := false, launching := false, observed := DEFAULT_STATE,
                       revision := t.revision + 1 + Cleared(t))
               else t.(observed := DEFAULT_STATE, revision := t.revision + Cleared(t))
    ensures TargetAfter(TargetLost, t)
            == if t.online then t.(online := false, launching := false, revision := t.revision + 1) else t
  {
    hide ClearChanges;
  }

  lemma NothingLost(log: seq<Sent>, targets: map<string, RuntimeTarget>, name: string)
    requires name !in targets || !targets[name].online
    ensures Edited(targets, name, TargetLost) == targets && LogAfter(log, targets, name, TargetLost) == log
  {
  }

  lemma OnlineEffect(t: RuntimeTarget)
    ensures TargetAfter(MarkOnline, t)
            == if t.online then t
               else t.(online := true, launching := false, recovering := false, revision := t.revision + 1)
  {
  }

  /** What the candidate's phases do to the machine, field by field. */
  lemma BuildEffect(s: Daemon)
    requires s.mutation.Holding?
    requires s.mutation.op.Rename? ==> IndexOf(s.config.targets, s.mutation.op.name) < |s.config.targets|
    ensures Build(s) == s.(mutation := s.mutation.(phase := Prepared(EditedConfig(s.config, s.mutation.op))))
  {
  }

  lemma PersistEffect(s: Daemon, written: bool, restored: bool)
    requires s.mutation.Holding? && s.mutation.phase.Prepared?
    ensures var t, kept := PersistCandidate(s, written, restored), WellFormed(s.mutation.phase.candidate) && written;
            && t.config == s.config && t.targets == s.targets && t.log == s.log && |t.history| == |s.history|
            && t.flights == s.flights
            && t.disk == (if kept then s.mutation.phase.candidate else s.disk)
            && t.dirs == (if !kept && restored then RestoredDirs(s.mutation.op, s.pid, s.dirs) else s.dirs)
            && t.mutation == (if kept then s.mutation.(phase := Persisted(s.mutation.phase.candidate)) else Unlocked)
  {
    hide RestoredDirs, WellFormed;
  }

  /** Switching a target off flag by flag, collecting the object of changed flags on the way. */
  method SwitchOff(t: RuntimeTarget) returns (off: RuntimeTarget, changed: Changes)
    ensures changed == map[] <==> !EditOf(DisabledOff, t).Announced?
    ensures changed != map[] ==> EditOf(DisabledOff, t).changes == changed
    ensures off == TargetAfter(DisabledOff, t)
  {
    off, changed := t, map[];
    if !off.stopped {
      off := off.(stopped := true);
      changed := changed[Stopped := Bool(true)];
      assert Stopped in changed;
    }
    if off.online {
      off := off.(online := false);
      changed := changed[Online := Bool(false)];
      assert Online in changed;
    }
    off := off.(launching := false, recovering := false);
    if changed != map[] {
      off := off.(revision := off.revision + 1);
    }
  }

  class Supervisor {
    var config: DaemonConfig
    var targets: map<string, RuntimeTarget>
    var disk: DaemonConfig
    var dirs: set<string>
    var events: seq<Sent>
    var births: nat
    const pid: string

    ghost const initial: DaemonConfig
    ghost const initialDirs: set<string>
    ghost var run: seq<Label>
    ghost var trail: seq<Daemon>
    ghost var mutation: Mutation
    ghost var history: seq<seq<TargetRecord>>
    ghost var flights: multiset<string>
    ghost var outcomes: seq<Outcome>
    ghost var launches: seq<string>

    /** The machine state this object is in. */
    ghost function State(): Daemon
      reads this
    {
      Daemon(config, targets, disk, dirs, pid, mutation, events, [], history, flights, outcomes)
    }

    /** The object is where its recorded run leads. */
    ghost predicate Tracks()
      reads this
    {
      && trail != [] && Path(trail, run)
      && trail[|run|] == State()
      && (forall l | l in run :: Prompt(l))
      && births == |history|
    }

    /** No launch is under way, and a disabled target is stopped. */
    ghost predicate Settled()
      reads this
    {
      && Tracks()
      && trail != [] && WellFormed(initial) && trail[0] == Startup(initial, initialDirs, pid)
      && flights == multiset{}
      && Calm(targets)
    }

    /** Between operations the mutation lock is free as well. */
    ghost predicate Valid()
      reads this
    {
      Settled() && mutation.Unlocked?
    }

    /** The recorded run so far led to `before`, and this object has its identity. */
    ghost predicate Before(before: Daemon)
      reads this
    {
      && Path(trail, run) && trail[|run|] == before
      && (forall l | l in run :: Prompt(l))
      && before.pid == pid && before.unsent == []
    }

    /** The recorded states only ever grow, so the object keeps its origin. */
    ghost predicate Extends(earlier: seq<Daemon>)
      reads this
    {
      |earlier| <= |trail| && (earlier == [] || trail[0] == earlier[0])
    }

    /** Records a step whose effect on the real fields has just been carried out. */
    ghost method Note(before: Daemon, l: Label, after: Daemon)
      requires Before(before) && Prompt(l) && after == Step(before, l)
      requires config == after.config && targets == after.targets && disk == after.disk
      requires dirs == after.dirs && events == after.log && births == |after.history|
      modifies this`run, this`trail, this`mutation, this`history, this`flights, this`outcomes
      ensures Tracks() && State() == after && Extends(old(trail)) && run == old(run) + [l]
    {
      StepKeepsPid(before, l);
      PromptKeepsUnsent(before, l);
      PathAppend(trail, run, l);
      run, trail := run + [l], trail + [after];
      mutation, history, flights, outcomes := after.mutation, after.history, after.flights, after.outcomes;
    }

    /** The real fields are those of `before` after one section on one target. */
    ghost predicate Carried(before: Daemon, name: string, section: Section)
      reads this
    {
      && Before(before)
      && births == |before.history|
      && config == before.config && disk == before.disk && dirs == before.dirs
      && targets == Edited(before.targets, name, section)
      && events == LogAfter(before.log, before.targets, name, section)
    }

    /** Records a step that is one critical section. */
    ghost method NoteRun(before: Daemon, name: string, section: Section)
      requires !section.MarkOnline? && !section.ClearLaunching?
      requires Carried(before, name, section)
      modifies this`run, this`trail, this`mutation, this`history, this`flights, this`outcomes
      ensures Tracks() && Extends(old(trail)) && run == old(run) + [Run(name, section, true)]
      ensures mutation == before.mutation && outcomes == before.outcomes
      ensures flights == if section.Start? && ClaimsLaunch(before, name)
                         then before.flights + multiset{name} else before.flights
    {
      EditEffect(before, name, section);
      Note(before, Run(name, section, true), RunSection(before, name, section, true));
    }

    /** Records the end of a launch, or an attachment at startup. */
    ghost method NoteOnlineOrFailed(before: Daemon, name: string, l: Label)
      requires (l == LaunchSucceeded(name) && Carried(before, name, MarkOnline) && name in before.flights)
            || (l == LaunchFailed(name) && Carried(before, name, ClearLaunching) && name in before.flights)
            || (l == Attach(name) && Carried(before, name, MarkOnline))
      modifies this`run, this`trail, this`mutation, this`history, this`flights, this`outcomes
      ensures Tracks() && Extends(old(trail)) && run == old(run) + [l]
      ensures mutation == before.mutation && outcomes == before.outcomes
      ensures flights == if l.Attach? then before.flights else before.flights - multiset{name}
    {
      var landed := if l.Attach? then before else before.(flights := before.flights - multiset{name});
      var section := if l.LaunchFailed? then ClearLaunching else MarkOnline;
      EditEffect(landed, name, section);
      Note(before, l, EditTarget(landed, name, section, true));
    }

    constructor (config: DaemonConfig, dirs: set<string>, pid: string)
      requires WellFormed(config)
      ensures Valid() && initial == config && initialDirs == dirs && this.pid == pid
      ensures this.config == config && this.disk == config && this.dirs == dirs && events == []
      ensures forall c | c in config.targets :: c.name in targets && Fresh(c, targets[c.name])
      ensures forall n | n in targets :: targets[n].config in config.targets && Fresh(targets[n].config, targets[n])
    {
      this.config, this.disk, this.dirs, this.pid := config, config, dirs, pid;
      initial, initialDirs := config, dirs;
      targets := BuildTargets(config.targets);
      events, births := [], |config.targets|;
      run, mutation, flights, outcomes, launches := [], Unlocked, multiset{}, [], [];
      history := Startup(config, dirs, pid).history;
      trail := [Startup(config, dirs, pid)];
      BuildTargetsFresh(config.targets);
    }

    // ---- Emitting ----

    method EmitChanged(name: string, t: RuntimeTarget, changes: Changes)
      modifies this`events
      ensures events == old(events) + [ChangeEvent(name, t, changes)]
    {
      events := events + [Sent(TargetChanged(name, t.revision, ToObject(changes)), t.incarnation)];
    }

    method EmitSnapshot()
      modifies this`events
      ensures events == old(events) + [Sent(SnapshotTaken(SnapshotOf(State())), 0)]
    {
      events := events + [Sent(SnapshotTaken(SnapshotFrom(config.node.id, targets)), 0)];
    }

    // ---- The critical sections ----

    /** What every critical section promises: its step of the machine, its edit of one target, nothing else. */
    twostate predicate Ran(name: string, section: Section, l: Label)
      reads this
    {
      && Tracks()
      && run == old(run) + [l]
      && Extends(old(trail))
      && targets == Edited(old(targets), name, section)
      && events == LogAfter(old(events), old(targets), name, section)
      && config == old(config) && disk == old(disk) && dirs == old(dirs) && births == old(births)
      && mutation == old(mutation) && outcomes == old(outcomes)
      && launches
         == if section.Start? && old(ClaimsLaunch(State(), name)) then old(launches) + [name] else old(launches)
    }

    method StartSection(name: string) returns (r: Result<bool, SupervisorError>)
      requires Tracks()
      modifies this
      ensures r == if name !in old(targets) then Failure(NoSuchTarget(name))
                   else if old(targets[name].config.disabled) then Failure(TargetDisabled)
                   else Success(old(ClaimsLaunch(State(), name)))
      ensures r.Failure? ==> unchanged(this)
      ensures r.Success? ==> Ran(name, Section.Start, Run(name, Section.Start, true))
      ensures r.Success? ==> flights == if r.value then old(flights) + multiset{name} else old(flights)
    {
      hide Path, EditOf, ToObject;
      ghost var before := State();
      if name in targets { StartEditOf(targets[name]); }
      if name !in targets {
        return Failure(NoSuchTarget(name));
      }
      var t := targets[name];
      if t.config.disabled {
        return Failure(TargetDisabled);
      }
      if t.stopped {
        t := t.(stopped := false, revision := t.revision + 1);
        EmitChanged(name, t, map[Stopped := Bool(false)]);
      }
      var shouldLaunch := !(t.online || t.launching);
      if shouldLaunch {
        t := t.(launching := true);
        launches := launches + [name];
      }
      targets := targets[name := t];
      assert t == TargetAfter(Section.Start, before.targets[name]);
      NoteRun(before, name, Section.Start);
      return Success(shouldLaunch);
    }

    method StopSection(name: string) returns (r: Result<bool, SupervisorError>)
      requires Tracks()
      modifies this
      ensures r == if name !in old(targets) then Failure(NoSuchTarget(name))
                   else if old(targets[name].stopped) then Failure(TargetAlreadyStopped)
                   else Success(old(targets[name].online))
      ensures r.Failure? ==> unchanged(this)
      ensures r.Success? ==> Ran(name, Section.Stop, Run(name, Section.Stop, true)) && flights == old(flights)
    {
      hide Path, EditOf, ToObject;
      ghost var before := State();
      if name in targets { StopEditOf(targets[name]); }
      if name !in targets {
        return Failure(NoSuchTarget(name));
      }
      var t := targets[name];
      if t.stopped {
        return Failure(TargetAlreadyStopped);
      }
      t := t.(stopped := true, revision := t.revision + 1);
      targets := targets[name := t];
      EmitChanged(name, t, map[Stopped := Bool(true)]);
      assert t == TargetAfter(Section.Stop, before.targets[name]);
      NoteRun(before, name, Section.Stop);
      return Success(t.online);
    }

    /** `mark_online`, at the end of a launch or when startup finds the process alive. */
    method MarkOnlineSection(name: string, launched: bool)
      requires Tracks() && (launched ==> name in flights)
      modifies this
      ensures Ran(name, MarkOnline, if launched then LaunchSucceeded(name) else Attach(name))
      ensures name in old(targets) && !old(targets[name].online) ==>
                targets[name] == old(targets[name]).(online := true, launching := false, recovering := false,
                                                     revision := old(targets[name].revision) + 1)
      ensures flights == if launched then old(flights) - multiset{name} else old(flights)
    {
      hide Path, EditOf, ToObject;
      ghost var before := State();
      if name in targets { OnlineEditOf(targets[name]); }
      if name in targets && !targets[name].online {
        var t := targets[name];
        t := t.(online := true, launching := false, recovering := false, revision := t.revision + 1);
        targets := targets[name := t];
        EmitChanged(name, t, map[Online := Bool(true)]);
        assert t == TargetAfter(MarkOnline, before.targets[name]);
      }
      NoteOnlineOrFailed(before, name, if launched then LaunchSucceeded(name) else Attach(name));
    }

    method ClearLaunchingSection(name: string)
      requires Tracks() && name in flights
      modifies this
      ensures Ran(name, ClearLaunching, LaunchFailed(name)) && flights == old(flights) - multiset{name}
    {
      hide Path, EditOf, ToObject;
      ghost var before := State();
      if name in targets { LaunchingEditOf(targets[name]); }
      if name in targets {
        targets := targets[name := targets[name].(launching := false)];
      }
      NoteOnlineOrFailed(before, name, LaunchFailed(name));
    }

    /** `mark_offline`. */
    method MarkOfflineSection(name: string)
      requires Tracks()
      modifies this
      ensures Ran(name, MarkOffline, Run(name, MarkOffline, true)) && flights == old(flights)
    {
      hide Path, EditOf, ToObject;
      ghost var before := State();
      if name in targets { OfflineEditOf(MarkOffline, targets[name]); }
      if name in targets && targets[name].online {
        var t := targets[name];
        t := t.(online := false, launching := false, revision := t.revision + 1);
        targets := targets[name := t];
        EmitChanged(name, t, map[Online := Bool(false)]);
        assert t == TargetAfter(MarkOffline, before.targets[name]);
      }
      NoteRun(before, name, MarkOffline);
    }

    /** The first section of `on_target_lost`. */
    method TargetLostSection(name: string) returns (wasOnline: bool)
      requires Tracks()
      modifies this
      ensures Ran(name, TargetLost, Run(name, TargetLost, true)) && flights == old(flights)
      ensures wasOnline == (name in old(targets) && old(targets[name].online))
    {
      hide Path, EditOf, ToObject;
      ghost var before := State();
      if name in targets { OfflineEditOf(TargetLost, targets[name]); }
      wasOnline := false;
      if name in targets && targets[name].online {
        var t := targets[name];
        t := t.(online := false, launching := false, revision := t.revision + 1);
        targets := targets[name := t];
        EmitChanged(name, t, map[Online := Bool(false)]);
        assert t == TargetAfter(TargetLost, before.targets[name]);
        wasOnline := true;
      }
      NoteRun(before, name, TargetLost);
    }

    method ClearObservedSection(name: string)
      requires Tracks()
      modifies this
      ensures Ran(name, ClearObserved, Run(name, ClearObserved, true)) && flights == old(flights)
    {
      hide Path, EditOf, ToObject, ClearChanges;
      ghost var before := State();
      if name in targets { ClearEditOf(targets[name]); }
      if name in targets && targets[name].observed != DEFAULT_STATE {
        var t := targets[name];
        var changed := ClearChanges(t.observed);
        t := t.(observed := DEFAULT_STATE, revision := t.revision + 1);
        targets := targets[name := t];
        EmitChanged(name, t, changed);
        assert t == TargetAfter(ClearObserved, before.targets[name]);
      }
      NoteRun(before, name, ClearObserved);
    }

    /** The second half of `ensure_disabled_off`: one event for everything that changed. */
    method DisabledOffSection(name: string) returns (r: Result<(), SupervisorError>)
      requires Tracks()
      modifies this
      ensures r == if name in old(targets) then Success(()) else Failure(NoSuchTarget(name))
      ensures r.Failure? ==> unchanged(this)
      ensures r.Success? ==> Ran(name, DisabledOff, Run(name, DisabledOff, true)) && flights == old(flights)
    {
      hide Path, EditOf, ToObject;
      ghost var before := State();
      if name !in targets {
        return Failure(NoSuchTarget(name));
      }
      var off, changed := SwitchOff(targets[name]);
      targets := targets[name := off];
      if changed != map[] {
        EmitChanged(name, off, changed);
      }
      NoteRun(before, name, DisabledOff);
      return Success(());
    }

    /** `update_observed`: one property reported by mpv. */
    method UpdateObserved(name: string, field: Field, raw: Json)
      requires Tracks() && IsObserved(field)
      modifies this
      ensures Ran(name, Observe(field, raw), Run(name, Observe(field, raw), true)) && flights == old(flights)
    {
      hide Path, EditOf, ToObject, Normalize, ApplyObserved, IsObserved;
      ghost var before := State();
      if name in targets { ObserveEditOf(field, raw, targets[name]); }
      var value := Normalize(field, raw);
      if name in targets {
        var t := targets[name];
        var stored := ApplyObserved(t.observed, field, value);
        if stored.Some? {
          t := t.(observed := stored.value, revision := t.revision + 1);
          targets := targets[name := t];
          EmitChanged(name, t, map[field := value]);
          assert t == TargetAfter(Observe(field, raw), before.targets[name]);
        }
      }
      NoteRun(before, name, Observe(field, raw));
    }

    /** `update_media_end`, or `clear_media_end` when there is no reason. */
    method SetMediaEnd(name: string, reason: Option<MediaEndReason>, error: Option<string>)
      requires Tracks() && (reason.None? ==> error.None?)
      modifies this
      ensures var section := if reason.Some? then MediaEnd(reason.value, error) else ClearMediaEnd;
              Ran(name, section, Run(name, section, true)) && flights == old(flights)
    {
      hide Path, EditOf, ToObject;
      ghost var before := State();
      if name in targets { MediaEditOf(reason, error, targets[name]); }
      ghost var section := if reason.Some? then MediaEnd(reason.value, error) else ClearMediaEnd;
      if name in targets {
        var t := targets[name];
        if t.observed.lastEndReason != reason || t.observed.lastEndError != error {
          t := t.(observed := t.observed.(lastEndReason := reason, lastEndError := error), revision := t.revision + 1);
          targets := targets[name := t];
          EmitChanged(name, t, EndChanges(reason, error));
          assert t == TargetAfter(section, before.targets[name]);
        }
      }
      NoteRun(before, name, section);
    }

    /** The recovery loop claims the target, or checks after a sleep that it is still wanted. */
    method RecoverySection(name: string, begin: bool) returns (proceed: bool)
      requires Tracks()
      modifies this
      ensures var section := if begin then BeginRecovery else CheckRecovery;
              Ran(name, section, Run(name, section, true)) && flights == old(flights)
      ensures proceed == (name in old(targets) && !old(targets[name].config.disabled) && !old(targets[name].stopped)
                          && (begin ==> !old(targets[name].recovering)))
    {
      hide Path, EditOf, ToObject;
      ghost var before := State();
      if name in targets { RecoveryEditOf(begin, targets[name]); }
      ghost var section := if begin then BeginRecovery else CheckRecovery;
      proceed := false;
      if name in targets {
        var t := targets[name];
        if t.config.disabled || t.stopped {
          if !begin {
            targets := targets[name := t.(recovering := false)];
          }
        } else if !begin {
          proceed := true;
        } else if !t.recovering {
          proceed := true;
          targets := targets[name := t.(recovering := true)];
        }
      }
      NoteRun(before, name, section);
    }

    // ---- The operations on one target ----

    /** Nothing but one target may have changed. */
    twostate predicate OnlyTouches(name: string)
      reads this
    {
      && config == old(config) && disk == old(disk) && dirs == old(dirs)
      && mutation == old(mutation) && outcomes == old(outcomes)
      && targets.Keys == old(targets.Keys)
      && forall n | n in targets && n != name :: targets[n] == old(targets)[n]
    }

    /**
     `start`.  `comesUp` is whether the launch, if one is needed, gets mpv to answer;
     `recover` is whether recovery is scheduled.
     */
    method Start(name: string, comesUp: bool)
      returns (r: Result<TargetRecord, SupervisorError>, recover: bool)
      requires Settled()
      modifies this
      ensures Settled() && Extends(old(trail)) && OnlyTouches(name)
      ensures var known := name in old(targets);
              var needed := known && !old(targets[name].config.disabled) && !old(targets[name].online);
              && launches == (if needed then old(launches) + [name] else old(launches))
              && (r.Success? <==> known && !old(targets[name].config.disabled) && (needed ==> comesUp))
      ensures r.Success? ==> name in targets && r.value == RecordOf(name, targets[name])
      ensures name in old(targets) && !old(targets[name].config.disabled) ==>
                var t := old(targets[name]);
                var launched := !t.online && comesUp;
                targets[name] == t.(stopped := false, online := t.online || comesUp,
                                    recovering := t.recovering && !launched,
                                    revision := t.revision + (if t.stopped then 1 else 0) + if launched then 1 else 0)
      ensures r.Failure? ==>
                r.error == if name !in old(targets) then NoSuchTarget(name)
                           else if old(targets[name].config.disabled) then TargetDisabled else LaunchFailure
      ensures r.Failure? && r.error != LaunchFailure ==> unchanged(this)
      ensures recover <==> r == Failure(LaunchFailure)
    {
      hide Path, Tracks, Edited, EditOf, TargetAfter, LogAfter;
      ghost var start := targets;
      var claim := StartSection(name);
      if claim.Failure? {
        return Failure(claim.error), false;
      }
      EditedFrame(start, name, Section.Start);
      StartEffect(start[name]);
      if claim.value {
        ghost var claimed := targets;
        if comesUp {
          MarkOnlineSection(name, true);
          EditedFrame(claimed, name, MarkOnline);
        } else {
          ClearLaunchingSection(name);
          EditedFrame(claimed, name, ClearLaunching);
          CalmEdit(start, targets, name);
          return Failure(LaunchFailure), true;
        }
      }
      CalmEdit(start, targets, name);
      return Success(RecordOf(name, targets[name])), false;
    }

    /** `stop`.  `quits` is whether a running mpv accepts `quit` and its socket goes away. */
    method Stop(name: string, quits: bool) returns (r: Result<TargetRecord, SupervisorError>)
      requires Settled()
      modifies this
      ensures Settled() && Extends(old(trail)) && OnlyTouches(name) && launches == old(launches)
      ensures r.Success? <==>
                name in old(targets) && !old(targets[name].stopped) && (old(targets[name].online) ==> quits)
      ensures r.Success? ==>
                && name in targets && r.value == RecordOf(name, targets[name])
                && var t := old(targets[name]);
                   targets[name] == t.(stopped := true, online := false, observed := DEFAULT_STATE,
                                       revision := t.revision + 1 + Cleared(t) + if t.online then 1 else 0)
      ensures r.Failure? ==>
                r.error == if name !in old(targets) then NoSuchTarget(name)
                           else if old(targets[name].stopped) then TargetAlreadyStopped else IpcUnavailable
      ensures r == Failure(IpcUnavailable) ==>
                targets[name] == old(targets[name]).(stopped := true, revision := old(targets[name].revision) + 1)
      ensures r.Failure? && r.error != IpcUnavailable ==> unchanged(this)
      ensures old(events) <= events
    {
      hide Path, Tracks, Edited, EditOf, TargetAfter, LogAfter;
      ghost var start := targets;
      var running := StopSection(name);
      if running.Failure? {
        return Failure(running.error);
      }
      EditedFrame(start, name, Section.Stop);
      LogAfterGrows(old(events), start, name, Section.Stop);
      StopEffect(start[name]);
      if running.value && !quits {
        CalmEdit(start, targets, name);
        return Failure(IpcUnavailable);
      }
      ghost var told, toldEvents := targets, events;
      ClearObservedSection(name);
      EditedFrame(told, name, ClearObserved);
      LogAfterGrows(toldEvents, told, name, ClearObserved);
      ghost var cleared, clearedEvents := targets, events;
      MarkOfflineSection(name);
      EditedFrame(cleared, name, MarkOffline);
      LogAfterGrows(clearedEvents, cleared, name, MarkOffline);
      CalmEdit(start, targets, name);
      return Success(RecordOf(name, targets[name]));
    }

    /** `ensure_disabled_off`.  `live` is whether a process still answers, `quits` whether it goes away when told. */
    method EnsureDisabledOff(name: string, live: bool, quits: bool) returns (r: Result<(), SupervisorError>)
      requires Settled()
      modifies this
      ensures Settled() && Extends(old(trail)) && OnlyTouches(name) && launches == old(launches)
      ensures r.Success? <==> name in old(targets) && (live ==> quits)
      ensures r.Success? ==>
                var t := old(targets[name]);
                targets[name] == t.(stopped := true, online := false, launching := false, recovering := false,
                                    observed := DEFAULT_STATE,
                                    revision := t.revision + Cleared(t) + if !t.stopped || t.online then 1 else 0)
      ensures r.Failure? ==> r.error == if live && !quits then IpcUnavailable else NoSuchTarget(name)
      ensures r.Failure? ==> targets == old(targets)
    {
      hide Path, Tracks, Edited, EditOf, TargetAfter, LogAfter;
      if live && !quits {
        return Failure(IpcUnavailable);
      }
      ghost var start := targets;
      ClearObservedSection(name);
      EditedFrame(start, name, ClearObserved);
      ghost var cleared := targets;
      r := DisabledOffSection(name);
      if r.Success? {
        EditedFrame(cleared, name, DisabledOff);
        SwitchOffEffect(start[name]);
      }
      CalmEdit(start, targets, name);
    }

    /** `restart`: a disabled target is switched off, any other is stopped if need be and started. */
    method Restart(name: string, live: bool, quits: bool, comesUp: bool)
      returns (r: Result<TargetRecord, SupervisorError>, recover: bool)
      requires Settled()
      modifies this
      ensures Settled() && Extends(old(trail)) && OnlyTouches(name)
      ensures name in old(targets) && old(targets[name].config.disabled) ==> launches == old(launches)
      ensures recover <==> r == Failure(LaunchFailure)
      ensures r.Success? ==> name in targets && r.value == RecordOf(name, targets[name])
      ensures r.Success? ==> targets[name].online == !old(targets[name].config.disabled)
      ensures r.Success? ==> targets[name].stopped == old(targets[name].config.disabled)
      ensures r.Success? ==> targets[name].config == old(targets[name].config)
      ensures r.Success? <==>
                && name in old(targets)
                && if old(targets[name].config.disabled) then live ==> quits
                   else (old(!targets[name].stopped && targets[name].online) ==> quits)
                        && (old(!targets[name].stopped || !targets[name].online) ==> comesUp)
      ensures r.Success? && !old(targets[name].config.disabled) ==>
                launches == if old(targets[name].stopped && targets[name].online) then old(launches)
                            else old(launches) + [name]
      ensures r.Failure? ==>
                r.error == if name !in old(targets) then NoSuchTarget(name)
                           else if !quits && old(targets[name].config.disabled
                                                 || (!targets[name].stopped && targets[name].online))
                           then IpcUnavailable else LaunchFailure
    {
      hide Path, Tracks, ClearChanges, ToObject;
      if name !in targets {
        return Failure(NoSuchTarget(name)), false;
      }
      if targets[name].config.disabled {
        var off := EnsureDisabledOff(name, live, quits);
        if off.Failure? {
          return Failure(off.error), false;
        }
        return Success(RecordOf(name, targets[name])), false;
      }
      if !targets[name].stopped {
        var stopped := Stop(name, quits);
        if stopped.Failure? {
          return stopped, false;
        }
      }
      r, recover := Start(name, comesUp);
    }

    /** `on_target_lost`: the observer lost its connection.  The result is whether recovery is scheduled. */
    method OnTargetLost(name: string) returns (recover: bool)
      requires Settled()
      modifies this
      ensures Settled() && Extends(old(trail)) && OnlyTouches(name) && launches == old(launches)
      ensures recover <==> name in old(targets) && old(targets[name].online)
                           && !old(targets[name].config.disabled) && !old(targets[name].stopped)
      ensures name in old(targets) && old(targets[name].online) ==>
                var t := old(targets[name]);
                targets[name] == t.(online := false, launching := false, observed := DEFAULT_STATE,
                                    revision := t.revision + 1 + Cleared(t))
      ensures name in old(targets) && !old(targets[name].online) ==> targets == old(targets) && events == old(events)
    {
      hide Path, Tracks, Edited, EditOf, TargetAfter, LogAfter, ClearChanges, ToObject;
      ghost var start, startEvents := targets, events;
      var lost := TargetLostSection(name);
      EditedFrame(start, name, TargetLost);
      if name in start { LostEffect(start[name]); }
      if !lost {
        NothingLost(startEvents, start, name);
        return false;
      }
      recover := !targets[name].config.disabled && !targets[name].stopped;
      ghost var gone := targets;
      ClearObservedSection(name);
      EditedFrame(gone, name, ClearObserved);
      CalmEdit(start, targets, name);
    }

    /** What one observation promises: the observed state given, one revision later if it is new, and nothing else. */
    twostate predicate Observes(name: string, st: TargetState)
      reads this
    {
      && Valid() && Extends(old(trail)) && OnlyTouches(name) && launches == old(launches)
      && (name in targets ==>
            var t := old(targets)[name];
            targets[name] == t.(observed := st, revision := t.revision + if st != t.observed then 1 else 0))
    }

    method ObserveProperty(name: string, field: Field, raw: Json)
      requires Valid() && IsObserved(field)
      modifies this
      ensures var st := if name in old(targets) then old(targets)[name].observed else DEFAULT_STATE;
              var stored := ApplyObserved(st, field, Normalize(field, raw));
              Observes(name, if stored.Some? then stored.value else st)
    {
      hide Path, Tracks, Edited, EditOf, TargetAfter, LogAfter, Normalize, ApplyObserved;
      ghost var start := targets;
      UpdateObserved(name, field, raw);
      EditedFrame(start, name, Observe(field, raw));
      if name in start { ObserveEffect(field, raw, start[name]); }
      CalmEdit(start, targets, name);
    }

    method ObserveMedia(name: string, reason: Option<MediaEndReason>, error: Option<string>)
      requires Valid() && (reason.None? ==> error.None?)
      modifies this
      ensures var st := if name in old(targets) then old(targets)[name].observed else DEFAULT_STATE;
              Observes(name, st.(lastEndReason := reason, lastEndError := error))
    {
      hide Path, Tracks, Edited, EditOf, TargetAfter, LogAfter;
      ghost var start := targets;
      SetMediaEnd(name, reason, error);
      EditedFrame(start, name, if reason.Some? then MediaEnd(reason.value, error) else ClearMediaEnd);
      if name in start { MediaEffect(reason, error, start[name]); }
      CalmEdit(start, targets, name);
    }

    /**
     One message of the observer, between operations: the observed state becomes
     what the message says, one revision later if that is something new, and
     nothing else changes.
     */
    method ObserveMessage(name: string, message: MpvMessage)
      requires Valid()
      modifies this
      ensures Observes(name, if name in old(targets) then ObservedAfter(old(targets)[name].observed, message)
                             else DEFAULT_STATE)
      ensures name in old(targets) ==> Hears(old(targets)[name].observed, message, targets[name].observed)
    {
      hide Path, Tracks, Calm, Normalize, ApplyObserved, MediaEndReasonOf, ObservedField, IsObserved, Hears;
      if name in targets { MessageIsHeard(targets[name].observed, message); }
      match message {
        case PropertyChange(property, data) =>
          var field := if property.Some? then ObservedField(property.value) else None;
          if field.Some? {
            ObservedFieldIsObserved(property.value);
            ObserveProperty(name, field.value, if data.Some? then data.value else Null);
          }
        case EndFile(reason, fileError) => ObserveMedia(name, Some(MediaEndReasonOf(reason)), NonEmpty(fileError));
        case FileLoaded => ObserveMedia(name, None, None);
        case OtherMessage =>
      }
    }

    /** One section of the recovery loop, between operations. */
    method RecoveryStep(name: string, begin: bool) returns (proceed: bool)
      requires Settled()
      modifies this
      ensures Settled() && Extends(old(trail)) && OnlyTouches(name) && launches == old(launches)
      ensures name in targets ==>
                var t := old(targets[name]);
                var wanted := !t.config.disabled && !t.stopped;
                targets[name] == t.(recovering := if begin then t.recovering || wanted else t.recovering && wanted)
      ensures proceed == (name in old(targets) && !old(targets[name].config.disabled) && !old(targets[name].stopped)
                          && (begin ==> !old(targets[name].recovering)))
    {
      hide Path, Tracks, Edited, EditOf, TargetAfter, LogAfter;
      ghost var start := targets;
      proceed := RecoverySection(name, begin);
      EditedFrame(start, name, if begin then BeginRecovery else CheckRecovery);
      if name in start { RecoveryEffect(begin, start[name]); }
      CalmEdit(start, targets, name);
    }

    /** One turn of the recovery loop after its sleep: give up if the target is no longer wanted, otherwise start it. */
    method RecoverOnce(name: string, comesUp: bool) returns (wanted: bool, up: bool)
      requires Settled()
      modifies this
      ensures Settled() && Extends(old(trail)) && OnlyTouches(name)
      ensures wanted == (name in old(targets) && !old(targets[name].config.disabled) && !old(targets[name].stopped))
      ensures up == (wanted && (old(targets[name].online) || comesUp))
      ensures launches == if wanted && !old(targets[name].online) then old(launches) + [name] else old(launches)
      ensures wanted ==>
                var t := old(targets[name]);
                && name in targets
                && targets[name] == t.(online := up, recovering := t.recovering && (up ==> t.online),
                                       revision := t.revision + if up && !t.online then 1 else 0)
      ensures name in old(targets) && !wanted ==> targets[name] == old(targets[name]).(recovering := false)
    {
      hide Path, Tracks, Settled, RecordOf;
      wanted := RecoveryStep(name, false);
      up := false;
      if wanted {
        var started, _ := Start(name, comesUp);
        up := started.Success?;
      }
    }

    /**
     The recovery loop, alone and with the outcome of each launch given: it sleeps
     the delays of the schedule, launches once after each sleep, and ends with the
     first launch that comes up.
     */
    method Recover(name: string, attempts: seq<bool>) returns (sleeps: seq<nat>, up: bool)
      requires Settled()
      modifies this
      ensures Settled() && Extends(old(trail)) && OnlyTouches(name)
      ensures |sleeps| <= |attempts| && forall i | 0 <= i < |sleeps| :: sleeps[i] == NthDelay(i)
      ensures var lost := name in old(targets) && !old(targets[name].config.disabled) && !old(targets[name].stopped)
                          && !old(targets[name].online) && !old(targets[name].recovering);
              lost ==>
                && (up <==> true in attempts)
                && (up ==> sleeps != [] && attempts[|sleeps| - 1] && true !in attempts[..|sleeps| - 1])
                && (!up ==> |sleeps| == |attempts|)
                && targets[name] == old(targets[name]).(online := up, recovering := !up,
                                                        revision := old(targets[name].revision) + if up then 1 else 0)
                && launches == old(launches) + seq(|sleeps|, _ => name)
    {
      hide Path, Tracks, Settled, RecordOf, NthDelay;
      DelaySteps();
      sleeps, up := [], false;
      var claimed := RecoveryStep(name, true);
      if !claimed {
        return;
      }
      var delay := 1;
      for i := 0 to |attempts|
        invariant Settled() && Extends(old(trail)) && OnlyTouches(name) && !up
        invariant |sleeps| == i && delay == NthDelay(i) && forall j | 0 <= j < i :: sleeps[j] == NthDelay(j)
        invariant name in targets && !targets[name].config.disabled && !targets[name].stopped
        invariant targets[name] == old(targets[name]).(recovering := true)
        invariant !targets[name].online ==> launches == old(launches) + seq(i, _ => name) && true !in attempts[..i]
      {
        sleeps := sleeps + [delay];
        var wanted;
        wanted, up := RecoverOnce(name, attempts[i]);
        if !wanted || up {
          return;
        }
        delay := NextDelay(delay);
      }
    }

    /**
     mpv crashes and is recovered: the target that was up is up again, not in
     recovery any more, so that the same can be said of its next crash.
     */
    method CrashAndRecover(name: string, attempts: seq<bool>) returns (up: bool)
      requires Settled()
      modifies this
      ensures Settled() && Extends(old(trail)) && OnlyTouches(name)
      ensures name in old(targets) && IsUp(old(targets[name])) ==>
                && (up <==> true in attempts)
                && (up ==> IsUp(targets[name])) && (!up ==> !targets[name].online)
                && old(launches) <= launches
                && (up && attempts[0] ==> launches == old(launches) + [name])
    {
      hide Path, Tracks, Settled, RecordOf, NthDelay;
      var recover := OnTargetLost(name);
      up := false;
      if recover {
        var sleeps: seq<nat>;
        sleeps, up := Recover(name, attempts);
      }
    }

    // ---- The operations on the configuration ----

    /** Every theorem about runs holds of this object; this one says its parts agree. */
    lemma StateConsistent()
      requires Settled()
      ensures Consistent(State())
    {
      PathIsExec(trail, run);
      AgreementOverRuns(initial, initialDirs, pid, run);
    }

    /** A client that subscribed when the object was created and consumed every event holds its snapshot. */
    lemma SubscriberInStep()
      requires Settled()
      ensures var origin := Startup(initial, initialDirs, pid);
              |origin.log| <= |events| && FollowerAt(origin, State()) == Following(SnapshotOf(State()))
    {
      PathIsExec(trail, run);
      assert run[..0] == [] && run[..|run|] == run;
      ReplicaEquality(initial, initialDirs, pid, run, 0, |run|);
    }

    /** The persisted entry enters the configuration and the runtime map together. */
    method InstallEntry(name: string, change: ConfigChange, entry: TargetConfig, candidate: DaemonConfig)
      requires Tracks() && mutation.Unlocked? && name in targets
      requires IndexOf(config.targets, name) < |config.targets|
      requires var i := IndexOf(config.targets, name);
               && entry == Changed(config.targets[i], change) != config.targets[i]
               && candidate == config.(targets := config.targets[i := entry]) && WellFormed(candidate)
      modifies this
      ensures Tracks() && Extends(old(trail)) && launches == old(launches) && flights == old(flights)
      ensures dirs == old(dirs) && mutation == old(mutation)
      ensures config == disk == candidate
      ensures targets == old(targets)[name := Bump(old(targets)[name].(config := entry))]
      ensures events == old(events) + [ChangeEvent(name, targets[name], ChangeFields(change))]
    {
      hide Path, ChangeEntry, Changed, ChangeFields, ToObject, WellFormed;
      hide TakeCommit, RunLabel, EditTarget, EndLaunch, Proceed, SendLate, StartAdd, StartRename;
      ghost var before := State();
      EntryEffect(before, name, change);
      disk := candidate;
      config := candidate;
      var t := targets[name];
      t := t.(config := entry, revision := t.revision + 1);
      targets := targets[name := t];
      EmitChanged(name, t, ChangeFields(change));
      Note(before, Change(name, change, true), ChangeEntry(before, name, change, true));
    }

    /** `persist_target_change`.  `written` is whether the file system takes the new file. */
    method PersistTargetChange(name: string, change: ConfigChange, written: bool)
      returns (r: Result<(), SupervisorError>)
      requires Valid()
      requires change == SetDisabled(true) && name in targets ==> targets[name].stopped
      modifies this
      ensures Valid() && Extends(old(trail)) && launches == old(launches) && dirs == old(dirs)
      ensures r.Success? ==> name in old(targets) && name in targets
      ensures r.Success? ==>
                targets[name].config
                == match change
                   case SetDisabled(disabled) => old(targets)[name].config.(disabled := disabled)
                   case SetChannel(channel) => old(targets)[name].config.(channel := channel)
      ensures r == if name !in old(targets) then Failure(NoSuchTarget(name))
                   else if Changed(old(targets)[name].config, change) == old(targets)[name].config then Success(())
                   else if change.SetChannel? && change.channel.Some? && !ValidChannel(change.channel.value)
                   then Failure(Rejected)
                   else if written then Success(()) else Failure(ConfigFailure)
      ensures r.Success? ==>
                var i := IndexOf(old(config).targets, name);
                && i < |old(config).targets|
                && config == old(config).(targets := old(config).targets[i := targets[name].config])
      ensures r.Success? ==>
                if targets[name].config == old(targets)[name].config
                then targets == old(targets) && events == old(events)
                else targets[name] == Bump(old(targets)[name].(config := targets[name].config))
                     && events == old(events) + [ChangeEvent(name, targets[name], ChangeFields(change))]
      ensures r.Failure? ==>
                targets == old(targets) && config == old(config) && disk == old(disk) && events == old(events)
      ensures disk == config && WellFormed(config)
      ensures targets.Keys == old(targets.Keys)
      ensures forall n | n in targets && n != name :: targets[n] == old(targets[n])
    {
      hide Path, Tracks, Consistent, WellFormed, ValidChannel;
      StateConsistent();
      EntryKnown(State(), name);
      var i := IndexOf(config.targets, name);
      if i == |config.targets| {
        return Failure(NoSuchTarget(name));
      }
      var entry := Changed(config.targets[i], change);
      if entry == config.targets[i] {
        assert config.targets[i := entry] == config.targets;
        return Success(());
      }
      var candidate := config.(targets := config.targets[i := entry]);
      ChangedIsWellFormed(config, i, change);
      var valid := Validate(candidate);
      if valid.Failure? {
        return Failure(Rejected);
      }
      if !written {
        return Failure(ConfigFailure);
      }
      InstallEntry(name, change, entry, candidate);
      return Success(());
    }

    method Enable(name: string, written: bool) returns (r: Result<TargetRecord, SupervisorError>)
      requires Valid()
      modifies this
      ensures Valid() && Extends(old(trail)) && launches == old(launches)
      ensures r.Success? ==> name in targets && r.value == RecordOf(name, targets[name]) && !r.value.disabled
      ensures r.Success? ==>
                && name in old(targets)
                && var t := old(targets)[name];
                   targets[name] == t.(config := t.config.(disabled := false),
                                       revision := t.revision + if t.config.disabled then 1 else 0)
      ensures r.Success? <==> name in old(targets) && (old(targets)[name].config.disabled ==> written)
      ensures r.Failure? ==> r.error == if name in old(targets) then ConfigFailure else NoSuchTarget(name)
      ensures targets.Keys == old(targets.Keys) && forall n | n in targets && n != name :: targets[n] == old(targets)[n]
    {
      hide Path, Tracks, Consistent, WellFormed;
      var changed := PersistTargetChange(name, SetDisabled(false), written);
      if changed.Failure? {
        return Failure(changed.error);
      }
      return Success(RecordOf(name, targets[name]));
    }

    method Disable(name: string, quits: bool, written: bool) returns (r: Result<TargetRecord, SupervisorError>)
      requires Valid()
      modifies this
      ensures Valid() && Extends(old(trail)) && launches == old(launches)
      ensures r.Success? ==>
                name in targets && r.value == RecordOf(name, targets[name]) && r.value.disabled && r.value.stopped
      ensures r.Success? ==>
                && name in old(targets)
                && var t := old(targets)[name];
                   var stop := !t.stopped;
                   targets[name] == t.(config := t.config.(disabled := true), stopped := true,
                                       online := t.online && !stop,
                                       observed := if stop then DEFAULT_STATE else t.observed,
                                       revision := t.revision + (if t.config.disabled then 0 else 1)
                                                   + if stop then 1 + Cleared(t) + (if t.online then 1 else 0) else 0)
      ensures r.Success? <==>
                && name in old(targets) && (old(!targets[name].stopped && targets[name].online) ==> quits)
                && (!old(targets[name].config.disabled) ==> written)
      ensures r.Failure? ==>
                r.error == if name !in old(targets) then NoSuchTarget(name)
                           else if old(!targets[name].stopped && targets[name].online) && !quits then IpcUnavailable
                           else ConfigFailure
      ensures targets.Keys == old(targets.Keys) && forall n | n in targets && n != name :: targets[n] == old(targets)[n]
    {
      hide Path, Tracks, Consistent, WellFormed;
      if name !in targets {
        return Failure(NoSuchTarget(name));
      }
      if !targets[name].stopped {
        var stopped := Stop(name, quits);
        if stopped.Failure? {
          return stopped;
        }
      }
      var changed := PersistTargetChange(name, SetDisabled(true), written);
      if changed.Failure? {
        return Failure(changed.error);
      }
      return Success(RecordOf(name, targets[name]));
    }

    method SetTargetChannel(name: string, channel: Option<string>, written: bool)
      returns (r: Result<TargetRecord, SupervisorError>)
      requires Valid()
      modifies this
      ensures Valid() && Extends(old(trail)) && launches == old(launches)
      ensures r.Success? ==> name in targets && r.value == RecordOf(name, targets[name]) && r.value.channel == channel
      ensures r.Success? ==>
                && name in old(targets)
                && var t := old(targets)[name];
                   targets[name] == t.(config := t.config.(channel := channel),
                                       revision := t.revision + if t.config.channel != channel then 1 else 0)
      ensures r.Success? <==>
                && name in old(targets)
                && (old(targets)[name].config.channel != channel ==>
                      (channel.Some? ==> ValidChannel(channel.value)) && written)
      ensures r.Failure? ==>
                r.error == if name !in old(targets) then NoSuchTarget(name)
                           else if channel.Some? && !ValidChannel(channel.value) then Rejected else ConfigFailure
      ensures targets.Keys == old(targets.Keys) && forall n | n in targets && n != name :: targets[n] == old(targets)[n]
    {
      hide Path, Tracks, Consistent, WellFormed;
      var changed := PersistTargetChange(name, SetChannel(channel), written);
      if changed.Failure? {
        return Failure(changed.error);
      }
      return Success(RecordOf(name, targets[name]));
    }

    // ---- The operations on the target list, phase by phase ----

    /** A phase of a list operation has been recorded; the launch side is untouched. */
    twostate predicate Advanced()
      reads this
    {
      Tracks() && Extends(old(trail)) && flights == old(flights) && launches == old(launches)
    }

    twostate predicate ListUntouched()
      reads this
    {
      config == old(config) && targets == old(targets) && events == old(events) && births == old(births)
    }

    ghost method TakeLock(op: Operation, l: Label)
      requires Tracks() && mutation.Unlocked? && Prompt(l)
      requires Step(State(), l) == Begin(State(), op)
      modifies this`run, this`trail, this`mutation, this`history, this`flights, this`outcomes
      ensures Advanced() && mutation == Holding(op, Checked, old(MarkOf(State())))
    {
      Note(State(), l, Begin(State(), op));
    }

    ghost method GiveUpRemoval()
      requires Tracks() && mutation.Holding? && mutation.phase.Checked? && mutation.op.Remove?
      modifies this`run, this`trail, this`mutation, this`history, this`flights, this`outcomes
      ensures Advanced() && mutation.Unlocked?
    {
      Note(State(), AbortRemove, End(State(), Refused(true)));
    }

    /** `add`: create the directory and fill it, or tidy up. */
    method PrepareDirectory(target: TargetConfig, prepared: bool, tidy: bool) returns (r: Result<(), SupervisorError>)
      requires Tracks() && mutation.Holding? && mutation.phase.Checked? && mutation.op == Add(target)
      modifies this
      ensures Advanced() && ListUntouched() && disk == old(disk)
      ensures r == if target.name in old(dirs) then Failure(TargetExists(target.name))
                   else if prepared then Success(()) else Failure(ConfigFailure)
      ensures r.Success? ==> dirs == old(dirs) + {target.name}
      ensures r.Success? ==> mutation == old(mutation).(phase := Moved)
      ensures r.Failure? ==> mutation.Unlocked? && (tidy ==> dirs == old(dirs))
    {
      ghost var before := State();
      if target.name in dirs {
        Note(before, MoveDirectory(true, true), MoveDirs(before, true, true));
        return Failure(TargetExists(target.name));
      }
      if prepared {
        dirs := dirs + {target.name};
        Note(before, MoveDirectory(true, true), MoveDirs(before, true, true));
        return Success(());
      }
      if !tidy {
        dirs := dirs + {target.name};
      }
      Note(before, MoveDirectory(false, tidy), MoveDirs(before, false, tidy));
      return Failure(ConfigFailure);
    }

    /** `remove`: park the target's directory, if it has one. */
    method ParkDirectory(name: string, done: bool) returns (r: Result<(), SupervisorError>)
      requires Tracks() && mutation.Holding? && mutation.phase.Checked? && mutation.op == Remove(name)
      modifies this
      ensures Advanced() && ListUntouched() && disk == old(disk)
      ensures r == if name in old(dirs) && !done then Failure(ConfigFailure) else Success(())
      ensures r.Success? ==>
                dirs == MovedDirs(Remove(name), pid, old(dirs)) && mutation == old(mutation).(phase := Moved)
      ensures r.Failure? ==> mutation.Unlocked? && dirs == old(dirs)
    {
      ghost var before := State();
      if name in dirs {
        if !done {
          Note(before, MoveDirectory(false, true), MoveDirs(before, false, true));
          return Failure(ConfigFailure);
        }
        dirs := dirs - {name} + {Parked(name, pid)};
      }
      Note(before, MoveDirectory(true, true), MoveDirs(before, true, true));
      return Success(());
    }

    /** `rename`: move the target's directory; it must exist and the new one must not. */
    method RenameDirectory(name: string, replacement: string, done: bool) returns (r: Result<(), SupervisorError>)
      requires Tracks() && mutation.Holding? && mutation.phase.Checked? && mutation.op == Rename(name, replacement)
      modifies this
      ensures Advanced() && ListUntouched() && disk == old(disk)
      ensures r == if replacement in old(dirs) then Failure(TargetExists(replacement))
                   else if name in old(dirs) && done then Success(()) else Failure(ConfigFailure)
      ensures r.Success? ==> dirs == old(dirs) - {name} + {replacement} && mutation == old(mutation).(phase := Moved)
      ensures r.Failure? ==> mutation.Unlocked? && dirs == old(dirs)
    {
      ghost var before := State();
      if replacement in dirs {
        Note(before, MoveDirectory(true, true), MoveDirs(before, true, true));
        return Failure(TargetExists(replacement));
      }
      if name !in dirs || !done {
        Note(before, MoveDirectory(false, true), MoveDirs(before, false, true));
        return Failure(ConfigFailure);
      }
      dirs := dirs - {name} + {replacement};
      Note(before, MoveDirectory(true, true), MoveDirs(before, true, true));
      return Success(());
    }

    /** Undo the move of the directory. */
    method RestoreDirectory(op: Operation)
      modifies this`dirs
      ensures dirs == RestoredDirs(op, pid, old(dirs))
    {
      match op {
        case Add(target) => dirs := dirs - {target.name};
        case Remove(name) =>
          if Parked(name, pid) in dirs {
            dirs := dirs - {Parked(name, pid)} + {name};
          }
        case Rename(name, replacement) => dirs := dirs - {replacement} + {name};
      }
    }

    /** Validate the candidate and write it, or undo the move of the directory. */
    method PersistOrRollBack(op: Operation, candidate: DaemonConfig, written: bool, restored: bool)
      returns (r: Result<(), SupervisorError>)
      requires Tracks() && mutation.Holding? && mutation.phase.Moved? && mutation.op == op
      requires candidate == EditedConfig(config, op)
      requires op.Rename? ==> IndexOf(config.targets, op.name) < |config.targets|
      modifies this
      ensures Advanced() && ListUntouched()
      ensures r == if !WellFormed(candidate) then Failure(Rejected)
                   else if written then Success(()) else Failure(ConfigFailure)
      ensures r.Success? ==> disk == candidate && dirs == old(dirs)
      ensures r.Success? ==> mutation == old(mutation).(phase := Persisted(candidate))
      ensures r.Failure? ==> mutation.Unlocked? && disk == old(disk)
      ensures r.Failure? ==> dirs == if restored then RestoredDirs(op, pid, old(dirs)) else old(dirs)
    {
      hide Path, Build, PersistCandidate, RestoredDirs, WellFormed, EditedConfig;
      hide TakeCommit, RunLabel, EditTarget, EndLaunch, ChangeEntry, SendLate, StartAdd, StartRename;
      BuildEffect(State());
      Note(State(), BuildCandidate, Build(State()));
      ghost var before := State();
      PersistEffect(before, written, restored);
      var valid := Validate(candidate);
      if valid.Success? && written {
        disk := candidate;
        r := Success(());
      } else {
        if restored {
          RestoreDirectory(op);
        }
        r := Failure(if valid.Success? then ConfigFailure else Rejected);
      }
      Note(before, Persist(written, restored), PersistCandidate(before, written, restored));
    }

    /** Records the commit whose effect on the real fields has just been carried out. */
    ghost method NoteCommit(before: Daemon)
      requires Before(before) && before.mutation.Holding? && before.mutation.phase.Persisted?
      requires before.mutation.op.Rename? ==> before.mutation.op.name in before.targets
      requires config == before.mutation.phase.candidate && disk == before.disk && dirs == before.dirs
      requires targets == RelistedTargets(before.mutation.op, before.targets, |before.history|)
      requires events == before.log + [Sent(SnapshotTaken(SnapshotFrom(config.node.id, targets)), 0)]
      requires births == |before.history| + if before.mutation.op.Add? then 1 else 0
      modifies this`run, this`trail, this`mutation, this`history, this`flights, this`outcomes
      ensures Tracks() && Extends(old(trail)) && flights == before.flights
      ensures mutation == before.mutation.(phase := Committed)
    {
      hide Path, CommitCandidate, RelistedTargets, SnapshotFrom, RecordOf;
      hide Proceed, RunLabel, EditTarget, EndLaunch, ChangeEntry, SendLate, StartAdd, StartRename;
      CommitEffect(before);
      Note(before, Commit, CommitCandidate(before));
    }

    /** Install the persisted candidate with the runtime map that goes with it, and announce the new list. */
    method Install(op: Operation, candidate: DaemonConfig, relisted: map<string, RuntimeTarget>)
      requires Tracks() && mutation.Holding? && mutation.phase == Persisted(candidate) && mutation.op == op
      requires op.Rename? ==> op.name in targets
      requires relisted == RelistedTargets(op, targets, births)
      modifies this
      ensures Advanced() && config == candidate && targets == relisted
      ensures births == old(births) + if op.Add? then 1 else 0
      ensures disk == old(disk) && dirs == old(dirs)
      ensures events == old(events) + [Sent(SnapshotTaken(SnapshotFrom(candidate.node.id, relisted)), 0)]
      ensures mutation == old(mutation).(phase := Committed)
    {
      hide Path, Step, RelistedTargets, SnapshotFrom;
      ghost var before := State();
      config := candidate;
      targets := relisted;
      if op.Add? {
        births := births + 1;
      }
      EmitSnapshot();
      NoteCommit(before);
    }

    /** The candidate is written and installed, or nothing but the directories is touched. */
    method PersistAndInstall(
        op: Operation, candidate: DaemonConfig, relisted: map<string, RuntimeTarget>, written: bool, restored: bool)
      returns (r: Result<(), SupervisorError>)
      requires Tracks() && mutation.Holding? && mutation.phase.Moved? && mutation.op == op
      requires candidate == EditedConfig(config, op)
      requires op.Rename? ==> op.name in targets && IndexOf(config.targets, op.name) < |config.targets|
      requires relisted == RelistedTargets(op, targets, births)
      modifies this
      ensures Advanced()
      ensures r == if !WellFormed(candidate) then Failure(Rejected)
                   else if written then Success(()) else Failure(ConfigFailure)
      ensures r.Failure? ==> ListUntouched() && mutation.Unlocked? && disk == old(disk)
      ensures r.Failure? ==> dirs == if restored then RestoredDirs(op, pid, old(dirs)) else old(dirs)
      ensures r.Success? ==> config == disk == candidate && targets == relisted
      ensures r.Success? ==> dirs == old(dirs) && mutation == old(mutation).(phase := Committed)
      ensures r.Success? ==> events == old(events) + [Sent(SnapshotTaken(SnapshotFrom(candidate.node.id, relisted)), 0)]
    {
      hide Path, Tracks, EditedConfig, RelistedTargets, RestoredDirs, WellFormed, SnapshotFrom, IndexOf;
      r := PersistOrRollBack(op, candidate, written, restored);
      if r.Success? {
        Install(op, candidate, relisted);
      }
    }

    ghost method ReleaseLock()
      requires Tracks() && mutation.Holding? && mutation.phase.Committed? && !mutation.op.Remove?
      modifies this`run, this`trail, this`mutation, this`history, this`flights, this`outcomes
      ensures Advanced() && mutation.Unlocked?
    {
      Note(State(), Finish(true), CleanUp(State(), true));
    }

    /** After the commit of a removal, delete the parked directory. */
    method DeleteParked(name: string, cleaned: bool) returns (r: Result<(), SupervisorError>)
      requires Tracks() && mutation.Holding? && mutation.phase.Committed? && mutation.op == Remove(name)
      modifies this
      ensures Advanced() && ListUntouched() && disk == old(disk) && mutation.Unlocked?
      ensures r == if Parked(name, pid) !in old(dirs) || cleaned then Success(()) else Failure(ConfigFailure)
      ensures dirs == if r.Success? then old(dirs) - {Parked(name, pid)} else old(dirs)
    {
      ghost var before := State();
      r := Success(());
      if Parked(name, pid) in dirs {
        if cleaned {
          dirs := dirs - {Parked(name, pid)};
        } else {
          r := Failure(ConfigFailure);
        }
      } else {
        assert dirs - {Parked(name, pid)} == dirs;
      }
      Note(before, Finish(cleaned), CleanUp(before, cleaned));
    }

    // ---- The operations on the target list ----

    /**
     `add`.  The flags say whether the new directory could be prepared, whether a
     failed preparation could be tidied up, whether the file was written, and
     whether a failed write could be rolled back.
     */
    method AddTarget(
        name: string, from: Option<string>, enable: bool, prepared: bool, tidy: bool, written: bool, restored: bool)
      returns (r: Result<TargetRecord, SupervisorError>)
      requires Valid()
      modifies this
      ensures Valid() && Extends(old(trail)) && launches == old(launches)
      ensures r.Failure? ==> ListUntouched() && disk == old(disk) && (tidy && restored ==> dirs == old(dirs))
      ensures r.Failure? <==>
                || name in old(targets) || (from.Some? && from.value !in old(targets)) || name in old(dirs)
                || !prepared || !ValidTargetName(name) || !written
      ensures r.Failure? ==>
                r.error == if name in old(targets) then TargetExists(name)
                           else if from.Some? && from.value !in old(targets) then NoSuchTarget(from.value)
                           else if name in old(dirs) then TargetExists(name)
                           else if prepared && !ValidTargetName(name) then Rejected else ConfigFailure
      ensures r.Success? ==>
                var channel := if from.Some? then old(targets)[from.value].config.channel else None;
                var entry := TargetConfig(name, !enable, channel);
                && config == disk == old(config).(targets := old(config).targets + [entry])
                && targets == old(targets)[name := NewTarget(entry, true, old(births))]
                && dirs == old(dirs) + {name}
                && r.value == RecordOf(name, targets[name])
                          == TargetRecord(name, !enable, true, false, channel, DEFAULT_STATE, 0)
                && events == old(events) + [Sent(SnapshotTaken(SnapshotFrom(config.node.id, targets)), 0)]
    {
      hide Path, Tracks, Consistent, WellFormed, SnapshotFrom, Calm;
      if name in targets {
        return Failure(TargetExists(name));
      }
      if from.Some? && from.value !in targets {
        return Failure(NoSuchTarget(from.value));
      }
      var channel := if from.Some? then targets[from.value].config.channel else None;
      var target := TargetConfig(name, !enable, channel);
      StateConsistent();
      Addition(State(), name, from, !enable);
      TakeLock(Add(target), BeginAdd(name, from, enable));
      var directory := PrepareDirectory(target, prepared, tidy);
      if directory.Failure? {
        return Failure(directory.error);
      }
      var candidate := config.(targets := config.targets + [target]);
      var relisted := targets[name := NewTarget(target, true, births)];
      var installed := PersistAndInstall(Add(target), candidate, relisted, written, restored);
      if installed.Failure? {
        assert restored ==> dirs == old(dirs);
        return Failure(installed.error);
      }
      CalmEdit(old(targets), targets, name);
      ReleaseLock();
      return Success(RecordOf(name, targets[name]));
    }

    /** `remove` stops a target that is not stopped, and gives up if that fails. */
    method StopForRemoval(name: string, quits: bool) returns (r: Result<(), SupervisorError>)
      requires Settled() && name in targets
      requires mutation.Holding? && mutation.phase.Checked? && mutation.op == Remove(name)
      modifies this
      ensures Settled() && Extends(old(trail)) && launches == old(launches)
      ensures config == old(config) && disk == old(disk) && dirs == old(dirs)
      ensures targets.Keys == old(targets.Keys) && targets - {name} == old(targets) - {name}
      ensures r == if old(!targets[name].stopped && targets[name].online) && !quits then Failure(IpcUnavailable)
                   else Success(())
      ensures if r.Success? then mutation == old(mutation) else mutation.Unlocked?
      ensures old(targets[name].stopped) ==> targets == old(targets) && events == old(events)
      ensures old(events) <= events
    {
      hide Path, Tracks, Cleared;
      if !targets[name].stopped {
        var stopped := Stop(name, quits);
        if stopped.Failure? {
          GiveUpRemoval();
          return Failure(stopped.error);
        }
        assert targets - {name} == old(targets) - {name};
      }
      return Success(());
    }

    /** `remove`.  The flags are the outcomes of the inner stop, the move, the write, the roll-back and the deletion. */
    method RemoveTarget(name: string, quits: bool, done: bool, written: bool, restored: bool, cleaned: bool)
      returns (r: Result<(), SupervisorError>)
      requires Valid()
      modifies this
      ensures Valid() && Extends(old(trail)) && launches == old(launches)
      ensures name in targets ==>
                && config == old(config) && disk == old(disk) && targets.Keys == old(targets.Keys)
                && (restored && !Stale(Remove(name), pid, old(dirs)) ==> TargetDirs(dirs) == old(TargetDirs(dirs)))
      ensures name !in old(targets) ==> r == Failure(NoSuchTarget(name)) && unchanged(this)
      ensures r.Success? ==> name in old(targets) && name !in targets
      ensures name in old(targets) && name !in targets <==>
                && name in old(targets)
                && (old(!targets[name].stopped && targets[name].online) ==> quits)
                && (name in old(dirs) ==> done) && written
      ensures name in old(targets) && r.Failure? ==>
                r.error == if old(!targets[name].stopped && targets[name].online) && !quits then IpcUnavailable
                           else ConfigFailure
      ensures name in old(targets) && name !in targets && cleaned ==> r.Success?
      ensures name in old(targets) && name !in targets ==>
                && old(events) < events
                && events[|events| - 1] == Sent(SnapshotTaken(SnapshotFrom(config.node.id, targets)), 0)
                && (old(targets)[name].stopped ==> |events| == |old(events)| + 1)
      ensures name in targets && old(targets)[name].stopped ==> targets == old(targets) && events == old(events)
      ensures name in old(targets) && name !in targets ==>
                && config == disk && config == old(config).(targets := config.targets)
                && TakenOut(old(config).targets, name, config.targets)
                && targets == old(targets) - {name}
                && TargetDirs(dirs) == old(TargetDirs(dirs)) - {name}
    {
      hide Path, Tracks, Consistent, WellFormed, SnapshotFrom, TargetDirs, Parked, TakenOut;
      if name !in targets {
        return Failure(NoSuchTarget(name));
      }
      StateConsistent();
      Removal(State(), name);
      TakeLock(Remove(name), BeginRemove(name));
      var stopped := StopForRemoval(name, quits);
      if stopped.Failure? {
        return stopped;
      }
      ParkingIsInvisible(name, pid, dirs);
      var directory := ParkDirectory(name, done);
      if directory.Failure? {
        return directory;
      }
      var candidate := config.(targets := Without(config.targets, name));
      var installed := PersistAndInstall(Remove(name), candidate, targets - {name}, written, restored);
      if installed.Failure? {
        return installed;
      }
      r := DeleteParked(name, cleaned);
    }

    /** `rename`. */
    method RenameTarget(name: string, replacement: string, done: bool, written: bool, restored: bool)
      returns (r: Result<TargetRecord, SupervisorError>)
      requires Valid()
      modifies this
      ensures Valid() && Extends(old(trail)) && launches == old(launches)
      ensures r.Failure? ==> ListUntouched() && disk == old(disk) && (restored ==> dirs == old(dirs))
      ensures r.Failure? <==>
                || name !in old(targets) || replacement in old(targets) || !old(targets[name].stopped)
                || replacement in old(dirs) || name !in old(dirs) || !done || !ValidTargetName(replacement) || !written
      ensures r.Failure? ==>
                r.error == if name !in old(targets) then NoSuchTarget(name)
                           else if replacement in old(targets) then TargetExists(replacement)
                           else if !old(targets[name].stopped) then RenameRequiresStopped
                           else if replacement in old(dirs) then TargetExists(replacement)
                           else if name in old(dirs) && done && !ValidTargetName(replacement) then Rejected
                           else ConfigFailure
      ensures r.Success? ==>
                && config == disk && config == old(config).(targets := config.targets)
                && RenamedIn(old(config).targets, name, replacement, config.targets)
                && replacement in targets && targets == (old(targets) - {name})[replacement := targets[replacement]]
                && targets[replacement]
                   == old(targets)[name].(config := old(targets)[name].config.(name := replacement),
                                          revision := old(targets)[name].revision + 1)
                && dirs == old(dirs) - {name} + {replacement}
                && r.value == RecordOf(replacement, targets[replacement])
                && events == old(events) + [Sent(SnapshotTaken(SnapshotFrom(config.node.id, targets)), 0)]
    {
      hide Path, Tracks, Consistent, WellFormed, SnapshotFrom, RenamedIn, ValidTargetName;
      if name !in targets {
        return Failure(NoSuchTarget(name));
      }
      if replacement in targets {
        return Failure(TargetExists(replacement));
      }
      if !targets[name].stopped {
        return Failure(RenameRequiresStopped);
      }
      StateConsistent();
      EntryKnown(State(), name);
      Renaming(State(), name, replacement);
      TakeLock(Rename(name, replacement), BeginRename(name, replacement));
      var directory := RenameDirectory(name, replacement, done);
      if directory.Failure? {
        return Failure(directory.error);
      }
      var i := IndexOf(config.targets, name);
      var candidate := config.(targets := config.targets[i := config.targets[i].(name := replacement)]);
      var t := targets[name];
      t := t.(config := t.config.(name := replacement), revision := t.revision + 1);
      var relisted := (targets - {name})[replacement := t];
      var installed := PersistAndInstall(Rename(name, replacement), candidate, relisted, written, restored);
      if installed.Failure? {
        assert restored ==> dirs == old(dirs);
        return Failure(installed.error);
      }
      CalmEdit(old(targets), targets, replacement);
      ReleaseLock();
      return Success(RecordOf(replacement, t));
    }
  }
}
