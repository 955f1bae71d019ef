/**
 Launch exclusion: at most one launch of a target is under way, and `launching`
 says exactly whether one is.
 */
module Launch {
  import opened Config
  import opened Runtime
  import opened Machine
  import opened Agreement
  import opened Replica

  /** No target is online and launching at once. */
  ghost predicate Exclusive(s: Daemon) {
    forall n | n in s.targets :: !(s.targets[n].online && s.targets[n].launching)
  }

  predicate Launching(s: Daemon, name: string) { name in s.targets && s.targets[name].launching }

  /** At most one launch per name is under way, and the flag is set exactly while one is. */
  ghost predicate Accounted(s: Daemon) {
    forall n: string :: s.flights[n] == if Launching(s, n) then 1 else 0
  }

  /** The step does not pull a target away from under a launch of it. */
  predicate Undisturbed(s: Daemon, l: Label) {
    match l
    case Run(name, section, _) => section.DisabledOff? ==> name !in s.flights
    case Attach(name) => name !in s.flights
    case Commit =>
      s.mutation.Holding? && s.mutation.phase.Persisted? && !s.mutation.op.Add? ==> s.mutation.op.name !in s.flights
    case _ => true
  }

  lemma EditExclusive(s: Daemon, name: string, section: Section, prompt: bool)
    requires Exclusive(s)
    ensures Exclusive(EditTarget(s, name, section, prompt))
  {
    if name in s.targets { SectionFrame(section, s.targets[name]); }
  }

  lemma RunExclusive(s: Daemon, name: string, section: Section, prompt: bool)
    requires Exclusive(s)
    ensures Exclusive(RunSection(s, name, section, prompt))
  {
    EditExclusive(s, name, section, prompt);
  }

  lemma EndLaunchExclusive(s: Daemon, name: string, section: Section)
    requires Exclusive(s)
    ensures Exclusive(EndLaunch(s, name, section))
  {
    if name in s.flights { EditExclusive(s.(flights := s.flights - multiset{name}), name, section, true); }
  }

  lemma CommitExclusive(s: Daemon)
    requires Exclusive(s) && s.mutation.Holding? && s.mutation.phase.Persisted?
    ensures Exclusive(CommitCandidate(s))
  {
    hide SnapshotFrom, RecordOf;
  }

  lemma StepExclusive(s: Daemon, l: Label)
    requires Exclusive(s)
    ensures Exclusive(Step(s, l))
  {
    hide EditTarget, RunSection, EndLaunch, CommitCandidate, Proceed;
    match l
    case Run(name, section, prompt) => RunExclusive(s, name, section, prompt);
    case Attach(name) => EditExclusive(s, name, MarkOnline, true);
    case LaunchSucceeded(name) => EndLaunchExclusive(s, name, MarkOnline);
    case LaunchFailed(name) => EndLaunchExclusive(s, name, ClearLaunching);
    case Change(_, _, _) =>
    case Commit => if s.mutation.Holding? && s.mutation.phase.Persisted? { CommitExclusive(s); }
    case Send(_) =>
    case _ => BackstageStep(s, l);
  }

  // ---- Launch accounting, step by step ----

  /** The section leaves `launching` alone unless it claims or ends a launch. */
  lemma SectionLaunching(section: Section, t: RuntimeTarget)
    requires !(t.online && t.launching)
    ensures TargetAfter(section, t).launching
            == match section
               case Start => t.launching || (!t.config.disabled && !t.online)
               case ClearLaunching | DisabledOff | MarkOnline => false
               case _ => t.launching
  {
  }

  lemma EditLaunching(s: Daemon, name: string, section: Section, prompt: bool)
    ensures var t := EditTarget(s, name, section, prompt);
            && t.flights == s.flights
            && (forall n | n != name :: Launching(t, n) == Launching(s, n))
            && (Launching(t, name) <==> name in s.targets && TargetAfter(section, s.targets[name]).launching)
  {
  }

  lemma RunAccounts(s: Daemon, name: string, section: Section, prompt: bool)
    requires Exclusive(s) && Accounted(s) && !section.MarkOnline? && !section.ClearLaunching?
    ensures Accounted(RunSection(s, name, section, prompt)) <==> (section.DisabledOff? ==> name !in s.flights)
  {
    var t := RunSection(s, name, section, prompt);
    EditLaunching(s, name, section, prompt);
    if name in s.targets { SectionLaunching(section, s.targets[name]); }
    assert t.flights[name] == s.flights[name] + if section.Start? && ClaimsLaunch(s, name) then 1 else 0;
    assert Launching(t, name) == Launching(EditTarget(s, name, section, prompt), name);
    forall n | n != name ensures t.flights[n] == if Launching(t, n) then 1 else 0 {
      assert Launching(t, n) == Launching(EditTarget(s, name, section, prompt), n);
    }
  }

  lemma AttachAccounts(s: Daemon, name: string)
    requires Exclusive(s) && Accounted(s)
    ensures Accounted(EditTarget(s, name, MarkOnline, true)) <==> name !in s.flights
  {
    EditLaunching(s, name, MarkOnline, true);
    if name in s.targets { SectionLaunching(MarkOnline, s.targets[name]); }
    var t := EditTarget(s, name, MarkOnline, true);
    assert t.flights[name] == s.flights[name];
  }

  lemma EndLaunchAccounts(s: Daemon, name: string, section: Section)
    requires Exclusive(s) && Accounted(s) && (section.MarkOnline? || section.ClearLaunching?)
    ensures Accounted(EndLaunch(s, name, section))
  {
    if name in s.flights {
      var landed := s.(flights := s.flights - multiset{name});
      EditLaunching(landed, name, section, true);
      if name in s.targets { SectionLaunching(section, s.targets[name]); }
      var t := EndLaunch(s, name, section);
      forall n ensures t.flights[n] == if Launching(t, n) then 1 else 0 {
        assert Launching(landed, n) == Launching(s, n);
      }
    }
  }

  lemma EntryAccounts(s: Daemon, name: string, change: ConfigChange, written: bool)
    requires Accounted(s)
    ensures Accounted(ChangeEntry(s, name, change, written))
  {
    var t := ChangeEntry(s, name, change, written);
    forall n ensures t.flights[n] == if Launching(t, n) then 1 else 0 {
      assert Launching(t, n) == Launching(s, n);
    }
  }

  lemma RelistLaunching(op: Operation, targets: map<string, RuntimeTarget>, births: nat, n: string)
    requires Applicable(op, targets.Keys)
    ensures var t := RelistedTargets(op, targets, births);
            (n in t && t[n].launching)
            <==> match op
                 case Add(target) => n != target.name && n in targets && targets[n].launching
                 case Remove(name) => n != name && n in targets && targets[n].launching
                 case Rename(name, replacement) =>
                   if n == replacement then targets[name].launching
                   else n != name && n in targets && targets[n].launching
  {
  }

  /** Which names are launching after a commit. */
  lemma CommitLaunching(s: Daemon, n: string)
    requires Consistent(s) && s.mutation.Holding? && s.mutation.phase.Persisted?
    ensures Launching(CommitCandidate(s), n) ==
            match s.mutation.op
            case Add(target) => n != target.name && Launching(s, n)
            case Remove(name) => n != name && Launching(s, n)
            case Rename(name, replacement) =>
              if n == replacement then Launching(s, name) else n != name && Launching(s, n)
  {
    hide CommitCandidate, Consistent, EditedConfig, EditedList, Agree, RelistedTargets, SnapshotFrom;
    CandidateAtCommit(s);
    CommitEffect(s);
    RelistLaunching(s.mutation.op, s.targets, |s.history|, n);
  }

  lemma CommitAccounts(s: Daemon)
    requires Consistent(s) && Accounted(s) && s.mutation.Holding? && s.mutation.phase.Persisted?
    ensures Accounted(CommitCandidate(s)) <==> (s.mutation.op.Add? || s.mutation.op.name !in s.flights)
  {
    var t, op := CommitCandidate(s), s.mutation.op;
    assert t.flights == s.flights;
    if op.Add? || op.name !in s.flights {
      forall n ensures t.flights[n] == if Launching(t, n) then 1 else 0 {
        CommitLaunching(s, n);
        assert !op.Add? ==> s.flights[op.name] == 0;
        assert op.Add? ==> !Launching(s, op.target.name);
        assert op.Rename? ==> !Launching(s, op.replacement);
      }
    } else {
      CommitLaunching(s, op.name);
      assert t.flights[op.name] == 1 && !Launching(t, op.name);
    }
  }

  lemma BackstageAccounts(s: Daemon, t: Daemon)
    requires Accounted(s) && t.targets == s.targets && t.flights == s.flights
    ensures Accounted(t)
  {
    forall n ensures t.flights[n] == if Launching(t, n) then 1 else 0 {
      assert Launching(t, n) == Launching(s, n);
    }
  }

  lemma SectionStepAccounts(s: Daemon, l: Label)
    requires Exclusive(s) && Accounted(s) && (l.Run? || l.Attach? || l.LaunchSucceeded? || l.LaunchFailed?)
    ensures Accounted(Step(s, l)) <==> Undisturbed(s, l)
  {
    match l
    case Run(name, section, prompt) =>
      if !section.MarkOnline? && !section.ClearLaunching? { RunAccounts(s, name, section, prompt); }
    case Attach(name) => AttachAccounts(s, name);
    case LaunchSucceeded(name) => EndLaunchAccounts(s, name, MarkOnline);
    case LaunchFailed(name) => EndLaunchAccounts(s, name, ClearLaunching);
  }

  /**
   Exactly which steps break the accounting: those that take a target away from
   under a launch of it, by removing or renaming it, by switching it off as
   disabled, or by attaching to it at startup.
   */
  lemma StepAccounts(s: Daemon, l: Label)
    requires Consistent(s) && Exclusive(s) && Accounted(s)
    ensures Accounted(Step(s, l)) <==> Undisturbed(s, l)
  {
    hide Consistent, Exclusive, Accounted, ChangeEntry, EditTarget, CommitCandidate, RunSection, EndLaunch, Proceed;
    match l
    case Run(_, _, _) => SectionStepAccounts(s, l);
    case Attach(_) => SectionStepAccounts(s, l);
    case LaunchSucceeded(_) => SectionStepAccounts(s, l);
    case LaunchFailed(_) => SectionStepAccounts(s, l);
    case Change(name, change, written) => EntryAccounts(s, name, change, written);
    case Commit => if s.mutation.Holding? && s.mutation.phase.Persisted? { CommitAccounts(s); }
    case Send(_) => BackstageAccounts(s, Step(s, l));
    case _ =>
      BackstageStep(s, l);
      BackstageAccounts(s, Step(s, l));
  }

  // ---- Over runs ----

  lemma StartupLaunches(config: DaemonConfig, dirs: set<string>, pid: string)
    requires WellFormed(config)
    ensures Exclusive(Startup(config, dirs, pid)) && Accounted(Startup(config, dirs, pid))
  {
    var s := Startup(config, dirs, pid);
    BuildTargetsFresh(config.targets);
    assert forall n :: !Launching(s, n);
  }

  /** In every reachable state of every run no target is both online and launching. */
  lemma {:induction false} NeverOnlineAndLaunching(
      config: DaemonConfig, dirs: set<string>, pid: string, run: seq<Label>)
    requires WellFormed(config)
    ensures Exclusive(Exec(Startup(config, dirs, pid), run))
  {
    if run == [] {
      StartupLaunches(config, dirs, pid);
    } else {
      NeverOnlineAndLaunching(config, dirs, pid, run[..|run| - 1]);
      StepExclusive(Exec(Startup(config, dirs, pid), run[..|run| - 1]), run[|run| - 1]);
    }
  }

  /**
   Launch exclusion: as long as no step of the run disturbs a target mid-launch,
   at most one launch per target is under way, and `launching` is set exactly
   while one is.
   */
  lemma {:induction false} LaunchExclusion(
      config: DaemonConfig, dirs: set<string>, pid: string, run: seq<Label>, k: nat)
    requires WellFormed(config) && k <= |run|
    requires forall j | 0 <= j < k :: Undisturbed(Exec(Startup(config, dirs, pid), run[..j]), run[j])
    ensures Accounted(Exec(Startup(config, dirs, pid), run[..k]))
  {
    hide Step, Accounted, Exclusive, Consistent, Undisturbed;
    if k == 0 {
      StartupLaunches(config, dirs, pid);
    } else {
      LaunchExclusion(config, dirs, pid, run, k - 1);
      NeverOnlineAndLaunching(config, dirs, pid, run[..k - 1]);
      AgreementOverRuns(config, dirs, pid, run[..k - 1]);
      ExecPrefix(Startup(config, dirs, pid), run, k - 1);
      StepAccounts(Exec(Startup(config, dirs, pid), run[..k - 1]), run[k - 1]);
    }
  }

  lemma SectionLands(s: Daemon, name: string, section: Section)
    requires name in s.targets && !section.Start?
    ensures var t := RunSection(s, name, section, true);
            name in t.targets && t.targets[name] == TargetAfter(section, s.targets[name]) && t.flights == s.flights
  {
    hide EditOf;
  }

  lemma ClaimLands(s: Daemon, name: string)
    requires ClaimsLaunch(s, name)
    ensures var t := RunSection(s, name, Start, true);
            Launching(t, name) && t.flights == s.flights + multiset{name}
  {
    EditLaunching(s, name, Start, true);
  }

  /** What a disturbance costs: switching a target off mid-launch lets the next start launch it a second time. */
  lemma DisturbedLaunchesTwice(s: Daemon, name: string)
    requires Exclusive(s) && Accounted(s) && Launching(s, name) && !s.targets[name].config.disabled
    ensures var t := RunSection(RunSection(s, name, DisabledOff, true), name, Start, true);
            t.flights[name] == 2 && Launching(t, name)
  {
    assert s.flights[name] == 1;
    var u := RunSection(s, name, DisabledOff, true);
    SectionLands(s, name, DisabledOff);
    SectionFrame(DisabledOff, s.targets[name]);
    assert !u.targets[name].online && !u.targets[name].launching;
    hide RunSection, Accounted, Exclusive;
    ClaimLands(u, name);
  }

  lemma Landing(s: Daemon, name: string)
    requires name in s.targets && !s.targets[name].online && name in s.flights
    ensures var t := EndLaunch(s, name, MarkOnline);
            name in t.targets && t.targets[name] == TargetAfter(MarkOnline, s.targets[name])
  {
  }

  /** Stopping does not reach a launch under way: the target ends up stopped and online. */
  lemma StopDuringLaunch(s: Daemon, name: string)
    requires name in s.targets && !s.targets[name].stopped && !s.targets[name].online && name in s.flights
    ensures var t := EndLaunch(RunSection(s, name, Stop, true), name, MarkOnline);
            name in t.targets && t.targets[name].stopped && t.targets[name].online
  {
    var stopped := RunSection(s, name, Stop, true);
    SectionLands(s, name, Stop);
    Landing(stopped, name);
  }

  // ---- Runs from startup that show it ----

  /** Starting an enabled target claims its launch. */
  lemma StartClaims(s: Daemon, name: string)
    requires ClaimsLaunch(s, name)
    ensures var t := Step(s, Run(name, Start, true));
            && name in t.targets && t.flights == s.flights + multiset{name}
            && t.targets[name].config == s.targets[name].config && t.targets[name].launching
            && !t.targets[name].stopped && !t.targets[name].online && t.mutation == s.mutation
  {
    hide Proceed, TakeCommit, ChangeEntry, EndLaunch, StartAdd, StartRename, SendLate, RecordOf;
  }

  lemma SectionRuns(s: Daemon, name: string, section: Section)
    requires name in s.targets && !section.Start? && !section.MarkOnline? && !section.ClearLaunching?
    ensures var t := Step(s, Run(name, section, true));
            && name in t.targets && t.targets[name] == TargetAfter(section, s.targets[name])
            && t.flights == s.flights && t.mutation == s.mutation
  {
    hide Proceed, TakeCommit, ChangeEntry, EndLaunch, StartAdd, StartRename, SendLate, EditOf, RunSection;
    SectionLands(s, name, section);
    SectionMutation(s, name, section);
  }

  lemma SectionMutation(s: Daemon, name: string, section: Section)
    ensures RunSection(s, name, section, true).mutation == s.mutation
  {
    hide EditOf, RecordOf;
  }

  /** A configured target as it stands right after startup. */
  lemma AtStartup(config: DaemonConfig, dirs: set<string>, pid: string, c: TargetConfig)
    requires WellFormed(config) && c in config.targets && !c.disabled
    ensures var s := Startup(config, dirs, pid);
            && Consistent(s) && s.mutation.Unlocked? && s.flights == multiset{} && s.unsent == []
            && ClaimsLaunch(s, c.name) && s.targets[c.name].config == c && !s.targets[c.name].stopped
  {
    hide Step;
    AgreementOverRuns(config, dirs, pid, []);
    BuildTargetsFresh(config.targets);
  }

  /** For every enabled target there is a run that stops it during its launch and ends with it stopped and online. */
  lemma StoppedAndOnline(config: DaemonConfig, dirs: set<string>, pid: string, c: TargetConfig)
    requires WellFormed(config) && c in config.targets && !c.disabled
    ensures var run := [Run(c.name, Start, true), Run(c.name, Stop, true), LaunchSucceeded(c.name)];
            var t := Exec(Startup(config, dirs, pid), run);
            c.name in t.targets && t.targets[c.name].stopped && t.targets[c.name].online
  {
    hide Exec, Step, Startup, Consistent, WellFormed, ClaimsLaunch, TargetAfter;
    var name, s := c.name, Startup(config, dirs, pid);
    AtStartup(config, dirs, pid, c);
    ThreeSteps(s, [Run(name, Start, true), Run(name, Stop, true), LaunchSucceeded(name)]);
    StartClaims(s, name);
    var started := Step(s, Run(name, Start, true));
    SectionRuns(started, name, Stop);
    StopsStarted(started.targets[name]);
    Lands(Step(started, Run(name, Stop, true)), name);
  }

  lemma StopsStarted(t: RuntimeTarget)
    requires !t.stopped && !t.online
    ensures TargetAfter(Stop, t).stopped && !TargetAfter(Stop, t).online
    ensures TargetAfter(Stop, t).config == t.config && TargetAfter(Stop, t).launching == t.launching
  {
  }

  lemma Lands(s: Daemon, name: string)
    requires name in s.targets && s.targets[name].stopped && !s.targets[name].online && name in s.flights
    ensures var t := Step(s, LaunchSucceeded(name));
            name in t.targets && t.targets[name].stopped && t.targets[name].online
  {
    hide Proceed, TakeCommit, ChangeEntry, StartAdd, StartRename, SendLate, RunLabel;
    Landing(s, name);
  }

  /** Switching the persistent flag of a target. */
  lemma FlagGoes(s: Daemon, name: string, disabled: bool)
    requires Consistent(s) && s.mutation.Unlocked? && name in s.targets && s.targets[name].config.disabled != disabled
    ensures var t := Step(s, Change(name, SetDisabled(disabled), true));
            && t.mutation == s.mutation && t.flights == s.flights && name in t.targets
            && t.targets[name] == Bump(s.targets[name].(config := s.targets[name].config.(disabled := disabled)))
  {
    hide Proceed, TakeCommit, RunLabel, EndLaunch, StartAdd, StartRename, SendLate, RecordOf, Accountable, ValidTarget;
    IndexOfMember(s.config.targets, s.targets, name);
    var i := IndexOf(s.config.targets, name);
    var entry := Changed(s.config.targets[i], SetDisabled(disabled));
    ReplacedMembers(s.config.targets, i, entry);
    FlagKeepsValid(s.config.targets[i], disabled);
  }

  lemma FlagKeepsValid(c: TargetConfig, disabled: bool)
    ensures ValidTarget(c.(disabled := disabled)) == ValidTarget(c)
  {
  }

  /** Its launch is claimed, it is disabled and restarted, which switches it off, and then enabled and started again. */
  function Relaunched(name: string): seq<Label> {
    [Run(name, Start, true), Run(name, Stop, true), Change(name, SetDisabled(true), true),
     Run(name, DisabledOff, true), Change(name, SetDisabled(false), true), Run(name, Start, true)]
  }

  /** For every enabled target there is a run after which two launches of it are under way. */
  lemma LaunchedTwice(config: DaemonConfig, dirs: set<string>, pid: string, c: TargetConfig)
    requires WellFormed(config) && c in config.targets && !c.disabled
    ensures Exec(Startup(config, dirs, pid), Relaunched(c.name)).flights[c.name] == 2
  {
    hide Exec, Step, Startup, Consistent, WellFormed, TargetAfter;
    var name, s, l := c.name, Startup(config, dirs, pid), Relaunched(c.name);
    AtStartup(config, dirs, pid, c);
    SixSteps(s, l);
    StartClaims(s, name);
    var started := Step(s, l[0]);
    SectionRuns(started, name, Stop);
    StopsStarted(started.targets[name]);
    var stopped := Step(started, l[1]);
    StepKeepsConsistency(s, l[0]);
    StepKeepsConsistency(started, l[1]);
    FlagGoes(stopped, name, true);
    var disabled := Step(stopped, l[2]);
    StepKeepsConsistency(stopped, l[2]);
    SectionRuns(disabled, name, DisabledOff);
    SwitchedOff(disabled.targets[name]);
    var off := Step(disabled, l[3]);
    StepKeepsConsistency(disabled, l[3]);
    FlagGoes(off, name, false);
    var enabled := Step(off, l[4]);
    StartClaims(enabled, name);
  }

  lemma SwitchedOff(t: RuntimeTarget)
    ensures var u := TargetAfter(DisabledOff, t); !u.online && !u.launching && u.stopped && u.config == t.config
  {
  }
}
