/**
 A stopped target should be offline.  It is not always: these are exactly the
 steps that leave a target stopped and online, and exactly those that end it.
 */
module Stranded {
  import opened Config
  import opened Runtime
  import opened Machine
  import opened Agreement
  import opened Replica

  predicate StrandedIn(targets: map<string, RuntimeTarget>, name: string) {
    name in targets && targets[name].stopped && targets[name].online
  }

  predicate IsStranded(s: Daemon, name: string) { StrandedIn(s.targets, name) }

  predicate StoppedOffline(s: Daemon, name: string) {
    name in s.targets && s.targets[name].stopped && !s.targets[name].online
  }

  predicate RunningOnline(s: Daemon, name: string) {
    name in s.targets && !s.targets[name].stopped && s.targets[name].online
  }

  predicate Commits(s: Daemon) { s.mutation.Holding? && s.mutation.phase.Persisted? }

  /** The step makes this target stopped and online: it stops it, or brings it up although it is stopped. */
  predicate Strands(s: Daemon, l: Label, name: string) {
    match l
    case Run(n, section, _) => n == name && section.Stop? && RunningOnline(s, name)
    case Attach(n) => n == name && StoppedOffline(s, name)
    case LaunchSucceeded(n) => n == name && name in s.flights && StoppedOffline(s, name)
    case Commit =>
      Commits(s) && s.mutation.op.Rename? && s.mutation.op.replacement == name && IsStranded(s, s.mutation.op.name)
    case _ => false
  }

  /** The step ends it: it starts the target or takes it offline, or the name goes. */
  predicate Rescues(s: Daemon, l: Label, name: string) {
    match l
    case Run(n, section, _) =>
      n == name && ((section.Start? && name in s.targets && !s.targets[name].config.disabled)
                    || section.MarkOffline? || section.TargetLost? || section.DisabledOff?)
    case Commit => Commits(s) && !s.mutation.op.Add? && s.mutation.op.name == name
    case _ => false
  }

  /** What a section does to the two flags. */
  lemma SectionFlags(section: Section, t: RuntimeTarget)
    ensures TargetAfter(section, t).stopped
            == match section
               case Start => t.stopped && t.config.disabled
               case Stop | DisabledOff => true
               case _ => t.stopped
    ensures TargetAfter(section, t).online
            == match section
               case MarkOnline => true
               case MarkOffline | TargetLost | DisabledOff => false
               case _ => t.online
  {
  }

  lemma EditStrands(s: Daemon, name: string, section: Section, prompt: bool, n: string)
    ensures IsStranded(EditTarget(s, name, section, prompt), n)
            <==> n in s.targets
                 && (var t := if n == name then TargetAfter(section, s.targets[n]) else s.targets[n];
                     t.stopped && t.online)
  {
    hide EditOf, RecordOf;
  }

  lemma RunStrands(s: Daemon, name: string, section: Section, prompt: bool, n: string)
    ensures var l, t := Run(name, section, prompt), RunLabel(s, name, section, prompt);
            IsStranded(t, n) <==> Strands(s, l, n) || (IsStranded(s, n) && !Rescues(s, l, n))
  {
    hide EditTarget, TargetAfter;
    EditStrands(s, name, section, prompt, n);
    if n in s.targets { SectionFlags(section, s.targets[n]); }
    assert IsStranded(RunSection(s, name, section, prompt), n) == IsStranded(EditTarget(s, name, section, prompt), n);
  }

  lemma EndLaunchStrands(s: Daemon, name: string, section: Section, n: string)
    requires section.MarkOnline? || section.ClearLaunching?
    ensures IsStranded(EndLaunch(s, name, section), n)
            <==> IsStranded(s, n) || (section.MarkOnline? && n == name && name in s.flights && StoppedOffline(s, n))
  {
    hide EditTarget, TargetAfter;
    var landed := s.(flights := s.flights - multiset{name});
    EditStrands(landed, name, section, true, n);
    if n in s.targets { SectionFlags(section, s.targets[n]); }
  }

  lemma AttachStrands(s: Daemon, name: string, n: string)
    ensures IsStranded(EditTarget(s, name, MarkOnline, true), n)
            <==> IsStranded(s, n) || (n == name && StoppedOffline(s, n))
  {
    hide EditTarget, TargetAfter;
    EditStrands(s, name, MarkOnline, true, n);
    if n in s.targets { SectionFlags(MarkOnline, s.targets[n]); }
  }

  lemma RelistStrands(op: Operation, targets: map<string, RuntimeTarget>, births: nat, n: string)
    requires Applicable(op, targets.Keys)
    ensures StrandedIn(RelistedTargets(op, targets, births), n)
            <==> match op
                 case Add(_) => StrandedIn(targets, n)
                 case Remove(name) => n != name && StrandedIn(targets, n)
                 case Rename(name, replacement) =>
                   if n == replacement then StrandedIn(targets, name) else n != name && StrandedIn(targets, n)
  {
  }

  lemma CommitStrands(s: Daemon, n: string)
    requires Consistent(s) && Commits(s)
    ensures IsStranded(CommitCandidate(s), n)
            <==> Strands(s, Commit, n) || (IsStranded(s, n) && !Rescues(s, Commit, n))
  {
    hide CommitCandidate, Consistent, EditedConfig, EditedList, Agree, RelistedTargets, SnapshotFrom;
    CandidateAtCommit(s);
    CommitEffect(s);
    RelistStrands(s.mutation.op, s.targets, |s.history|, n);
  }

  lemma EntryStrands(s: Daemon, name: string, change: ConfigChange, written: bool, n: string)
    ensures IsStranded(ChangeEntry(s, name, change, written), n) == IsStranded(s, n)
  {
    hide WellFormed, RecordOf, ChangeFields;
  }

  /** Exactly which steps leave a target stopped and online, and exactly which steps end that. */
  lemma StepStrands(s: Daemon, l: Label, name: string)
    requires Consistent(s)
    ensures IsStranded(Step(s, l), name)
            <==> Strands(s, l, name) || (IsStranded(s, name) && !Rescues(s, l, name))
  {
    hide Consistent, RunLabel, EditTarget, EndLaunch, ChangeEntry, CommitCandidate, Proceed;
    match l
    case Run(n, section, prompt) => RunStrands(s, n, section, prompt, name);
    case Attach(n) => AttachStrands(s, n, name);
    case LaunchSucceeded(n) => EndLaunchStrands(s, n, MarkOnline, name);
    case LaunchFailed(n) => EndLaunchStrands(s, n, ClearLaunching, name);
    case Change(n, change, written) => EntryStrands(s, n, change, written, name);
    case Commit => if Commits(s) { CommitStrands(s, name); }
    case Send(_) =>
    case _ => BackstageStep(s, l);
  }

  // ---- Over runs ----

  /** Step `j` of the run strands the target, and none after it until step `k` ends that. */
  ghost predicate StrandedSince(start: Daemon, run: seq<Label>, j: nat, k: nat, name: string)
    requires j < k <= |run|
  {
    && Strands(Exec(start, run[..j]), run[j], name)
    && forall m | j < m < k :: !Rescues(Exec(start, run[..m]), run[m], name)
  }

  /**
   Over whole runs: after any step `k` of any run a target is stopped and online if
   and only if some earlier step stranded it and no step since has ended that.
   */
  lemma {:induction false} StrandedExactly(
      config: DaemonConfig, dirs: set<string>, pid: string, run: seq<Label>, k: nat, name: string)
    requires WellFormed(config) && k <= |run|
    ensures IsStranded(Exec(Startup(config, dirs, pid), run[..k]), name)
            <==> exists j: nat :: j < k && StrandedSince(Startup(config, dirs, pid), run, j, k, name)
  {
    hide Step, Consistent, Startup, WellFormed, Strands, Rescues, IsStranded;
    var start := Startup(config, dirs, pid);
    if k == 0 {
      NoneAtStartup(config, dirs, pid, name);
    } else {
      StrandedExactly(config, dirs, pid, run, k - 1, name);
      ExecPrefix(start, run, k - 1);
      AgreementOverRuns(config, dirs, pid, run[..k - 1]);
      StepStrands(Exec(start, run[..k - 1]), run[k - 1], name);
      OneStepLonger(start, run, k - 1, k, name);
    }
  }

  lemma NoneAtStartup(config: DaemonConfig, dirs: set<string>, pid: string, name: string)
    requires WellFormed(config)
    ensures !IsStranded(Startup(config, dirs, pid), name)
  {
    BuildTargetsFresh(config.targets);
  }

  lemma OneStepLonger(start: Daemon, run: seq<Label>, k: nat, next: nat, name: string)
    requires next == k + 1 <= |run|
    ensures (exists j: nat :: j < next && StrandedSince(start, run, j, next, name))
            <==> Strands(Exec(start, run[..k]), run[k], name)
                 || ((exists j: nat :: j < k && StrandedSince(start, run, j, k, name))
                     && !Rescues(Exec(start, run[..k]), run[k], name))
  {
    hide Exec, Step, Strands, Rescues;
    if Strands(Exec(start, run[..k]), run[k], name) {
      assert StrandedSince(start, run, k, next, name);
    }
    if j: nat :| j < k && StrandedSince(start, run, j, k, name) {
      if !Rescues(Exec(start, run[..k]), run[k], name) { assert StrandedSince(start, run, j, next, name); }
    }
    if j: nat :| j < next && StrandedSince(start, run, j, next, name) {
      if j < k { assert StrandedSince(start, run, j, k, name); }
    }
  }
}
