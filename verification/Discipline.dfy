/**
 Revision discipline over every step of every operation: a target's revision
 rises by exactly one when its visible record changes and stays put otherwise,
 and each rise comes with exactly one change event, which maps the old record
 to the new one.
 */
module Discipline {
  import opened Wrappers
  import opened Fields
  import opened Delta
  import opened Config
  import opened Runtime
  import opened Machine
  import opened Agreement
  import opened Replica

  /** One target, before and after. */
  ghost predicate Disciplined(name: string, t: RuntimeTarget, u: RuntimeTarget) {
    && u.incarnation == t.incarnation
    && u.revision == t.revision + if Visible(name, u) != Visible(name, t) then 1 else 0
  }

  /** The same for every target that has its name before and after. */
  ghost predicate AllDisciplined(s: Daemon, t: Daemon) {
    forall n | n in s.targets && n in t.targets :: Disciplined(n, s.targets[n], t.targets[n])
  }

  /** The event is the change from the one state of a target to the other. */
  ghost predicate IsChangeOf(e: Sent, name: string, t: RuntimeTarget, u: RuntimeTarget) {
    && e.event.TargetChanged? && e.event.target == name && e.event.revision == u.revision && e.event.changed.Obj?
    && e.incarnation == u.incarnation
    && var changes := FromObject(e.event.changed.fields);
       && changes.Some?
       && ApplyChanges(RecordOf(name, t), changes.value) == Some(RecordOf(name, u).(revision := t.revision))
  }

  /** Exactly one event has been announced, at once or for later. */
  ghost predicate AnnouncesOne(s: Daemon, t: Daemon, e: Sent) {
    || (t.log == s.log + [e] && t.unsent == s.unsent)
    || (t.log == s.log && t.unsent == s.unsent + [e])
  }

  ghost predicate AnnouncesNothing(s: Daemon, t: Daemon) { t.log == s.log && t.unsent == s.unsent }

  /** Which target a step edits, if it edits one. */
  function Edits(l: Label): Option<string> {
    match l
    case Run(name, _, _) => Some(name)
    case Attach(name) => Some(name)
    case LaunchSucceeded(name) => Some(name)
    case LaunchFailed(name) => Some(name)
    case Change(name, _, _) => Some(name)
    case _ => None
  }

  /** What an edit of one target does: discipline for it, nothing for the others, an event exactly if it is seen. */
  ghost predicate EditedProperly(s: Daemon, t: Daemon, name: string) {
    && t.targets.Keys == s.targets.Keys
    && (forall n | n in s.targets && n != name :: t.targets[n] == s.targets[n])
    && (name !in s.targets ==> AnnouncesNothing(s, t))
    && (name in s.targets ==> Disciplined(name, s.targets[name], t.targets[name]))
    && (name in s.targets ==>
          if Visible(name, t.targets[name]) == Visible(name, s.targets[name]) then AnnouncesNothing(s, t)
          else exists e :: AnnouncesOne(s, t, e) && IsChangeOf(e, name, s.targets[name], t.targets[name]))
  }

  lemma NotEdited(s: Daemon, t: Daemon, name: string)
    requires t.targets == s.targets && t.log == s.log && t.unsent == s.unsent
    ensures EditedProperly(s, t, name)
  {
  }

  lemma AnnouncedProperly(
      s: Daemon, edited: Daemon, name: string, u: RuntimeTarget, changes: Changes, atOnce: bool)
    requires edited.targets == s.targets && edited.log == s.log && edited.unsent == s.unsent
    requires name in s.targets && u.incarnation == s.targets[name].incarnation
    requires u.revision == s.targets[name].revision + 1 && Visible(name, u) != Visible(name, s.targets[name])
    requires ApplyChanges(RecordOf(name, s.targets[name]), changes)
             == Some(RecordOf(name, u).(revision := s.targets[name].revision))
    ensures EditedProperly(s, Announce(edited, name, u, changes, atOnce), name)
  {
    hide ApplyChanges, ToObject, FromObject, RecordOf, Visible;
    var t, e := Announce(edited, name, u, changes, atOnce), ChangeEvent(name, u, changes);
    ObjectRoundTrip(changes);
    assert AnnouncesOne(s, t, e) && IsChangeOf(e, name, s.targets[name], t.targets[name]);
  }

  lemma SectionEditsProperly(s: Daemon, name: string, section: Section, prompt: bool)
    ensures EditedProperly(s, EditTarget(s, name, section, prompt), name)
  {
    hide EditOf, ApplyChanges, Visible, RecordOf;
    if name in s.targets {
      var t := s.targets[name];
      RevisionDiscipline(name, section, t);
      SectionFrame(section, t);
      if EditOf(section, t).Announced? {
        var e := EditOf(section, t);
        AnnouncementIsExact(name, section, t);
        AnnouncedProperly(s, s, name, e.t, e.changes, prompt || !SendsAfterUnlock(section));
      }
    }
  }

  lemma EntryEditsProperly(s: Daemon, name: string, change: ConfigChange, written: bool)
    requires Consistent(s)
    ensures EditedProperly(s, ChangeEntry(s, name, change, written), name)
  {
    hide ApplyChanges, EditedProperly, WellFormed, Announce;
    NotEdited(s, s, name);
    IndexOfMember(s.config.targets, s.targets, name);
    var i := IndexOf(s.config.targets, name);
    if i < |s.config.targets| && Changed(s.config.targets[i], change) != s.config.targets[i] {
      var t, entry := s.targets[name], Changed(s.config.targets[i], change);
      var candidate := s.config.(targets := s.config.targets[i := entry]);
      EntryIsExact(name, t, change);
      AnnouncedProperly(s, s.(config := candidate, disk := candidate), name, Bump(t.(config := entry)),
                        ChangeFields(change), true);
    }
  }

  lemma RunEditsProperly(s: Daemon, name: string, section: Section, prompt: bool)
    ensures EditedProperly(s, RunLabel(s, name, section, prompt), name)
  {
    hide EditTarget, IsChangeOf, Visible, RecordOf;
    NotEdited(s, s, name);
    SectionEditsProperly(s, name, section, prompt);
    SameViewEditedProperly(s, EditTarget(s, name, section, prompt), s, RunSection(s, name, section, prompt), name);
  }

  lemma SameViewEditedProperly(s: Daemon, t: Daemon, s': Daemon, t': Daemon, name: string)
    requires EditedProperly(s, t, name) && SameView(s, s') && SameView(t, t')
    ensures EditedProperly(s', t', name)
  {
    hide IsChangeOf, Visible, RecordOf;
    if name in s.targets && Visible(name, t.targets[name]) != Visible(name, s.targets[name]) {
      var e :| AnnouncesOne(s, t, e) && IsChangeOf(e, name, s.targets[name], t.targets[name]);
      assert AnnouncesOne(s', t', e);
    }
  }

  lemma EndLaunchEditsProperly(s: Daemon, name: string, section: Section)
    ensures EditedProperly(s, EndLaunch(s, name, section), name)
  {
    hide EditTarget, EditedProperly;
    NotEdited(s, s, name);
    if name in s.flights {
      var landed := s.(flights := s.flights - multiset{name});
      SectionEditsProperly(landed, name, section, true);
      SameViewEditedProperly(landed, EditTarget(landed, name, section, true), s, EndLaunch(s, name, section), name);
    }
  }

  /** Every step that edits one target announces the edit exactly if a client can see it, with exactly one event. */
  lemma StepAnnounces(s: Daemon, l: Label)
    requires Consistent(s) && Edits(l).Some?
    ensures EditedProperly(s, Step(s, l), Edits(l).value)
  {
    hide EditTarget, EditedProperly, ChangeEntry, EndLaunch, RunLabel, Consistent;
    match l
    case Run(name, section, prompt) => RunEditsProperly(s, name, section, prompt);
    case Attach(name) => SectionEditsProperly(s, name, MarkOnline, true);
    case LaunchSucceeded(name) => EndLaunchEditsProperly(s, name, MarkOnline);
    case LaunchFailed(name) => EndLaunchEditsProperly(s, name, ClearLaunching);
    case Change(name, change, written) => EntryEditsProperly(s, name, change, written);
  }

  lemma RelistKeepsOthers(op: Operation, targets: map<string, RuntimeTarget>, births: nat)
    requires Applicable(op, targets.Keys)
    ensures var t := RelistedTargets(op, targets, births);
            && (forall n | n in targets && n in t :: t[n] == targets[n])
            && (op.Rename? ==> op.replacement in t
                               && t[op.replacement].revision == targets[op.name].revision + 1
                               && t[op.replacement].incarnation == targets[op.name].incarnation)
  {
  }

  lemma CommitDisciplined(s: Daemon)
    requires Consistent(s) && s.mutation.Holding? && s.mutation.phase.Persisted?
    ensures AllDisciplined(s, CommitCandidate(s))
    ensures forall n | n in s.targets && n in CommitCandidate(s).targets ::
              CommitCandidate(s).targets[n] == s.targets[n]
    ensures s.mutation.op.Rename? ==>
              var u := CommitCandidate(s).targets;
              && s.mutation.op.name in s.targets && s.mutation.op.replacement in u
              && u[s.mutation.op.replacement].revision == s.targets[s.mutation.op.name].revision + 1
              && u[s.mutation.op.replacement].incarnation == s.targets[s.mutation.op.name].incarnation
  {
    hide CommitCandidate, Consistent, EditedConfig, EditedList, Agree, Visible, RelistedTargets, SnapshotFrom;
    CandidateAtCommit(s);
    CommitEffect(s);
    RelistKeepsOthers(s.mutation.op, s.targets, |s.history|);
  }

  /** Over every step, every target that has its name before and after obeys the revision discipline. */
  lemma StepDiscipline(s: Daemon, l: Label)
    requires Consistent(s)
    ensures AllDisciplined(s, Step(s, l))
  {
    hide Consistent, CommitCandidate, ChangeEntry, EditTarget, EndLaunch, RunLabel, Visible, Proceed, IsChangeOf;
    if Edits(l).Some? {
      StepAnnounces(s, l);
    } else if l.Commit? {
      if s.mutation.Holding? && s.mutation.phase.Persisted? { CommitDisciplined(s); }
    } else if !l.Send? {
      BackstageStep(s, l);
    }
  }

  /**
   Over whole runs: between any two moments of any run, as long as a target keeps
   its incarnation and its name, its revision never falls, and it has risen if it
   looks different.
   */
  lemma {:induction false} RevisionsOverRuns(
      config: DaemonConfig, dirs: set<string>, pid: string, run: seq<Label>, i: nat, k: nat, name: string)
    requires WellFormed(config) && i <= k <= |run|
    requires forall j | i <= j <= k :: name in Exec(Startup(config, dirs, pid), run[..j]).targets
    ensures var t := Exec(Startup(config, dirs, pid), run[..i]).targets[name];
            var u := Exec(Startup(config, dirs, pid), run[..k]).targets[name];
            && u.incarnation == t.incarnation
            && t.revision <= u.revision <= t.revision + (k - i)
            && (u.revision == t.revision ==> Visible(name, u) == Visible(name, t))
  {
    hide Step, Exec, Startup, Consistent, Visible, WellFormed, AllDisciplined;
    if i < k {
      RevisionsOverRuns(config, dirs, pid, run, i, k - 1, name);
      ExecPrefix(Startup(config, dirs, pid), run, k - 1);
      AgreementOverRuns(config, dirs, pid, run[..k - 1]);
      var s := Exec(Startup(config, dirs, pid), run[..k - 1]);
      StepDiscipline(s, run[k - 1]);
      OneDisciplined(s, Step(s, run[k - 1]), name);
    }
  }

  lemma OneDisciplined(s: Daemon, t: Daemon, name: string)
    requires AllDisciplined(s, t) && name in s.targets && name in t.targets
    ensures Disciplined(name, s.targets[name], t.targets[name])
  {
    hide Disciplined;
  }
}
