/**
 What an event that waited does to a connected client: exactly when it is
 accepted, exactly when it then leaves the client with a record its target never
 had, and a run in which that happens.
 */
module LateEvents {
  import opened Wrappers
  import opened Protocol
  import opened Fields
  import opened Delta
  import opened Observed
  import opened Config
  import opened Ordering
  import opened HealthReport
  import opened Runtime
  import opened Machine
  import opened Receiver
  import opened Agreement
  import opened Replica
  import opened Divergence

  /** A fresh event never carries a revision beyond its target's own. */
  lemma FreshIsNeverNext(s: Daemon, e: Sent)
    requires Recorded(s) && Sound(s.history, e) && e.event.TargetChanged? && OnCurrent(s, e)
    requires e.event.target in s.targets
    ensures e.event.revision <= s.targets[e.event.target].revision
  {
    assert Current(s.history, e.event.target, s.targets[e.event.target]);
  }

  // ---- Exactly when an event is accepted ----

  /** Every event the daemon ever computes decodes, whatever record it meets. */
  lemma SoundDecodes(h: History, e: Sent, r: TargetRecord)
    requires Sound(h, e) && e.event.TargetChanged?
    ensures e.event.changed.Obj? && FromObject(e.event.changed.fields).Some?
    ensures ApplyChanges(r, FromObject(e.event.changed.fields).value).Some?
  {
    hide ApplyChanges;
    AcceptanceIsOfValues(h[e.incarnation][e.event.revision - 1], r, FromObject(e.event.changed.fields).value);
  }

  /** The record a decodable change leaves behind. */
  ghost function Landed(r: TargetRecord, e: Sent): TargetRecord
    requires e.event.TargetChanged? && e.event.changed.Obj?
  {
    var changes := FromObject(e.event.changed.fields);
    if changes.Some? && ApplyChanges(r, changes.value).Some?
    then ApplyChanges(r, changes.value).value.(revision := e.event.revision)
    else r
  }

  /** The client accepts an event of the daemon's if and only if it is listed and its revision is the next one. */
  lemma AcceptedExactly(h: History, held: Snapshot, e: Sent)
    requires Sound(h, e) && e.event.TargetChanged?
    ensures var i := Find(held.targets, e.event.target);
            if i == |held.targets| then Receive(Following(held), e) == Ended(UnknownTarget(e.event.target))
            else if e.event.revision != held.targets[i].revision + 1
            then Receive(Following(held), e) == Ended(RevisionGap(held.targets[i].revision + 1, e.event.revision))
            else
              var targets := held.targets[i := Landed(held.targets[i], e)];
              Receive(Following(held), e) == Following(held.(targets := targets, health := HealthOf(targets)))
  {
    hide ApplyChanges, FromObject, HealthOf, Find;
    var i := Find(held.targets, e.event.target);
    if i < |held.targets| { SoundDecodes(h, e, held.targets[i]); }
  }

  // ---- Exactly when an accepted event is harmless ----

  lemma ReplacedFaithfulExactly(held: Snapshot, s: Daemon, i: nat, r: TargetRecord)
    requires Faithful(Following(held), s) && i < |held.targets|
    ensures Faithful(Following(held.(targets := held.targets[i := r], health := HealthOf(held.targets[i := r]))), s)
            <==> Historical(r, SortedKeys(s.targets.Keys)[i], s)
  {
    hide Historical, HealthOf;
    var t := held.(targets := held.targets[i := r], health := HealthOf(held.targets[i := r]));
    if Faithful(Following(t), s) { assert Historical(t.targets[i], SortedKeys(s.targets.Keys)[i], s); }
    if Historical(r, SortedKeys(s.targets.Keys)[i], s) { ReplacedFaithful(held, s, i, r); }
  }

  /** In a faithful client the record found under a name stands where the daemon lists that name. */
  lemma FoundAt(held: Snapshot, s: Daemon, name: string)
    requires Faithful(Following(held), s) && Find(held.targets, name) < |held.targets|
    ensures SortedKeys(s.targets.Keys)[Find(held.targets, name)] == name && name in s.targets
  {
    var i := Find(held.targets, name);
    assert Historical(held.targets[i], SortedKeys(s.targets.Keys)[i], s);
  }

  lemma CurrentLandsFaithfully(s: Daemon, held: Snapshot, e: Sent)
    requires Recorded(s) && Sound(s.history, e) && e.event.TargetChanged? && OnCurrent(s, e)
    requires Faithful(Following(held), s)
    ensures Faithful(Receive(Following(held), e), s)
  {
    ChangeFaithful(Following(held), s, e);
  }

  /**
   What a waiting event does to any connected client that is faithful so far.  The
   client stays connected if and only if the event's revision is the next one for
   the record it holds.  It then holds that record changed by the event, and is
   still faithful if and only if that is the record the target of today had at
   that revision.  For an event of the target of today this is always so.
   */
  lemma LateEventVerdict(s: Daemon, held: Snapshot, e: Sent)
    requires Recorded(s) && Faithful(Following(held), s) && e in s.unsent
    ensures e.event.TargetChanged? && e.event.changed.Obj?
    ensures var i, c := Find(held.targets, e.event.target), Receive(Following(held), e);
            && (c.Following? <==> i < |held.targets| && e.event.revision == held.targets[i].revision + 1)
            && (c.Following? ==>
                  && c.snapshot.targets == held.targets[i := Landed(held.targets[i], e)]
                  && (Faithful(c, s) <==> Historical(Landed(held.targets[i], e), e.event.target, s))
                  && (OnCurrent(s, e) ==> Faithful(c, s)))
  {
    hide Historical, ApplyChanges, FromObject, HealthOf, Current, Tracked, Find, OnCurrent, Receive;
    assert Sound(s.history, e);
    AcceptedExactly(s.history, held, e);
    var i := Find(held.targets, e.event.target);
    if i < |held.targets| && e.event.revision == held.targets[i].revision + 1 {
      SoundDecodes(s.history, e, held.targets[i]);
      FoundAt(held, s, e.event.target);
      ReplacedFaithfulExactly(held, s, i, Landed(held.targets[i], e));
      if OnCurrent(s, e) { CurrentLandsFaithfully(s, held, e); }
    }
  }

  /**
   For a client that is in step, being accepted is being harmed: a waiting event
   that carries the target's next revision leaves the client connected and
   holding a revision the target has not reached, and no other waiting event is
   accepted.
   */
  lemma InStepVerdict(s: Daemon, e: Sent)
    requires Recorded(s) && e in s.unsent && e.event.TargetChanged? && e.event.target in s.targets
    ensures var c, next := Receive(Following(SnapshotOf(s)), e), s.targets[e.event.target].revision + 1;
            && (c.Following? <==> e.event.revision == next)
            && (c.Following? ==> !Faithful(c, s))
            && (c.Ended? ==> c.error == RevisionGap(next, e.event.revision))
  {
    hide ApplyChanges, FromObject, HealthOf, Current, Tracked, Receive, Find;
    RecordsAt(s.targets, e.event.target);
    SnapshotFaithful(s);
    assert Sound(s.history, e);
    AcceptedExactly(s.history, SnapshotOf(s), e);
    LateEventVerdict(s, SnapshotOf(s), e);
    var r := Records(s.targets)[Find(Records(s.targets), e.event.target)];
    SoundDecodes(s.history, e, r);
    assert Landed(r, e).revision == e.event.revision;
  }

  /**
   A client one late event behind can be harmed as well: an event of an older
   target of the same name at the revision the client still waits for takes the
   place of the target's own event, unless the two happen to land on one record.
   */
  lemma BehindVerdict(s: Daemon, held: Snapshot, e: Sent, i: nat)
    requires Recorded(s) && Faithful(Following(held), s) && e in s.unsent && e.event.TargetChanged?
    requires i == Find(held.targets, e.event.target) < |held.targets| && e.event.target in s.targets
    requires held.targets[i].revision + 1 == e.event.revision == s.targets[e.event.target].revision
    ensures e.event.changed.Obj?
    ensures Receive(Following(held), e).Following?
    ensures Faithful(Receive(Following(held), e), s)
            <==> Landed(held.targets[i], e) == RecordOf(e.event.target, s.targets[e.event.target])
  {
    hide ApplyChanges, FromObject, HealthOf, Receive, Find, Faithful;
    assert Sound(s.history, e);
    SoundDecodes(s.history, e, held.targets[i]);
    LateEventVerdict(s, held, e);
    assert Current(s.history, e.event.target, s.targets[e.event.target]);
  }

  // ---- Exactly which steps harm a client ----

  /** The step sends a connected client an event it will take for the next one, landing on a record that never was. */
  ghost predicate Corrupts(c: Follower, s: Daemon, l: Label) {
    l.Send? && l.k < |s.unsent| && c.Following? &&
    var e := s.unsent[l.k];
    e.event.TargetChanged? && e.event.changed.Obj? &&
    var i := Find(c.snapshot.targets, e.event.target);
    && i < |c.snapshot.targets|
    && e.event.revision == c.snapshot.targets[i].revision + 1
    && !Historical(Landed(c.snapshot.targets[i], e), e.event.target, s)
  }

  lemma LateSendVerdict(origin: Daemon, s: Daemon, k: nat)
    requires Recorded(s) && origin.log <= s.log && k < |s.unsent| && Faithful(FollowerAt(origin, s), s)
    ensures var t := SendLate(s, k);
            && origin.log <= t.log
            && (Faithful(FollowerAt(origin, t), t) <==> !Corrupts(FollowerAt(origin, s), s, Send(k)))
  {
    hide Faithful, Historical, Recorded, Receive, SnapshotOf, Replay, Landed, Find;
    var c, e, t := FollowerAt(origin, s), s.unsent[k], SendLate(s, k);
    OneMoreReceived(origin, s, t, e);
    SameListFaithful(Receive(c, e), s, t);
    if c.Following? {
      LateEventVerdict(s, c.snapshot, e);
      if Receive(c, e).Ended? { EndedFaithfully(s, c.snapshot, e); }
    } else {
      StaysEnded(c, e);
    }
  }

  lemma StaysEnded(c: Follower, e: Sent)
    requires c.Ended?
    ensures Receive(c, e) == c
  {
  }

  /** A client cut off by a waiting event ended for a gap or an unknown target. */
  lemma EndedFaithfully(s: Daemon, held: Snapshot, e: Sent)
    requires Recorded(s) && e in s.unsent && Receive(Following(held), e).Ended?
    ensures Faithful(Receive(Following(held), e), s)
  {
    hide Receive, Find, HealthOf, Landed;
    assert Sound(s.history, e);
    AcceptedExactly(s.history, held, e);
  }

  /** Exactly which steps take a faithful client to an unfaithful one. */
  lemma StepVerdict(origin: Daemon, s: Daemon, l: Label)
    requires Consistent(s) && Recorded(s) && origin.log <= s.log && Faithful(FollowerAt(origin, s), s)
    ensures var t := Step(s, l);
            && origin.log <= t.log
            && (Faithful(FollowerAt(origin, t), t) <==> !Corrupts(FollowerAt(origin, s), s, l))
  {
    hide Consistent, Recorded, Faithful, FollowerAt, SendLate, Proceed, TakeCommit, RunLabel, EditTarget, EndLaunch;
    hide ChangeEntry, StartAdd, StartRemove, StartRename;
    if l.Send? && l.k < |s.unsent| { LateSendVerdict(origin, s, l.k); } else { StepFaithful(origin, s, l); }
  }

  /**
   Over whole runs, whatever is sent late and whatever names are reused: a client
   that subscribed after step `i` is faithful at every moment until step `k` if and
   only if no step in between sends it an event that corrupts it.
   */
  lemma {:induction false} FaithfulExactly(
      config: DaemonConfig, dirs: set<string>, pid: string, run: seq<Label>, i: nat, k: nat)
    requires WellFormed(config) && i <= k <= |run|
    ensures FaithfulThroughout(Startup(config, dirs, pid), run, i, k)
            <==> NeverCorrupted(Startup(config, dirs, pid), run, i, k)
  {
    hide Step, Startup, WellFormed, FaithfulAt, CorruptedAt;
    var start := Startup(config, dirs, pid);
    if k == i {
      FaithfulAtOnce(config, dirs, pid, run, i);
    } else {
      FaithfulExactly(config, dirs, pid, run, i, k - 1);
      if FaithfulAt(start, run, i, k - 1) { FaithfulAgain(config, dirs, pid, run, i, k - 1); }
    }
  }

  ghost predicate FaithfulAt(start: Daemon, run: seq<Label>, i: nat, m: nat)
    requires i <= |run| && m <= |run|
  {
    var a, s := Exec(start, run[..i]), Exec(start, run[..m]);
    a.log <= s.log && Faithful(FollowerAt(a, s), s)
  }

  ghost predicate CorruptedAt(start: Daemon, run: seq<Label>, i: nat, m: nat)
    requires i <= |run| && m < |run|
  {
    var a, s := Exec(start, run[..i]), Exec(start, run[..m]);
    a.log <= s.log && Corrupts(FollowerAt(a, s), s, run[m])
  }

  ghost predicate FaithfulThroughout(start: Daemon, run: seq<Label>, i: nat, k: nat)
    requires i <= k <= |run|
  {
    forall m | i <= m <= k :: FaithfulAt(start, run, i, m)
  }

  ghost predicate NeverCorrupted(start: Daemon, run: seq<Label>, i: nat, k: nat)
    requires i <= k <= |run|
  {
    forall m | i <= m < k :: !CorruptedAt(start, run, i, m)
  }

  lemma FaithfulAtOnce(config: DaemonConfig, dirs: set<string>, pid: string, run: seq<Label>, i: nat)
    requires WellFormed(config) && i <= |run|
    ensures FaithfulAt(Startup(config, dirs, pid), run, i, i)
  {
    hide Step, Startup, WellFormed, Recorded, SnapshotOf, Faithful, FollowerAt, Exec;
    var a := Exec(Startup(config, dirs, pid), run[..i]);
    RecordedOverRuns(config, dirs, pid, run[..i]);
    SnapshotFaithful(a);
    FollowerAtOrigin(a);
  }

  lemma FaithfulAgain(config: DaemonConfig, dirs: set<string>, pid: string, run: seq<Label>, i: nat, m: nat)
    requires WellFormed(config) && i <= |run| && m < |run| && FaithfulAt(Startup(config, dirs, pid), run, i, m)
    ensures FaithfulAt(Startup(config, dirs, pid), run, i, m + 1)
            <==> !CorruptedAt(Startup(config, dirs, pid), run, i, m)
  {
    hide Step, Startup, WellFormed, Recorded, Consistent, Faithful, FollowerAt, Exec, Corrupts;
    var start := Startup(config, dirs, pid);
    ExecPrefix(start, run, m);
    AgreementOverRuns(config, dirs, pid, run[..m]);
    RecordedOverRuns(config, dirs, pid, run[..m]);
    StepVerdict(Exec(start, run[..i]), Exec(start, run[..m]), run[m]);
  }

  // ---- A spurious gap ----

  lemma AlreadySeenEnds(held: Snapshot, e: Sent, i: nat)
    requires e.event.TargetChanged? && i == Find(held.targets, e.event.target) < |held.targets|
    requires e.event.revision == held.targets[i].revision
    ensures Receive(Following(held), e) == Ended(RevisionGap(e.event.revision + 1, e.event.revision))
  {
  }

  /** The events of those three sections, and of no others, can still be under way when the lock is free again. */
  lemma WaitsAfterUnlock(s: Daemon, name: string, section: Section)
    requires !section.MarkOnline? && !section.ClearLaunching?
    requires name in s.targets && EditOf(section, s.targets[name]).Announced?
    ensures var t := Step(s, Run(name, section, false));
            if section.ClearObserved? || section.MediaEnd? || section.ClearMediaEnd?
            then t.log == s.log && |t.unsent| == |s.unsent| + 1
            else t.unsent == s.unsent && |t.log| == |s.log| + 1
  {
    hide Proceed, TakeCommit, ChangeEntry, EndLaunch, EditOf;
  }

  /**
   A spurious gap: a client that subscribes between an after-unlock section and
   its event already has the new revision and is cut off by the event.
   */
  lemma SpuriousGap(s: Daemon, name: string, section: Section)
    requires section.ClearObserved? || section.MediaEnd? || section.ClearMediaEnd?
    requires name in s.targets && EditOf(section, s.targets[name]).Announced?
    ensures var origin := Step(s, Run(name, section, false));
            var revision := s.targets[name].revision + 1;
            |origin.unsent| == |s.unsent| + 1 &&
            Receive(Following(SnapshotOf(origin)), origin.unsent[|s.unsent|])
            == Ended(RevisionGap(revision + 1, revision))
  {
    hide Proceed, TakeCommit, ChangeEntry, EndLaunch, EditOf, Receive, HealthOf;
    var origin, e := Step(s, Run(name, section, false)), EditOf(section, s.targets[name]);
    assert origin.targets == s.targets[name := e.t] && origin.unsent == s.unsent + [ChangeEvent(name, e.t, e.changes)];
    RevisionDiscipline(name, section, s.targets[name]);
    RecordsAt(origin.targets, name);
    AlreadySeenEnds(SnapshotOf(origin), ChangeEvent(name, e.t, e.changes), Find(Records(origin.targets), name));
  }

  // ---- A run that ends silently wrong ----

  /** Removing a stopped target, every file system call succeeding. */
  function RemovalOf(name: string): seq<Label> {
    [BeginRemove(name), MoveDirectory(true, true), BuildCandidate, Persist(true, true), Commit, Finish(true)]
  }

  /** Adding an enabled target of this name. */
  function AdditionOf(name: string): seq<Label> {
    [BeginAdd(name, None, true), MoveDirectory(true, true), BuildCandidate, Persist(true, true), Commit, Finish(true)]
  }

  /** A target plays, the end of a file is observed but not yet sent, and the target is stopped. */
  function PlayedAndStopped(name: string): seq<Label> {
    [Attach(name), Run(name, MediaEnd(Eof, None), false), Run(name, Section.Stop, true), Run(name, ClearObserved, true),
     Run(name, MarkOffline, true)]
  }

  /** Its name is reused and the new target started; only then does the end of the file go out. */
  function Reused(name: string): seq<Label> {
    PlayedAndStopped(name) + RemovalOf(name) + AdditionOf(name) + [Run(name, Section.Start, true)]
  }

  /** What a list operation's labels come to, in one go. */
  function Performed(s: Daemon, op: Operation): Daemon
    requires op.Rename? ==> op.name in s.targets
  {
    var moved := MovedDirs(op, s.pid, s.dirs);
    var dirs := if op.Remove? then moved - {Parked(op.name, s.pid)} else moved;
    var candidate := EditedConfig(s.config, op);
    var targets := RelistedTargets(op, s.targets, |s.history|);
    s.(config := candidate, disk := candidate, dirs := dirs, targets := targets,
       history := RelistedHistory(op, s.targets, s.history),
       log := s.log + [Sent(SnapshotTaken(SnapshotFrom(candidate.node.id, targets)), 0)],
       outcomes := s.outcomes
                   + [Outcome(op, Completed(true), MarkOf(s), Mark(candidate, candidate, targets.Keys, dirs))])
  }

  lemma MoveGoes(s: Daemon)
    requires In(s, Checked) && Movable(s.mutation.op, s.dirs)
    ensures MoveDirs(s, true, true)
            == s.(dirs := MovedDirs(s.mutation.op, s.pid, s.dirs), mutation := s.mutation.(phase := Moved))
  {
  }

  lemma FinishGoes(s: Daemon)
    requires In(s, Committed)
    ensures var op := s.mutation.op;
            var dirs := if op.Remove? then s.dirs - {Parked(op.name, s.pid)} else s.dirs;
            CleanUp(s, true) == End(s.(dirs := dirs), Completed(true))
  {
    var op := s.mutation.op;
    if op.Remove? && Parked(op.name, s.pid) !in s.dirs {
      assert s.dirs - {Parked(op.name, s.pid)} == s.dirs;
    }
  }

  /** The state in which an operation is about to write its candidate. */
  function AboutToPersist(s: Daemon, op: Operation): Daemon {
    s.(dirs := MovedDirs(op, s.pid, s.dirs), mutation := Holding(op, Prepared(EditedConfig(s.config, op)), MarkOf(s)))
  }

  lemma FirstHalf(s: Daemon, op: Operation, begin: Label)
    requires s.mutation.Unlocked? && Step(s, begin) == Begin(s, op) && !op.Rename? && Movable(op, s.dirs)
    ensures Step(Step(Step(s, begin), MoveDirectory(true, true)), BuildCandidate) == AboutToPersist(s, op)
  {
    hide MoveDirs, Movable, MovedDirs, EditedConfig;
    hide TakeCommit, RunLabel, EditTarget, EndLaunch, ChangeEntry, SendLate, StartAdd, StartRemove, StartRename;
    MoveGoes(Begin(s, op));
  }

  lemma PersistGoes(s: Daemon)
    requires s.mutation.Holding? && s.mutation.phase.Prepared? && WellFormed(s.mutation.phase.candidate)
    ensures PersistCandidate(s, true, true)
            == s.(disk := s.mutation.phase.candidate,
                  mutation := s.mutation.(phase := Persisted(s.mutation.phase.candidate)))
  {
    hide WellFormed, RestoredDirs;
  }

  lemma SecondHalf(s: Daemon, op: Operation)
    requires s.mutation.Unlocked? && !op.Rename? && WellFormed(EditedConfig(s.config, op))
    ensures Step(Step(Step(AboutToPersist(s, op), Persist(true, true)), Commit), Finish(true)) == Performed(s, op)
  {
    hide CleanUp, PersistCandidate, MovedDirs, EditedConfig, WellFormed, RelistedTargets, RelistedHistory, SnapshotFrom;
    hide RunLabel, EditTarget, EndLaunch, ChangeEntry, SendLate, StartAdd, StartRemove, StartRename, MoveDirs, Build;
    var ready := AboutToPersist(s, op);
    PersistGoes(ready);
    var committed := CommitCandidate(PersistCandidate(ready, true, true));
    FinishGoes(committed);
  }

  /** A list operation whose calls all succeed and whose candidate is valid does what it is for. */
  lemma OperationRuns(s: Daemon, op: Operation, begin: Label)
    requires s.mutation.Unlocked? && Step(s, begin) == Begin(s, op) && !op.Rename?
    requires Movable(op, s.dirs) && WellFormed(EditedConfig(s.config, op))
    ensures Exec(s, [begin, MoveDirectory(true, true), BuildCandidate, Persist(true, true), Commit, Finish(true)])
            == Performed(s, op)
  {
    hide *;
    var run := [begin, MoveDirectory(true, true), BuildCandidate, Persist(true, true), Commit, Finish(true)];
    SixSteps(s, run);
    FirstHalf(s, op, begin);
    SecondHalf(s, op);
  }

  lemma RemovalStarts(s: Daemon, name: string)
    requires Consistent(s) && s.mutation.Unlocked? && name in s.targets
    ensures Step(s, BeginRemove(name)) == Begin(s, Remove(name))
    ensures WellFormed(EditedConfig(s.config, Remove(name)))
  {
    hide Accountable, ValidTarget;
    WithoutMembers(s.config.targets, name);
  }

  lemma AdditionStarts(s: Daemon, name: string)
    requires Consistent(s) && s.mutation.Unlocked? && name !in s.targets && ValidTargetName(name)
    ensures Step(s, BeginAdd(name, None, true)) == Begin(s, Add(TargetConfig(name, false, None)))
    ensures WellFormed(EditedConfig(s.config, Add(TargetConfig(name, false, None))))
  {
    hide Accountable;
    assert forall c | c in s.config.targets :: c.name in s.targets;
  }

  lemma RemovalRuns(s: Daemon, name: string)
    requires Consistent(s) && s.mutation.Unlocked? && name in s.targets
    ensures Exec(s, RemovalOf(name)) == Performed(s, Remove(name))
    ensures Consistent(Performed(s, Remove(name)))
  {
    hide Exec, Step, Performed, Consistent, WellFormed, EditedConfig;
    RemovalStarts(s, name);
    OperationRuns(s, Remove(name), BeginRemove(name));
    RunConsistent(s, RemovalOf(name));
  }

  lemma AdditionRuns(s: Daemon, name: string)
    requires Consistent(s) && s.mutation.Unlocked? && name !in s.targets && name !in s.dirs && ValidTargetName(name)
    ensures Exec(s, AdditionOf(name)) == Performed(s, Add(TargetConfig(name, false, None)))
  {
    hide Exec, Step, Performed, Consistent, WellFormed, EditedConfig, ValidTargetName;
    AdditionStarts(s, name);
    OperationRuns(s, Add(TargetConfig(name, false, None)), BeginAdd(name, None, true));
  }

  lemma {:induction false} RunConsistent(s: Daemon, run: seq<Label>)
    requires Consistent(s)
    ensures Consistent(Exec(s, run))
  {
    hide Step, Consistent;
    if run != [] {
      RunConsistent(s, run[..|run| - 1]);
      StepKeepsConsistency(Exec(s, run[..|run| - 1]), run[|run| - 1]);
    }
  }

  /** A section that sends at once leaves what waits alone. */
  lemma SectionLeaves(s: Daemon, name: string, section: Section)
    requires !section.MarkOnline? && !section.ClearLaunching?
    ensures var t := Step(s, Run(name, section, true));
            && t.unsent == s.unsent && t.mutation == s.mutation && t.targets.Keys == s.targets.Keys
            && |t.history| == |s.history| && t.config == s.config && t.dirs == s.dirs && t.pid == s.pid
            && (name in s.targets ==> t.targets[name] == TargetAfter(section, s.targets[name]))
  {
    hide EditOf, RecordOf, ClaimsLaunch, Proceed, TakeCommit, ChangeEntry, EndLaunch, StartAdd, StartRename, SendLate;
  }

  /** The end of the file waits at revision 2. */
  lemma EndWaits(s: Daemon, c: TargetConfig)
    requires s.unsent == [] && c.name in s.targets && Fresh(c, s.targets[c.name])
    ensures var t := Step(Step(s, Attach(c.name)), Run(c.name, MediaEnd(Eof, None), false));
            && |t.unsent| == 1 && t.unsent[0].event.TargetChanged?
            && t.unsent[0].event.target == c.name && t.unsent[0].event.revision == 2
            && t.mutation == s.mutation && t.targets.Keys == s.targets.Keys && t.dirs == s.dirs
            && t.config == s.config && t.pid == s.pid && |t.history| == |s.history|
  {
    hide Proceed, TakeCommit, ChangeEntry, EndLaunch, StartAdd, StartRename, SendLate, RecordOf, ToObject;
    var name := c.name;
    var online := Step(s, Attach(name));
    assert online.targets[name] == TargetAfter(MarkOnline, s.targets[name]) && online.unsent == s.unsent;
    assert Step(online, Run(name, MediaEnd(Eof, None), false)).unsent
        == [ChangeEvent(name, TargetAfter(MediaEnd(Eof, None), online.targets[name]), EndChanges(Some(Eof), None))];
  }

  /** After the playing and the stopping it still does, and the lock is free. */
  lemma PlayedRuns(s: Daemon, c: TargetConfig)
    requires s.unsent == [] && c.name in s.targets && Fresh(c, s.targets[c.name])
    ensures var t := Exec(s, PlayedAndStopped(c.name));
            && |t.unsent| == 1 && t.unsent[0].event.TargetChanged?
            && t.unsent[0].event.target == c.name && t.unsent[0].event.revision == 2
            && t.mutation == s.mutation && t.targets.Keys == s.targets.Keys && t.dirs == s.dirs
            && t.config == s.config && t.pid == s.pid && |t.history| == |s.history|
  {
    hide Step, Exec, Fresh, TargetAfter;
    var name, run := c.name, PlayedAndStopped(c.name);
    FiveSteps(s, run);
    EndWaits(s, c);
    var ended := Step(Step(s, run[0]), run[1]);
    SectionLeaves(ended, name, Section.Stop);
    var stopped := Step(ended, run[2]);
    SectionLeaves(stopped, name, ClearObserved);
    SectionLeaves(Step(stopped, run[3]), name, MarkOffline);
  }

  /** The name is reused: a new target stands at revision 1 while the event of the old one waits at revision 2. */
  lemma ReusedRuns(s: Daemon, c: TargetConfig)
    requires Consistent(s) && s.mutation.Unlocked? && s.unsent == []
    requires c.name in s.targets && Fresh(c, s.targets[c.name])
    ensures var t := Exec(s, Reused(c.name));
            && |t.unsent| == 1 && t.unsent[0].event.TargetChanged?
            && t.unsent[0].event.target == c.name && t.unsent[0].event.revision == 2
            && c.name in t.targets && t.targets[c.name].revision == 1
  {
    hide Step, Exec, Consistent, Fresh, PlayedAndStopped, RemovalOf, AdditionOf, EditedConfig, MovedDirs, SnapshotFrom;
    var name := c.name;
    NamesValid(s, name);
    ExecJoined(s, PlayedAndStopped(name) + RemovalOf(name) + AdditionOf(name), [Run(name, Section.Start, true)]);
    ExecJoined(s, PlayedAndStopped(name) + RemovalOf(name), AdditionOf(name));
    ExecJoined(s, PlayedAndStopped(name), RemovalOf(name));
    var played := Exec(s, PlayedAndStopped(name));
    PlayedRuns(s, c);
    RunConsistent(s, PlayedAndStopped(name));
    RemovalRuns(played, name);
    var removed := Performed(played, Remove(name));
    RemovedDirs(name, s.pid, played.dirs);
    AdditionRuns(removed, name);
    var added := Performed(removed, Add(TargetConfig(name, false, None)));
    ExecOne(added, Run(name, Section.Start, true));
    SectionLeaves(added, name, Section.Start);
    StartFresh(TargetConfig(name, false, None), |removed.history|);
  }

  lemma NamesValid(s: Daemon, name: string)
    requires Consistent(s) && name in s.targets
    ensures ValidTargetName(name)
  {
    assert ValidTarget(s.targets[name].config);
  }

  lemma RemovedDirs(name: string, pid: string, dirs: set<string>)
    requires ValidTargetName(name)
    ensures name !in MovedDirs(Remove(name), pid, dirs) - {Parked(name, pid)}
  {
    ParkedIsNoTarget(name, pid);
  }

  lemma StartFresh(c: TargetConfig, born: nat)
    requires !c.disabled
    ensures TargetAfter(Section.Start, NewTarget(c, true, born)).revision == 1
  {
  }

  /**
   Every configuration with an enabled target has a run that ends with a client
   connected and wrong: the client subscribes after the name has been reused, and
   the old target's event leaves it holding a revision the new target never had.
   */
  lemma EndsSilentlyWrong(config: DaemonConfig, dirs: set<string>, pid: string, c: TargetConfig)
    requires WellFormed(config) && c in config.targets && !c.disabled
    ensures var a := Exec(Startup(config, dirs, pid), Reused(c.name));
            var b := Exec(Startup(config, dirs, pid), Reused(c.name) + [Send(0)]);
            && a.log <= b.log
            && FollowerAt(a, b).Following?
            && !Faithful(FollowerAt(a, b), b)
            && FollowerAt(a, b) != Following(SnapshotOf(b))
  {
    hide Step, Exec, Faithful, Reused, Recorded, Consistent, Receive, SnapshotOf;
    var start := Startup(config, dirs, pid);
    AgreementOverRuns(config, dirs, pid, []);
    NothingRun(start);
    BuildTargetsFresh(config.targets);
    ReusedRuns(start, c);
    RecordedOverRuns(config, dirs, pid, Reused(c.name));
    var a := Exec(start, Reused(c.name));
    ExecJoined(start, Reused(c.name), [Send(0)]);
    ExecOne(a, Send(0));
    SendsWrong(a);
  }

  lemma NothingRun(s: Daemon)
    ensures Exec(s, []) == s
  {
    hide Step;
  }

  /** The harm done by a waiting event that carries the next revision, as a follower sees it. */
  lemma SendsWrong(a: Daemon)
    requires Recorded(a) && a.unsent != [] && a.unsent[0].event.TargetChanged?
    requires a.unsent[0].event.target in a.targets
    requires a.unsent[0].event.revision == a.targets[a.unsent[0].event.target].revision + 1
    ensures var b := Step(a, Send(0));
            && a.log <= b.log && FollowerAt(a, b).Following? && !Faithful(FollowerAt(a, b), b)
            && FollowerAt(a, b) != Following(SnapshotOf(b))
  {
    hide Faithful, Recorded, Receive, SnapshotOf, Proceed, TakeCommit, RunLabel, EditTarget, EndLaunch, ChangeEntry;
    var b, e := Step(a, Send(0)), a.unsent[0];
    assert b == SendLate(a, 0) && b.log == a.log + [e];
    InStepVerdict(a, e);
    OneMoreReceived(a, a, b, e);
    assert FollowerAt(a, a) == Following(SnapshotOf(a)) by { FollowerAtOrigin(a); }
    SnapshotFaithful(a);
    SameListFaithful(Receive(Following(SnapshotOf(a)), e), a, b);
    SnapshotAfterSend(a);
  }

  /** Being faithful is a matter of the targets and their histories. */
  lemma SameListFaithful(c: Follower, s: Daemon, t: Daemon)
    requires t.targets == s.targets && t.history == s.history && t.config == s.config
    ensures Faithful(c, s) <==> Faithful(c, t)
  {
    forall r, n ensures Historical(r, n, s) <==> Historical(r, n, t) {}
  }

  lemma SnapshotAfterSend(a: Daemon)
    ensures SnapshotOf(SendLate(a, 0)) == SnapshotOf(a)
  {
  }
}
