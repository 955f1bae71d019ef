/**
 What a connected client still waits for when events go out late: exactly the
 revisions whose events have not been sent.  So once nothing waits, a client that
 is still connected holds the daemon's state; and whether it is still connected
 is a matter of revision numbers alone.
 */
module Convergence {
  import opened Wrappers
  import opened Protocol
  import opened Config
  import opened Ordering
  import opened HealthReport
  import opened Runtime
  import opened Machine
  import opened Receiver
  import opened Agreement
  import opened Replica
  import opened Divergence
  import opened Discipline
  import opened LateEvents
  import Names

  /** The event of this revision of this incarnation has been computed and not sent. */
  ghost predicate Waits(unsent: seq<Sent>, incarnation: nat, revision: nat) {
    exists e :: e in unsent && e.event.TargetChanged? && e.incarnation == incarnation && e.event.revision == revision
  }

  /** Every revision between the one a client holds of the `i`-th target and the target's own is waiting to be sent. */
  ghost predicate GapWaits(held: seq<TargetRecord>, s: Daemon, i: nat)
    requires i < |held| && i < |SortedKeys(s.targets.Keys)|
  {
    var t := s.targets[SortedKeys(s.targets.Keys)[i]];
    forall r: nat | held[i].revision < r <= t.revision :: Waits(s.unsent, t.incarnation, r)
  }

  ghost predicate NothingMissed(held: seq<TargetRecord>, s: Daemon) {
    && |held| == |SortedKeys(s.targets.Keys)|
    && forall i | 0 <= i < |held| :: GapWaits(held, s, i)
  }

  ghost predicate CaughtUp(c: Follower, s: Daemon) { c.Following? ==> NothingMissed(c.snapshot.targets, s) }

  // ---- One step ----

  /** The daemon side of a step: the listing stays, a revision rises by at most one, and then its event waits. */
  ghost predicate MovesOn(s: Daemon, t: Daemon) {
    && t.targets.Keys == s.targets.Keys
    && (forall e | e in s.unsent :: e in t.unsent)
    && forall n | n in s.targets ::
         && t.targets[n].incarnation == s.targets[n].incarnation
         && (t.targets[n].revision == s.targets[n].revision
             || (t.targets[n].revision == s.targets[n].revision + 1
                 && Waits(t.unsent, t.targets[n].incarnation, t.targets[n].revision)))
  }

  lemma WaitsStill(unsent: seq<Sent>, later: seq<Sent>, incarnation: nat, revision: nat)
    requires Waits(unsent, incarnation, revision) && forall e | e in unsent :: e in later
    ensures Waits(later, incarnation, revision)
  {
    var e :| e in unsent && e.event.TargetChanged? && e.incarnation == incarnation && e.event.revision == revision;
    assert e in later;
  }

  lemma QuietlyCaughtUp(held: seq<TargetRecord>, s: Daemon, t: Daemon)
    requires NothingMissed(held, s) && MovesOn(s, t)
    ensures NothingMissed(held, t)
  {
    hide Waits;
    forall i | 0 <= i < |held| ensures GapWaits(held, t, i) {
      assert GapWaits(held, s, i);
      var name := SortedKeys(s.targets.Keys)[i];
      forall r: nat | held[i].revision < r <= t.targets[name].revision
        ensures Waits(t.unsent, t.targets[name].incarnation, r)
      {
        if r <= s.targets[name].revision {
          WaitsStill(s.unsent, t.unsent, s.targets[name].incarnation, r);
        }
      }
    }
  }

  /** A client that took an edit as it was made waits for nothing of that target, and for no more of the others. */
  lemma TakenCaughtUp(held: seq<TargetRecord>, s: Daemon, t: Daemon, i: nat, r: TargetRecord)
    requires NothingMissed(held, s) && i < |held| && t.targets.Keys == s.targets.Keys && t.unsent == s.unsent
    requires r.revision == t.targets[SortedKeys(s.targets.Keys)[i]].revision
    requires forall n | n in s.targets && n != SortedKeys(s.targets.Keys)[i] :: t.targets[n] == s.targets[n]
    ensures NothingMissed(held[i := r], t)
  {
    hide Waits;
    AscendingDistinct(SortedKeys(s.targets.Keys));
    var taken := held[i := r];
    forall j | 0 <= j < |taken| ensures GapWaits(taken, t, j) {
      assert GapWaits(held, s, j);
    }
  }

  /** Only the event of this revision of this incarnation has gone out; everything else that waited still does. */
  lemma OthersWait(unsent: seq<Sent>, k: nat, incarnation: nat, revision: nat)
    requires k < |unsent| && Waits(unsent, incarnation, revision)
    requires unsent[k].event.TargetChanged?
    requires unsent[k].incarnation != incarnation || unsent[k].event.revision != revision
    ensures Waits(unsent[..k] + unsent[k + 1..], incarnation, revision)
  {
    var e :| e in unsent && e.event.TargetChanged? && e.incarnation == incarnation && e.event.revision == revision;
    var j :| 0 <= j < |unsent| && unsent[j] == e;
    assert j != k;
    var rest := unsent[..k] + unsent[k + 1..];
    assert rest[if j < k then j else j - 1] == e;
  }

  lemma DistinctIncarnations(s: Daemon, m: string, n: string)
    requires Recorded(s) && m in s.targets && n in s.targets && m != n
    ensures s.targets[m].incarnation != s.targets[n].incarnation
  {
    hide Current, AllSound;
  }

  /** One target's gap, after the event at `k` has gone out and the client holds `taken`. */
  lemma LateGap(held: seq<TargetRecord>, taken: seq<TargetRecord>, s: Daemon, k: nat, j: nat)
    requires k < |s.unsent| && s.unsent[k].event.TargetChanged?
    requires j < |held| == |taken| == |SortedKeys(s.targets.Keys)| && GapWaits(held, s, j)
    requires held[j].revision <= taken[j].revision
    requires var t := s.targets[SortedKeys(s.targets.Keys)[j]];
             t.incarnation != s.unsent[k].incarnation || s.unsent[k].event.revision <= taken[j].revision
    ensures GapWaits(taken, SendLate(s, k), j)
  {
    hide Waits;
    var u := s.targets[SortedKeys(s.targets.Keys)[j]];
    forall q: nat | taken[j].revision < q <= u.revision ensures Waits(SendLate(s, k).unsent, u.incarnation, q) {
      OthersWait(s.unsent, k, u.incarnation, q);
    }
  }

  /** A client that takes a late event in turn no longer waits for it, and still for everything else. */
  lemma LateCaughtUp(held: seq<TargetRecord>, s: Daemon, k: nat, i: nat, r: TargetRecord)
    requires Recorded(s) && k < |s.unsent| && OnCurrent(s, s.unsent[k]) && s.unsent[k].event.TargetChanged?
    requires NothingMissed(held, s) && i < |held|
    requires SortedKeys(s.targets.Keys)[i] == s.unsent[k].event.target
    requires r.revision == s.unsent[k].event.revision >= held[i].revision
    ensures NothingMissed(held[i := r], SendLate(s, k))
  {
    hide Recorded, GapWaits;
    var keys, taken := SortedKeys(s.targets.Keys), held[i := r];
    AscendingDistinct(keys);
    forall j | 0 <= j < |taken| ensures GapWaits(taken, SendLate(s, k), j) {
      assert GapWaits(held, s, j);
      if j != i { DistinctIncarnations(s, keys[i], keys[j]); }
      LateGap(held, taken, s, k, j);
    }
  }

  /** A change received in turn puts its revision where its target stands; out of turn it ends the connection. */
  lemma ReceivedAt(h: History, held: Snapshot, s: Daemon, e: Sent) returns (i: nat, r: TargetRecord)
    requires Faithful(Following(held), s) && Sound(h, e) && e.event.TargetChanged?
    ensures var c := Receive(Following(held), e);
            c.Following? ==>
              && i < |held.targets| == |SortedKeys(s.targets.Keys)| && SortedKeys(s.targets.Keys)[i] == e.event.target
              && c.snapshot.targets == held.targets[i := r]
              && r.revision == e.event.revision == held.targets[i].revision + 1
  {
    hide Historical, Sound, Receive, HealthOf, Find;
    AcceptedExactly(h, held, e);
    i := Find(held.targets, e.event.target);
    r := DEFAULT_RECORD;
    if i < |held.targets| && e.event.revision == held.targets[i].revision + 1 {
      FoundAt(held, s, e.event.target);
      SoundDecodes(h, e, held.targets[i]);
      r := Landed(held.targets[i], e);
    }
  }

  const DEFAULT_RECORD: TargetRecord := TargetRecord("", false, false, false, None, DEFAULT_STATE, 0)

  lemma AtOnceCaughtUp(c: Follower, s: Daemon, t: Daemon, name: string, e: Sent)
    requires Faithful(c, s) && CaughtUp(c, s) && name in s.targets
    requires EditedProperly(s, t, name) && t.unsent == s.unsent
    requires IsChangeOf(e, name, s.targets[name], t.targets[name]) && Sound(t.history, e)
    ensures CaughtUp(Receive(c, e), t)
  {
    hide Faithful, Sound, NothingMissed, Receive;
    if c.Following? {
      var i, r := ReceivedAt(t.history, c.snapshot, s, e);
      if Receive(c, e).Following? { TakenCaughtUp(c.snapshot.targets, s, t, i, r); }
    } else {
      StaysEnded(c, e);
    }
  }

  /** An edit whose event, if it has one, is put off. */
  lemma PutOffCaughtUp(c: Follower, s: Daemon, t: Daemon, name: string)
    requires CaughtUp(c, s) && EditedProperly(s, t, name) && t.log == s.log
    ensures CaughtUp(c, t)
  {
    hide NothingMissed, Visible, RecordOf;
    if name in s.targets && Visible(name, t.targets[name]) != Visible(name, s.targets[name]) {
      var e :| AnnouncesOne(s, t, e) && IsChangeOf(e, name, s.targets[name], t.targets[name]);
      assert t.unsent == s.unsent + [e];
      assert e in t.unsent;
    }
    if c.Following? { QuietlyCaughtUp(c.snapshot.targets, s, t); }
  }

  lemma EditCaughtUp(origin: Daemon, s: Daemon, t: Daemon, name: string)
    requires EditedProperly(s, t, name) && Recorded(t) && origin.log <= s.log
    requires Faithful(FollowerAt(origin, s), s) && CaughtUp(FollowerAt(origin, s), s)
    ensures origin.log <= t.log && CaughtUp(FollowerAt(origin, t), t)
  {
    hide Faithful, CaughtUp, Visible, RecordOf, Sound, SnapshotOf, Replay, Receive, Tracked;
    if t.log == s.log {
      PutOffCaughtUp(FollowerAt(origin, s), s, t, name);
    } else {
      var e :| AnnouncesOne(s, t, e) && IsChangeOf(e, name, s.targets[name], t.targets[name]);
      OneMoreReceived(origin, s, t, e);
      AtOnceCaughtUp(FollowerAt(origin, s), s, t, name, e);
    }
  }

  lemma SnapshotCaughtUp(origin: Daemon, s: Daemon, t: Daemon)
    requires SendsSnapshot(s, t) && origin.log <= s.log
    ensures origin.log <= t.log && CaughtUp(FollowerAt(origin, t), t)
  {
    hide Replay, Records;
    OneMoreReceived(origin, s, t, t.log[|s.log|]);
    FreshlyCaughtUp(t);
  }

  lemma FreshlyCaughtUp(s: Daemon)
    ensures NothingMissed(SnapshotOf(s).targets, s)
  {
    hide Waits, HealthOf;
  }

  lemma LateSendCaughtUp(origin: Daemon, s: Daemon, k: nat)
    requires Recorded(s) && SendsFresh(s, Send(k)) && origin.log <= s.log && k < |s.unsent|
    requires Faithful(FollowerAt(origin, s), s) && CaughtUp(FollowerAt(origin, s), s)
    ensures var t := SendLate(s, k); origin.log <= t.log && CaughtUp(FollowerAt(origin, t), t)
  {
    hide Faithful, Sound, SnapshotOf, Replay, Receive, Tracked, NothingMissed, OnCurrent;
    var c, e, t := FollowerAt(origin, s), s.unsent[k], SendLate(s, k);
    OneMoreReceived(origin, s, t, e);
    if c.Following? {
      var i, r := ReceivedAt(s.history, c.snapshot, s, e);
      if Receive(c, e).Following? { LateCaughtUp(c.snapshot.targets, s, k, i, r); }
    } else {
      StaysEnded(c, e);
    }
  }

  lemma SameCaughtUp(origin: Daemon, s: Daemon, t: Daemon)
    requires t.targets == s.targets && t.log == s.log && t.unsent == s.unsent && origin.log <= s.log
    requires CaughtUp(FollowerAt(origin, s), s)
    ensures origin.log <= t.log && CaughtUp(FollowerAt(origin, t), t)
  {
    hide Waits, Replay, SnapshotOf;
    var c := FollowerAt(origin, s);
    if c.Following? {
      forall i | 0 <= i < |c.snapshot.targets| ensures GapWaits(c.snapshot.targets, t, i) {
        assert GapWaits(c.snapshot.targets, s, i);
      }
    }
  }

  lemma StepCaughtUp(origin: Daemon, s: Daemon, l: Label)
    requires Consistent(s) && Recorded(s) && SendsFresh(s, l) && origin.log <= s.log
    requires Faithful(FollowerAt(origin, s), s) && CaughtUp(FollowerAt(origin, s), s)
    ensures origin.log <= Step(s, l).log && CaughtUp(FollowerAt(origin, Step(s, l)), Step(s, l))
  {
    hide Consistent, Recorded, Faithful, CaughtUp, FollowerAt, EditedProperly, SendsFresh;
    hide RunLabel, EditTarget, EndLaunch, ChangeEntry, CommitCandidate, SendLate, Proceed;
    if Edits(l).Some? {
      StepAnnounces(s, l);
      StepKeepsRecords(s, l);
      EditCaughtUp(origin, s, Step(s, l), Edits(l).value);
    } else if l.Commit? {
      if s.mutation.Holding? && s.mutation.phase.Persisted? {
        CommitTraffic(s);
        SnapshotCaughtUp(origin, s, CommitCandidate(s));
      }
    } else if l.Send? {
      if l.k < |s.unsent| { LateSendCaughtUp(origin, s, l.k); } else { NothingSentLate(s, l.k); }
    } else {
      BackstageStep(s, l);
      SameCaughtUp(origin, s, Step(s, l));
    }
  }

  lemma NothingSentLate(s: Daemon, k: nat)
    requires k >= |s.unsent|
    ensures SendLate(s, k) == s
  {
  }

  // ---- Runs ----

  /** In every fresh run, everything a connected client has not got is waiting to be sent. */
  lemma {:induction false} CaughtUpOverRuns(
      config: DaemonConfig, dirs: set<string>, pid: string, run: seq<Label>, i: nat, k: nat)
    requires WellFormed(config) && i <= k <= |run|
    requires forall j | i <= j < k :: SendsFresh(Exec(Startup(config, dirs, pid), run[..j]), run[j])
    ensures var a, b := Exec(Startup(config, dirs, pid), run[..i]), Exec(Startup(config, dirs, pid), run[..k]);
            a.log <= b.log && CaughtUp(FollowerAt(a, b), b)
  {
    hide Step, Exec, Startup, Recorded, Consistent, Faithful, CaughtUp, FollowerAt, WellFormed, SendsFresh;
    var start := Startup(config, dirs, pid);
    if k == i {
      StartCaughtUp(Exec(start, run[..i]));
    } else {
      CaughtUpOverRuns(config, dirs, pid, run, i, k - 1);
      NoSilentDivergence(config, dirs, pid, run, i, k - 1);
      ExecPrefix(start, run, k - 1);
      AgreementOverRuns(config, dirs, pid, run[..k - 1]);
      RecordedOverRuns(config, dirs, pid, run[..k - 1]);
      StepCaughtUp(Exec(start, run[..i]), Exec(start, run[..k - 1]), run[k - 1]);
    }
  }

  lemma StartCaughtUp(a: Daemon)
    ensures a.log <= a.log && CaughtUp(FollowerAt(a, a), a)
  {
    hide FollowerAt, SnapshotOf, NothingMissed;
    FollowerAtOrigin(a);
    FreshlyCaughtUp(a);
  }

  lemma HeldIsHistorical(held: Snapshot, s: Daemon, i: nat)
    requires Faithful(Following(held), s) && i < |held.targets|
    ensures |held.targets| == |SortedKeys(s.targets.Keys)|
    ensures Historical(held.targets[i], SortedKeys(s.targets.Keys)[i], s)
  {
    hide Historical, HealthOf;
  }

  /** The record of the latest revision is the target's own. */
  lemma LatestIsCurrent(r: TargetRecord, name: string, s: Daemon)
    requires Historical(r, name, s) && Current(s.history, name, s.targets[name])
    requires r.revision == s.targets[name].revision
    ensures r == RecordOf(name, s.targets[name])
  {
    hide RecordOf;
  }

  lemma IsCurrent(s: Daemon, name: string)
    requires Recorded(s) && name in s.targets
    ensures Current(s.history, name, s.targets[name])
  {
    hide Current, AllSound;
  }

  /** A record a connected client holds is the target's own if the target's latest event is not waiting. */
  lemma UpToDate(held: Snapshot, s: Daemon, i: nat)
    requires Recorded(s) && Faithful(Following(held), s) && NothingMissed(held.targets, s) && i < |held.targets|
    requires var t := s.targets[SortedKeys(s.targets.Keys)[i]]; !Waits(s.unsent, t.incarnation, t.revision)
    ensures held.targets[i] == RecordOf(SortedKeys(s.targets.Keys)[i], s.targets[SortedKeys(s.targets.Keys)[i]])
  {
    hide Waits, Faithful, Recorded, Current, RecordOf;
    var name := SortedKeys(s.targets.Keys)[i];
    HeldIsHistorical(held, s, i);
    IsCurrent(s, name);
    assert GapWaits(held.targets, s, i);
    LatestIsCurrent(held.targets[i], name, s);
  }

  /** With nothing waiting, a faithful client that has missed nothing holds the daemon's snapshot. */
  lemma AllUpToDate(held: Snapshot, s: Daemon)
    requires Recorded(s) && Faithful(Following(held), s) && NothingMissed(held.targets, s) && s.unsent == []
    ensures held == SnapshotOf(s)
  {
    hide Recorded, NothingMissed, RecordOf, Faithful, HealthOf, Waits;
    FaithfulFrame(held, s);
    forall i | 0 <= i < |held.targets| ensures held.targets[i] == Records(s.targets)[i] {
      HasNothingMissed(held.targets, s);
      var t := s.targets[SortedKeys(s.targets.Keys)[i]];
      NoneWaits(t.incarnation, t.revision);
      UpToDate(held, s, i);
    }
    assert held.targets == Records(s.targets);
  }

  lemma FaithfulFrame(held: Snapshot, s: Daemon)
    requires Faithful(Following(held), s)
    ensures held.protocolVersion == PROTOCOL_VERSION && held.nodeId == s.config.node.id
    ensures held.health == HealthOf(held.targets) && |held.targets| == |SortedKeys(s.targets.Keys)|
  {
    hide Historical, HealthOf;
  }

  lemma NoneWaits(incarnation: nat, revision: nat)
    ensures !Waits([], incarnation, revision)
  {
  }

  lemma HasNothingMissed(held: seq<TargetRecord>, s: Daemon)
    requires NothingMissed(held, s)
    ensures |held| == |SortedKeys(s.targets.Keys)|
  {
  }

  /**
   Convergence: in every fresh run, with events going out late and in any order, a
   client that is still connected when nothing waits to be sent holds exactly the
   daemon's snapshot; and while events wait, every target whose latest event is
   not among them stands in the client exactly as it stands in the daemon.
   */
  lemma ConnectedConverges(config: DaemonConfig, dirs: set<string>, pid: string, run: seq<Label>, i: nat, k: nat)
    requires WellFormed(config) && i <= k <= |run|
    requires forall j | i <= j < k :: SendsFresh(Exec(Startup(config, dirs, pid), run[..j]), run[j])
    ensures var a, b := Exec(Startup(config, dirs, pid), run[..i]), Exec(Startup(config, dirs, pid), run[..k]);
            && a.log <= b.log
            && (FollowerAt(a, b).Following? ==>
                  && |FollowerAt(a, b).snapshot.targets| == |SortedKeys(b.targets.Keys)|
                  && (b.unsent == [] ==> FollowerAt(a, b) == Following(SnapshotOf(b)))
                  && forall j | 0 <= j < |SortedKeys(b.targets.Keys)| ::
                       var name := SortedKeys(b.targets.Keys)[j];
                       !Waits(b.unsent, b.targets[name].incarnation, b.targets[name].revision) ==>
                         FollowerAt(a, b).snapshot.targets[j] == RecordOf(name, b.targets[name]))
  {
    hide Step, Exec, Startup, Recorded, Faithful, FollowerAt, WellFormed, SendsFresh, Waits, SnapshotOf, RecordOf;
    CaughtUpOverRuns(config, dirs, pid, run, i, k);
    NoSilentDivergence(config, dirs, pid, run, i, k);
    RecordedOverRuns(config, dirs, pid, run[..k]);
    var a, b := Exec(Startup(config, dirs, pid), run[..i]), Exec(Startup(config, dirs, pid), run[..k]);
    var c := FollowerAt(a, b);
    if c.Following? {
      if b.unsent == [] { AllUpToDate(c.snapshot, b); }
      forall j | 0 <= j < |SortedKeys(b.targets.Keys)|
        && !Waits(b.unsent, b.targets[SortedKeys(b.targets.Keys)[j]].incarnation,
                  b.targets[SortedKeys(b.targets.Keys)[j]].revision)
        ensures c.snapshot.targets[j]
                == RecordOf(SortedKeys(b.targets.Keys)[j], b.targets[SortedKeys(b.targets.Keys)[j]])
      {
        UpToDate(c.snapshot, b, j);
      }
    }
  }

  // ---- Who stays connected ----

  /** Where a client stands with one target. */
  datatype Turn = Turn(name: string, revision: nat)

  function TurnsOf(targets: seq<TargetRecord>): seq<Turn> {
    seq(|targets|, i requires 0 <= i < |targets| => Turn(targets[i].name, targets[i].revision))
  }

  function NamesOf(turns: seq<Turn>): seq<string> {
    seq(|turns|, i requires 0 <= i < |turns| => turns[i].name)
  }

  /** The next turns, unless the event is out of turn; nothing but names and revisions is looked at. */
  function NextTurns(turns: seq<Turn>, event: Event): Option<seq<Turn>> {
    match event
    case SnapshotTaken(s) => if s.protocolVersion == PROTOCOL_VERSION then Some(TurnsOf(s.targets)) else None
    case TargetChanged(name, revision, _) =>
      var i := Names.Position(NamesOf(turns), name);
      if i < |turns| && revision == turns[i].revision + 1 then Some(turns[i := Turn(name, revision)]) else None
  }

  function TurnsAfter(turns: seq<Turn>, events: seq<Sent>): Option<seq<Turn>> {
    if events == [] then Some(turns)
    else
      var before := TurnsAfter(turns, events[..|events| - 1]);
      if before.None? then None else NextTurns(before.value, events[|events| - 1].event)
  }

  /** What a follower amounts to, as far as turns go. */
  ghost predicate StandsAt(c: Follower, turns: Option<seq<Turn>>) {
    turns == if c.Following? then Some(TurnsOf(c.snapshot.targets)) else None
  }

  lemma SamePosition(targets: seq<TargetRecord>, name: string)
    ensures Names.Position(NamesOf(TurnsOf(targets)), name) == Find(targets, name)
  {
    var p, q := Names.Position(NamesOf(TurnsOf(targets)), name), Find(targets, name);
    if p < |targets| { assert targets[p].name == name; }
    if q < |targets| { assert NamesOf(TurnsOf(targets))[q] == name; }
  }

  lemma LandedName(h: History, r: TargetRecord, e: Sent)
    requires Sound(h, e) && e.event.TargetChanged?
    ensures e.event.changed.Obj? && Landed(r, e).name == r.name && Landed(r, e).revision == e.event.revision
  {
    SoundDecodes(h, e, r);
  }

  lemma ReceiveInTurn(h: History, held: Snapshot, e: Sent)
    requires Sound(h, e)
    ensures StandsAt(Receive(Following(held), e), NextTurns(TurnsOf(held.targets), e.event))
  {
    hide Sound, Find, HealthOf, Names.Position;
    if e.event.TargetChanged? {
      AcceptedExactly(h, held, e);
      SamePosition(held.targets, e.event.target);
      var i := Find(held.targets, e.event.target);
      if i < |held.targets| {
        LandedName(h, held.targets[i], e);
        var r := Landed(held.targets[i], e);
        assert e.event.revision == held.targets[i].revision + 1 ==> r.name == e.event.target;
        assert TurnsOf(held.targets[i := r]) == TurnsOf(held.targets)[i := Turn(r.name, r.revision)];
      }
    }
  }

  lemma {:induction false} ReplayInTurn(h: History, held: Snapshot, events: seq<Sent>)
    requires AllSound(h, events)
    ensures StandsAt(Replay(Following(held), events), TurnsAfter(TurnsOf(held.targets), events))
  {
    hide Sound, NextTurns, Receive, TurnsOf;
    if events != [] {
      var front, e := events[..|events| - 1], events[|events| - 1];
      ReplayInTurn(h, held, front);
      var c := Replay(Following(held), front);
      if c.Following? { ReceiveInTurn(h, c.snapshot, e); } else { StaysEnded(c, e); }
    }
  }

  /**
   Who stays connected, in every run whatsoever: a client is connected if and only
   if every event it was sent carried the next revision of a target listed at the
   time.  What the events say never matters, and neither does which target of a
   name they were about.
   */
  lemma ConnectedExactly(config: DaemonConfig, dirs: set<string>, pid: string, run: seq<Label>, i: nat, k: nat)
    requires WellFormed(config) && i <= k <= |run|
    ensures var a, b := Exec(Startup(config, dirs, pid), run[..i]), Exec(Startup(config, dirs, pid), run[..k]);
            && a.log <= b.log
            && (FollowerAt(a, b).Following?
                <==> TurnsAfter(TurnsOf(Records(a.targets)), b.log[|a.log|..]).Some?)
  {
    hide Step, Startup, WellFormed, Sound, NextTurns, TurnsOf, Replay, TurnsAfter;
    var a, b := Exec(Startup(config, dirs, pid), run[..i]), Exec(Startup(config, dirs, pid), run[..k]);
    LogGrows(Startup(config, dirs, pid), run, i, k);
    RecordedOverRuns(config, dirs, pid, run[..k]);
    SuffixSound(b, |a.log|);
    ReplayInTurn(b.history, SnapshotOf(a), b.log[|a.log|..]);
  }

  lemma SuffixSound(s: Daemon, from: nat)
    requires Recorded(s) && from <= |s.log|
    ensures AllSound(s.history, s.log[from..])
  {
    hide Sound, Tracked;
  }

  lemma {:induction false} LogGrows(s: Daemon, run: seq<Label>, i: nat, k: nat)
    requires i <= k <= |run|
    ensures Exec(s, run[..i]).log <= Exec(s, run[..k]).log
  {
    hide Step;
    if i < k {
      LogGrows(s, run, i, k - 1);
      ExecPrefix(s, run, k - 1);
      StepLogGrows(Exec(s, run[..k - 1]), run[k - 1]);
    }
  }

  lemma StepLogGrows(s: Daemon, l: Label)
    ensures s.log <= Step(s, l).log
  {
    hide EditOf, RecordOf, SnapshotFrom, WellFormed, EditedConfig;
  }
}
