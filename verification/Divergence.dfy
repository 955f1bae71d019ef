/**
 Replication when three of the emitters send after they have released the state
 lock: events can go out late and out of order.  A connected client then never
 holds a record its target did not have; if it missed a turn it has stopped.
 */
module Divergence {
  import opened Wrappers
  import opened Protocol
  import opened Fields
  import opened Delta
  import opened Config
  import opened Ordering
  import opened HealthReport
  import opened Runtime
  import opened Machine
  import opened Receiver
  import opened Agreement
  import opened Replica

  type History = seq<seq<TargetRecord>>

  /** A change event takes its incarnation from the record one revision back to the record of its own revision. */
  ghost predicate Sound(h: History, e: Sent) {
    e.event.TargetChanged? ==>
      var inc, revision := e.incarnation, e.event.revision;
      && inc < |h|
      && 1 <= revision < |h[inc]|
      && h[inc][revision - 1].name == h[inc][revision].name == e.event.target
      && h[inc][revision - 1].revision == revision - 1
      && h[inc][revision].revision == revision
      && e.event.changed.Obj?
      && FromObject(e.event.changed.fields).Some?
      && ApplyChanges(h[inc][revision - 1], FromObject(e.event.changed.fields).value)
         == Some(h[inc][revision].(revision := revision - 1))
  }

  /** The latest record of a target's incarnation is its current record. */
  ghost predicate Current(h: History, name: string, t: RuntimeTarget) {
    && t.incarnation < |h|
    && |h[t.incarnation]| == t.revision + 1
    && h[t.incarnation][t.revision] == RecordOf(name, t)
  }

  /** Every target's history is up to date, and no two targets share one. */
  ghost predicate Tracked(h: History, targets: map<string, RuntimeTarget>) {
    && (forall n | n in targets :: Current(h, n, targets[n]))
    && (forall m, n | m in targets && n in targets && m != n :: targets[m].incarnation != targets[n].incarnation)
  }

  ghost predicate AllSound(h: History, events: seq<Sent>) { forall e | e in events :: Sound(h, e) }

  /** The bookkeeping invariant. */
  ghost predicate Recorded(s: Daemon) {
    && Tracked(s.history, s.targets)
    && AllSound(s.history, s.log)
    && AllSound(s.history, s.unsent)
    && forall e | e in s.unsent :: e.event.TargetChanged?
  }

  ghost predicate Grows(h: History, g: History) {
    |h| <= |g| && forall i | 0 <= i < |h| :: h[i] <= g[i]
  }

  lemma SoundGrows(h: History, g: History, e: Sent)
    requires Grows(h, g) && Sound(h, e)
    ensures Sound(g, e)
  {
    if e.event.TargetChanged? {
      assert h[e.incarnation] <= g[e.incarnation];
    }
  }

  lemma AllSoundGrow(h: History, g: History, events: seq<Sent>)
    requires Grows(h, g) && AllSound(h, events)
    ensures AllSound(g, events)
  {
    forall e | e in events ensures Sound(g, e) { SoundGrows(h, g, e); }
  }

  lemma AllSoundAppend(h: History, events: seq<Sent>, e: Sent)
    requires AllSound(h, events) && Sound(h, e)
    ensures AllSound(h, events + [e])
  {
  }

  // ---- Bookkeeping is kept ----

  lemma TrackedAfterEdit(h: History, targets: map<string, RuntimeTarget>, name: string, t: RuntimeTarget)
    requires Tracked(h, targets) && name in targets
    requires t.revision == targets[name].revision + 1 && t.incarnation == targets[name].incarnation
    ensures Tracked(Grown(h, t.incarnation, RecordOf(name, t)), targets[name := t])
    ensures Grows(h, Grown(h, t.incarnation, RecordOf(name, t)))
  {
    var g := Grown(h, t.incarnation, RecordOf(name, t));
    assert Current(h, name, targets[name]);
    forall n | n in targets && n != name ensures Current(g, n, targets[n]) {
      assert Current(h, n, targets[n]);
    }
  }

  lemma ChangeEventSound(h: History, name: string, before: RuntimeTarget, t: RuntimeTarget, changes: Changes)
    requires Current(h, name, before)
    requires t.revision == before.revision + 1 && t.incarnation == before.incarnation
    requires ApplyChanges(RecordOf(name, before), changes) == Some(RecordOf(name, t).(revision := before.revision))
    ensures Sound(Grown(h, t.incarnation, RecordOf(name, t)), ChangeEvent(name, t, changes))
  {
    hide ApplyChanges, ToObject, FromObject;
    ObjectRoundTrip(changes);
  }

  lemma AnnounceKeeps(s: Daemon, edited: Daemon, name: string, t: RuntimeTarget, changes: Changes, atOnce: bool)
    requires Recorded(s)
    requires edited.targets == s.targets && edited.history == s.history
    requires edited.log == s.log && edited.unsent == s.unsent
    requires name in s.targets && t.revision == s.targets[name].revision + 1
    requires t.incarnation == s.targets[name].incarnation
    requires ApplyChanges(RecordOf(name, s.targets[name]), changes)
             == Some(RecordOf(name, t).(revision := s.targets[name].revision))
    ensures Recorded(Announce(edited, name, t, changes, atOnce))
    ensures Grows(s.history, Announce(edited, name, t, changes, atOnce).history)
  {
    hide Sound, Current, AllSound, ApplyChanges, Grown, Grows, RecordOf;
    var g := Grown(s.history, t.incarnation, RecordOf(name, t));
    TrackedAfterEdit(s.history, s.targets, name, t);
    ChangeEventSound(s.history, name, s.targets[name], t, changes);
    AllSoundGrow(s.history, g, s.log);
    AllSoundGrow(s.history, g, s.unsent);
    AllSoundAppend(g, if atOnce then s.log else s.unsent, ChangeEvent(name, t, changes));
  }

  lemma EditKeeps(s: Daemon, name: string, section: Section, prompt: bool)
    requires Recorded(s)
    ensures Recorded(EditTarget(s, name, section, prompt))
    ensures Grows(s.history, EditTarget(s, name, section, prompt).history)
  {
    if name in s.targets {
      var t := s.targets[name];
      RevisionDiscipline(name, section, t);
      SectionFrame(section, t);
      match EditOf(section, t)
      case Untouched =>
      case Silent(u) =>
        forall n | n in s.targets ensures Current(s.history, n, s.targets[name := u][n]) {
          assert Current(s.history, n, s.targets[n]);
        }
      case Announced(u, changes) =>
        AnnouncementIsExact(name, section, t);
        AnnounceKeeps(s, s, name, u, changes, prompt || !SendsAfterUnlock(section));
    }
  }

  lemma EntryKeeps(s: Daemon, name: string, change: ConfigChange, written: bool)
    requires Consistent(s) && Recorded(s)
    ensures Recorded(ChangeEntry(s, name, change, written))
    ensures Grows(s.history, ChangeEntry(s, name, change, written).history)
  {
    IndexOfMember(s.config.targets, s.targets, name);
    var i := IndexOf(s.config.targets, name);
    if i < |s.config.targets| {
      var t, entry := s.targets[name], Changed(s.config.targets[i], change);
      var candidate := s.config.(targets := s.config.targets[i := entry]);
      EntryIsExact(name, t, change);
      AnnounceKeeps(s, s.(config := candidate, disk := candidate), name,
                    Bump(t.(config := entry)), ChangeFields(change), true);
    }
  }

  lemma TrackedAfterAdd(h: History, targets: map<string, RuntimeTarget>, name: string, t: RuntimeTarget)
    requires Tracked(h, targets) && name !in targets && t.incarnation == |h| && t.revision == 0
    ensures Tracked(h + [[RecordOf(name, t)]], targets[name := t]) && Grows(h, h + [[RecordOf(name, t)]])
  {
    forall n | n in targets ensures Current(h + [[RecordOf(name, t)]], n, targets[n]) {
      assert Current(h, n, targets[n]);
    }
  }

  lemma TrackedAfterRemove(h: History, targets: map<string, RuntimeTarget>, name: string)
    requires Tracked(h, targets)
    ensures Tracked(h, targets - {name}) && Grows(h, h)
  {
    hide Current;
  }

  lemma TrackedAfterRename(
      h: History, targets: map<string, RuntimeTarget>, name: string, other: string, t: RuntimeTarget)
    requires Tracked(h, targets) && name in targets && other !in targets
    requires t.revision == targets[name].revision + 1 && t.incarnation == targets[name].incarnation
    ensures Tracked(Grown(h, t.incarnation, RecordOf(other, t)), (targets - {name})[other := t])
    ensures Grows(h, Grown(h, t.incarnation, RecordOf(other, t)))
  {
    var g := Grown(h, t.incarnation, RecordOf(other, t));
    assert Current(h, name, targets[name]);
    forall n | n in targets && n != name ensures Current(g, n, targets[n]) {
      assert Current(h, n, targets[n]);
    }
  }

  lemma SnapshotSendKeeps(h: History, g: History, log: seq<Sent>, unsent: seq<Sent>, e: Sent)
    requires Grows(h, g) && AllSound(h, log) && AllSound(h, unsent) && e.event.SnapshotTaken?
    ensures AllSound(g, log + [e]) && AllSound(g, unsent)
  {
    AllSoundGrow(h, g, log);
    AllSoundGrow(h, g, unsent);
    AllSoundAppend(g, log, e);
  }

  lemma CommitTracks(s: Daemon)
    requires Consistent(s) && Recorded(s) && s.mutation.Holding? && s.mutation.phase.Persisted?
    ensures var t := CommitCandidate(s); Tracked(t.history, t.targets) && Grows(s.history, t.history)
  {
    hide CommitCandidate, Consistent, EditedConfig, Agree, Sound, AllSound, RecordOf, Grown, Current, Tracked, Grows;
    CandidateAtCommit(s);
    CommitLists(s);
    RecordedTracks(s);
    match s.mutation.op
    case Add(target) =>
      TrackedAfterAdd(s.history, s.targets, target.name, NewTarget(target, true, |s.history|));
    case Remove(name) => TrackedAfterRemove(s.history, s.targets, name);
    case Rename(name, replacement) =>
      TrackedAfterRename(s.history, s.targets, name, replacement,
                         Bump(s.targets[name].(config := s.targets[name].config.(name := replacement))));
  }

  lemma CommitLists(s: Daemon)
    requires s.mutation.Holding? && s.mutation.phase.Persisted?
    requires s.mutation.op.Rename? ==> s.mutation.op.name in s.targets
    ensures CommitCandidate(s).targets == RelistedTargets(s.mutation.op, s.targets, |s.history|)
    ensures CommitCandidate(s).history == RelistedHistory(s.mutation.op, s.targets, s.history)
  {
    hide RelistedTargets, RelistedHistory, SnapshotFrom;
  }

  lemma RecordedTracks(s: Daemon)
    requires Recorded(s)
    ensures Tracked(s.history, s.targets)
  {
  }

  lemma CommitSends(s: Daemon)
    requires Consistent(s) && s.mutation.Holding? && s.mutation.phase.Persisted?
    ensures var t := CommitCandidate(s);
            t.log == s.log + [Sent(SnapshotTaken(SnapshotOf(t)), 0)] && t.unsent == s.unsent
  {
  }

  lemma CommitKeepsRecords(s: Daemon)
    requires Consistent(s) && Recorded(s) && s.mutation.Holding? && s.mutation.phase.Persisted?
    ensures Recorded(CommitCandidate(s))
    ensures Grows(s.history, CommitCandidate(s).history)
  {
    var t := CommitCandidate(s);
    CommitTracks(s);
    CommitSends(s);
    SnapshotSendKeeps(s.history, t.history, s.log, s.unsent, Sent(SnapshotTaken(SnapshotOf(t)), 0));
  }

  lemma EndLaunchKeeps(s: Daemon, name: string, section: Section)
    requires Recorded(s)
    ensures Recorded(EndLaunch(s, name, section)) && Grows(s.history, EndLaunch(s, name, section).history)
  {
    if name in s.flights {
      EditKeeps(s.(flights := s.flights - multiset{name}), name, section, true);
    }
  }

  lemma RunKeeps(s: Daemon, name: string, section: Section, prompt: bool)
    requires Recorded(s)
    ensures Recorded(RunSection(s, name, section, prompt))
    ensures Grows(s.history, RunSection(s, name, section, prompt).history)
  {
    EditKeeps(s, name, section, prompt);
  }

  lemma RecordsSameView(s: Daemon, t: Daemon)
    requires Recorded(s) && SameView(s, t) && t.history == s.history
    ensures Recorded(t) && Grows(s.history, t.history)
  {
  }

  lemma SendKeeps(s: Daemon, k: nat)
    requires Recorded(s)
    ensures Recorded(SendLate(s, k)) && Grows(s.history, SendLate(s, k).history)
  {
    hide Sound, Tracked;
    if k < |s.unsent| {
      AllSoundAppend(s.history, s.log, s.unsent[k]);
      forall e | e in s.unsent[..k] + s.unsent[k + 1..] ensures e in s.unsent {}
    }
  }

  lemma StepKeepsRecords(s: Daemon, l: Label)
    requires Consistent(s) && Recorded(s)
    ensures Recorded(Step(s, l)) && Grows(s.history, Step(s, l).history)
  {
    hide Recorded, Consistent, RunSection, EditTarget, EndLaunch, ChangeEntry, CommitCandidate, SendLate;
    RecordsSameView(s, s);
    match l
    case Run(name, section, prompt) => RunKeeps(s, name, section, prompt);
    case Attach(name) => EditKeeps(s, name, MarkOnline, true);
    case LaunchSucceeded(name) => EndLaunchKeeps(s, name, MarkOnline);
    case LaunchFailed(name) => EndLaunchKeeps(s, name, ClearLaunching);
    case Change(name, change, written) => EntryKeeps(s, name, change, written);
    case Commit => if s.mutation.Holding? && s.mutation.phase.Persisted? { CommitKeepsRecords(s); }
    case Send(k) => SendKeeps(s, k);
    case _ =>
      BackstageStep(s, l);
      RecordsSameView(s, Step(s, l));
  }

  // ---- What a client may hold ----

  /**
   The client lists the daemon's targets in the daemon's order, and each of its
   records is one the target's incarnation really had, at the revision the record
   names.  A client that stopped did so on a revision gap or an unknown target.
   */
  ghost predicate Faithful(c: Follower, s: Daemon) {
    match c
    case Ended(error) => error.RevisionGap? || error.UnknownTarget?
    case Following(held) =>
      && held.protocolVersion == PROTOCOL_VERSION
      && held.nodeId == s.config.node.id
      && held.health == HealthOf(held.targets)
      && |held.targets| == |SortedKeys(s.targets.Keys)|
      && forall i | 0 <= i < |held.targets| :: Historical(held.targets[i], SortedKeys(s.targets.Keys)[i], s)
  }

  /** `r` is what the target now called `name` looked like at revision `r.revision`. */
  ghost predicate Historical(r: TargetRecord, name: string, s: Daemon) {
    && r.name == name
    && name in s.targets
    && r.revision <= s.targets[name].revision
    && var inc := s.targets[name].incarnation;
       inc < |s.history| && r.revision < |s.history[inc]| && s.history[inc][r.revision] == r
  }

  /** A step that leaves the target list alone: same names, same incarnations, revisions only rise. */
  ghost predicate SameListing(s: Daemon, t: Daemon) {
    && t.config.node.id == s.config.node.id
    && t.targets.Keys == s.targets.Keys
    && forall n | n in s.targets ::
         t.targets[n].incarnation == s.targets[n].incarnation && s.targets[n].revision <= t.targets[n].revision
  }

  /** The event is about the target that has its name now, if any has. */
  predicate OnCurrent(s: Daemon, e: Sent) {
    e.event.TargetChanged? && e.event.target in s.targets ==> s.targets[e.event.target].incarnation == e.incarnation
  }

  /** No late event outlives its target's name being reused. */
  predicate SendsFresh(s: Daemon, l: Label) {
    l.Send? && l.k < |s.unsent| ==> OnCurrent(s, s.unsent[l.k])
  }

  lemma FaithfulQuietly(c: Follower, s: Daemon, t: Daemon)
    requires Faithful(c, s) && SameListing(s, t) && Grows(s.history, t.history)
    ensures Faithful(c, t)
  {
    if c.Following? {
      forall i | 0 <= i < |c.snapshot.targets|
        ensures Historical(c.snapshot.targets[i], SortedKeys(t.targets.Keys)[i], t)
      {
        assert Historical(c.snapshot.targets[i], SortedKeys(s.targets.Keys)[i], s);
        assert s.history[s.targets[SortedKeys(s.targets.Keys)[i]].incarnation]
            <= t.history[s.targets[SortedKeys(s.targets.Keys)[i]].incarnation];
      }
    }
  }

  lemma SnapshotFaithful(s: Daemon)
    requires Recorded(s)
    ensures Faithful(Following(SnapshotOf(s)), s)
  {
    forall i | 0 <= i < |SortedKeys(s.targets.Keys)|
      ensures Historical(Records(s.targets)[i], SortedKeys(s.targets.Keys)[i], s)
    {
      assert Current(s.history, SortedKeys(s.targets.Keys)[i], s.targets[SortedKeys(s.targets.Keys)[i]]);
    }
  }

  /** A sound change decodes whatever record it is applied to at the right revision. */
  lemma SoundChangeLands(h: History, e: Sent, held: Snapshot, i: nat)
    requires Sound(h, e) && e.event.TargetChanged?
    requires i == Find(held.targets, e.event.target) < |held.targets|
    requires e.event.revision == held.targets[i].revision + 1
    requires held.targets[i] == h[e.incarnation][e.event.revision - 1]
    ensures var r := h[e.incarnation][e.event.revision];
            ApplyTargetChange(held, e.event.target, e.event.revision, e.event.changed)
            == Success(held.(targets := held.targets[i := r], health := HealthOf(held.targets[i := r])))
  {
  }

  lemma ReplacedFaithful(held: Snapshot, s: Daemon, i: nat, r: TargetRecord)
    requires Faithful(Following(held), s) && i < |held.targets|
    requires Historical(r, SortedKeys(s.targets.Keys)[i], s)
    ensures Faithful(Following(held.(targets := held.targets[i := r], health := HealthOf(held.targets[i := r]))), s)
  {
  }

  lemma RecordOfChangeHistorical(s: Daemon, e: Sent, name: string)
    requires Recorded(s) && Sound(s.history, e) && e.event.TargetChanged? && OnCurrent(s, e)
    requires e.event.target == name && name in s.targets
    ensures Historical(s.history[e.incarnation][e.event.revision], name, s)
  {
    assert Current(s.history, name, s.targets[name]);
  }

  /** A change whose target is unknown or whose revision is not the next one ends the connection. */
  lemma OutOfTurnEnds(held: Snapshot, e: Sent)
    requires e.event.TargetChanged?
    requires var i := Find(held.targets, e.event.target);
             i == |held.targets| || e.event.revision != held.targets[i].revision + 1
    ensures var c := Receive(Following(held), e); c.Ended? && (c.error.RevisionGap? || c.error.UnknownTarget?)
  {
  }

  lemma NextChangeFaithful(held: Snapshot, s: Daemon, e: Sent, i: nat)
    requires Recorded(s) && Faithful(Following(held), s) && Sound(s.history, e)
    requires e.event.TargetChanged? && OnCurrent(s, e)
    requires i == Find(held.targets, e.event.target) < |held.targets|
    requires e.event.revision == held.targets[i].revision + 1
    ensures Faithful(Receive(Following(held), e), s)
  {
    hide ApplyChanges, FromObject, HealthOf, Current;
    assert Historical(held.targets[i], SortedKeys(s.targets.Keys)[i], s);
    SoundChangeLands(s.history, e, held, i);
    RecordOfChangeHistorical(s, e, e.event.target);
    ReplacedFaithful(held, s, i, s.history[e.incarnation][e.event.revision]);
  }

  lemma ChangeFaithful(c: Follower, s: Daemon, e: Sent)
    requires Recorded(s) && Faithful(c, s) && Sound(s.history, e) && e.event.TargetChanged? && OnCurrent(s, e)
    ensures Faithful(Receive(c, e), s)
  {
    if c.Following? {
      var i := Find(c.snapshot.targets, e.event.target);
      if i < |c.snapshot.targets| && e.event.revision == c.snapshot.targets[i].revision + 1 {
        NextChangeFaithful(c.snapshot, s, e, i);
      } else {
        OutOfTurnEnds(c.snapshot, e);
      }
    }
  }

  // ---- Over runs ----

  /** What one step can put on the broadcast. */
  ghost predicate SendsNothing(s: Daemon, t: Daemon) { t.log == s.log && SameListing(s, t) }

  ghost predicate SendsSnapshot(s: Daemon, t: Daemon) {
    t.log == s.log + [Sent(SnapshotTaken(SnapshotOf(t)), 0)]
  }

  ghost predicate SendsChange(s: Daemon, t: Daemon) {
    && SameListing(s, t)
    && |t.log| == |s.log| + 1 && s.log <= t.log
    && t.log[|s.log|].event.TargetChanged?
    && OnCurrent(t, t.log[|s.log|])
  }

  lemma AnnounceTraffic(s: Daemon, edited: Daemon, name: string, t: RuntimeTarget, changes: Changes, atOnce: bool)
    requires edited.targets == s.targets && edited.log == s.log && edited.config.node.id == s.config.node.id
    requires name in s.targets
    requires t.incarnation == s.targets[name].incarnation && s.targets[name].revision <= t.revision
    ensures var u := Announce(edited, name, t, changes, atOnce); SendsNothing(s, u) || SendsChange(s, u)
  {
  }

  lemma EditTraffic(s: Daemon, name: string, section: Section, prompt: bool)
    ensures var t := EditTarget(s, name, section, prompt); SendsNothing(s, t) || SendsChange(s, t)
  {
    if name in s.targets {
      var e := EditOf(section, s.targets[name]);
      RevisionDiscipline(name, section, s.targets[name]);
      SectionFrame(section, s.targets[name]);
      if e.Announced? {
        AnnounceTraffic(s, s, name, e.t, e.changes, prompt || !SendsAfterUnlock(section));
      }
    }
  }

  lemma EntryTraffic(s: Daemon, name: string, change: ConfigChange, written: bool)
    requires Consistent(s)
    ensures var t := ChangeEntry(s, name, change, written); SendsNothing(s, t) || SendsChange(s, t)
  {
    IndexOfMember(s.config.targets, s.targets, name);
    var i := IndexOf(s.config.targets, name);
    if i < |s.config.targets| {
      var t, entry := s.targets[name], Changed(s.config.targets[i], change);
      var candidate := s.config.(targets := s.config.targets[i := entry]);
      AnnounceTraffic(s, s.(config := candidate, disk := candidate), name,
                      Bump(t.(config := entry)), ChangeFields(change), true);
    }
  }

  lemma RunTraffic(s: Daemon, name: string, section: Section, prompt: bool)
    ensures var t := RunSection(s, name, section, prompt); SendsNothing(s, t) || SendsChange(s, t)
  {
    EditTraffic(s, name, section, prompt);
  }

  lemma EndLaunchTraffic(s: Daemon, name: string, section: Section)
    ensures var t := EndLaunch(s, name, section); SendsNothing(s, t) || SendsChange(s, t)
  {
    if name in s.flights {
      EditTraffic(s.(flights := s.flights - multiset{name}), name, section, true);
    }
  }

  /** A step sends at most one event, and a change only about the target that has the name. */
  ghost predicate Traffic(s: Daemon, t: Daemon) { SendsNothing(s, t) || SendsSnapshot(s, t) || SendsChange(s, t) }

  lemma BackstageTraffic(s: Daemon, l: Label)
    requires Backstage(l)
    ensures Traffic(s, Step(s, l))
  {
    BackstageStep(s, l);
    assert SendsNothing(s, Step(s, l));
  }

  lemma SendTraffic(s: Daemon, k: nat)
    requires Recorded(s) && SendsFresh(s, Send(k))
    ensures Traffic(s, SendLate(s, k))
  {
    hide Sound, Tracked;
    if k < |s.unsent| {
      assert SendsChange(s, SendLate(s, k));
    } else {
      assert SendsNothing(s, SendLate(s, k));
    }
  }

  lemma NothingSent(s: Daemon)
    ensures SendsNothing(s, s)
  {
  }

  lemma CommitTraffic(s: Daemon)
    requires Consistent(s) && s.mutation.Holding? && s.mutation.phase.Persisted?
    ensures SendsSnapshot(s, CommitCandidate(s))
  {
    CommitSends(s);
  }

  lemma StepTraffic(s: Daemon, l: Label)
    requires Consistent(s) && Recorded(s) && SendsFresh(s, l)
    ensures Traffic(s, Step(s, l))
  {
    hide SendsNothing, SendsChange, SendsSnapshot, Consistent, Recorded, RunSection, EditTarget, EndLaunch, ChangeEntry,
      CommitCandidate, SendLate, SendsFresh;
    NothingSent(s);
    if Backstage(l) {
      BackstageTraffic(s, l);
    } else {
      match l
      case Run(name, section, prompt) =>
        RunTraffic(s, name, section, prompt);
      case Attach(name) => EditTraffic(s, name, MarkOnline, true);
      case LaunchSucceeded(name) => EndLaunchTraffic(s, name, MarkOnline);
      case LaunchFailed(name) => EndLaunchTraffic(s, name, ClearLaunching);
      case Change(name, change, written) => EntryTraffic(s, name, change, written);
      case Commit =>
        if s.mutation.Holding? && s.mutation.phase.Persisted? {
          CommitTraffic(s);
        }
      case Send(k) => SendTraffic(s, k);
    }
  }

  lemma OneMoreReceived(origin: Daemon, s: Daemon, t: Daemon, e: Sent)
    requires origin.log <= s.log && t.log == s.log + [e]
    ensures origin.log <= t.log && FollowerAt(origin, t) == Receive(FollowerAt(origin, s), e)
  {
    ReplayOneMore(Following(SnapshotOf(origin)), s.log, |origin.log|, e);
  }

  lemma SnapshotStepFaithful(origin: Daemon, s: Daemon, t: Daemon)
    requires Recorded(t) && origin.log <= s.log && SendsSnapshot(s, t)
    requires Faithful(FollowerAt(origin, s), s)
    ensures origin.log <= t.log && Faithful(FollowerAt(origin, t), t)
  {
    OneMoreReceived(origin, s, t, t.log[|s.log|]);
    SnapshotFaithful(t);
  }

  lemma ChangeStepFaithful(origin: Daemon, s: Daemon, t: Daemon)
    requires Recorded(t) && origin.log <= s.log && SendsChange(s, t) && Grows(s.history, t.history)
    requires Faithful(FollowerAt(origin, s), s)
    ensures origin.log <= t.log && Faithful(FollowerAt(origin, t), t)
  {
    hide Faithful, Receive, FollowerAt, Sound, Tracked, Grows, SnapshotOf, OnCurrent;
    var c, e := FollowerAt(origin, s), t.log[|s.log|];
    assert Faithful(c, t) by { FaithfulQuietly(c, s, t); }
    assert Faithful(Receive(c, e), t) by { ChangeFaithful(c, t, e); }
    assert FollowerAt(origin, t) == Receive(c, e) && origin.log <= t.log by {
      assert t.log == s.log + [e];
      OneMoreReceived(origin, s, t, e);
    }
  }

  lemma StepFaithful(origin: Daemon, s: Daemon, l: Label)
    requires Consistent(s) && Recorded(s) && SendsFresh(s, l)
    requires origin.log <= s.log && Faithful(FollowerAt(origin, s), s)
    ensures origin.log <= Step(s, l).log && Faithful(FollowerAt(origin, Step(s, l)), Step(s, l))
  {
    var t := Step(s, l);
    StepTraffic(s, l);
    StepKeepsRecords(s, l);
    if SendsNothing(s, t) {
      FaithfulQuietly(FollowerAt(origin, s), s, t);
    } else if SendsSnapshot(s, t) {
      SnapshotStepFaithful(origin, s, t);
    } else {
      ChangeStepFaithful(origin, s, t);
    }
  }

  lemma {:induction false} StartupRecorded(config: DaemonConfig, dirs: set<string>, pid: string)
    requires WellFormed(config)
    ensures Recorded(Startup(config, dirs, pid))
  {
    var s := Startup(config, dirs, pid);
    BuildTargetsAgrees(config.targets);
    forall n | n in s.targets ensures Current(s.history, n, s.targets[n]) {
      var i :| 0 <= i < |config.targets| && config.targets[i] == s.targets[n].config;
    }
    forall m, n | m in s.targets && n in s.targets && m != n
      ensures s.targets[m].incarnation != s.targets[n].incarnation
    {
      var i :| 0 <= i < |config.targets| && config.targets[i] == s.targets[m].config;
      var j :| 0 <= j < |config.targets| && config.targets[j] == s.targets[n].config;
    }
  }

  lemma {:induction false} RecordedOverRuns(config: DaemonConfig, dirs: set<string>, pid: string, run: seq<Label>)
    requires WellFormed(config)
    ensures Recorded(Exec(Startup(config, dirs, pid), run))
  {
    if run == [] {
      StartupRecorded(config, dirs, pid);
    } else {
      var front := run[..|run| - 1];
      RecordedOverRuns(config, dirs, pid, front);
      AgreementOverRuns(config, dirs, pid, front);
      StepKeepsRecords(Exec(Startup(config, dirs, pid), front), run[|run| - 1]);
    }
  }

  /**
   No silent divergence: in every run, with events going out late and in any
   order, a client that subscribed after step `i` and has consumed everything
   sent until step `k` either holds, for every target, the record that target's
   incarnation really had at that revision, or has stopped with a revision gap or
   an unknown target.  The only assumption is that no late event outlives its
   target's name being reused.
   */
  lemma {:induction false} NoSilentDivergence(
      config: DaemonConfig, dirs: set<string>, pid: string, run: seq<Label>, i: nat, k: nat)
    requires WellFormed(config) && i <= k <= |run|
    requires forall j | i <= j < k :: SendsFresh(Exec(Startup(config, dirs, pid), run[..j]), run[j])
    ensures var a, b := Exec(Startup(config, dirs, pid), run[..i]), Exec(Startup(config, dirs, pid), run[..k]);
            a.log <= b.log && Faithful(FollowerAt(a, b), b)
  {
    hide Step, Recorded, Consistent, Faithful, SnapshotOf, Receive;
    var start := Startup(config, dirs, pid);
    if k == i {
      var a := Exec(start, run[..i]);
      RecordedOverRuns(config, dirs, pid, run[..i]);
      SnapshotFaithful(a);
      assert a.log[|a.log|..] == [];
    } else {
      NoSilentDivergence(config, dirs, pid, run, i, k - 1);
      ExecPrefix(start, run, k - 1);
      AgreementOverRuns(config, dirs, pid, run[..k - 1]);
      RecordedOverRuns(config, dirs, pid, run[..k - 1]);
      StepFaithful(Exec(start, run[..i]), Exec(start, run[..k - 1]), run[k - 1]);
    }
  }
}
