/**
 State replication: a client that takes a snapshot at any moment and then
 consumes the broadcast holds the daemon's state, for as long as it is connected.
 */
module Replica {
  import opened Wrappers
  import opened Json
  import opened Protocol
  import opened Fields
  import opened Delta
  import opened Observed
  import opened Config
  import opened Ordering
  import opened HealthReport
  import opened Runtime
  import opened Machine
  import opened Receiver
  import opened Agreement

  // ---- Records in a snapshot ----

  lemma KeyIndex(targets: map<string, RuntimeTarget>, name: string) returns (i: nat)
    requires name in targets
    ensures i < |SortedKeys(targets.Keys)| && SortedKeys(targets.Keys)[i] == name
    ensures forall j | 0 <= j < |SortedKeys(targets.Keys)| && j != i :: SortedKeys(targets.Keys)[j] != name
  {
    AscendingDistinct(SortedKeys(targets.Keys));
    i :| 0 <= i < |SortedKeys(targets.Keys)| && SortedKeys(targets.Keys)[i] == name;
  }

  lemma FindIn(keys: seq<string>, targets: map<string, RuntimeTarget>, i: nat)
    requires forall k | k in keys :: k in targets
    requires i < |keys| && forall j | 0 <= j < |keys| && j != i :: keys[j] != keys[i]
    ensures Find(RecordsIn(keys, targets), keys[i]) == i
  {
    var records := RecordsIn(keys, targets);
    assert records[i].name == keys[i];
  }

  lemma UpdateIn(keys: seq<string>, targets: map<string, RuntimeTarget>, i: nat, t: RuntimeTarget)
    requires forall k | k in keys :: k in targets
    requires i < |keys| && forall j | 0 <= j < |keys| && j != i :: keys[j] != keys[i]
    ensures RecordsIn(keys, targets[keys[i] := t]) == RecordsIn(keys, targets)[i := RecordOf(keys[i], t)]
  {
  }

  /** A record of the snapshot is the record of its target, and no other name is found. */
  lemma RecordsAt(targets: map<string, RuntimeTarget>, name: string)
    ensures Find(Records(targets), name) < |Records(targets)| <==> name in targets
    ensures name in targets ==> Records(targets)[Find(Records(targets), name)] == RecordOf(name, targets[name])
  {
    if Find(Records(targets), name) < |Records(targets)| {
      assert SortedKeys(targets.Keys)[Find(Records(targets), name)] == name;
    }
    if name in targets {
      var i := KeyIndex(targets, name);
      FindIn(SortedKeys(targets.Keys), targets, i);
    }
  }

  /**
   What the snapshot shows: version 1, the node's name, every target once and in
   ascending order of the names, each as it is, and the summary of what it shows.
   */
  lemma SnapshotShows(s: Daemon)
    ensures var snapshot := SnapshotOf(s);
            && snapshot.protocolVersion == 1 && snapshot.nodeId == s.config.node.id
            && |snapshot.targets| == |s.targets.Keys|
            && (forall i, j | 0 <= i < j < |snapshot.targets| ::
                  Below(snapshot.targets[i].name, snapshot.targets[j].name))
            && (forall i | 0 <= i < |snapshot.targets| ::
                  && snapshot.targets[i].name in s.targets
                  && var t := s.targets[snapshot.targets[i].name];
                     snapshot.targets[i]
                     == TargetRecord(snapshot.targets[i].name, t.config.disabled, t.stopped, t.online,
                                     t.config.channel, t.observed, t.revision))
            && (|s.targets.Keys| < 0x1_0000_0000 ==> Reports(snapshot.health, snapshot.targets))
  {
    hide Below, HealthOf, Reports;
    if |s.targets.Keys| < 0x1_0000_0000 { SummaryCounts(SnapshotOf(s).targets); }
  }

  /** Replacing one target's state replaces exactly its record. */
  lemma RecordsUpdated(targets: map<string, RuntimeTarget>, name: string, t: RuntimeTarget) returns (i: nat)
    requires name in targets
    ensures i == Find(Records(targets), name) < |Records(targets)|
    ensures Records(targets)[i] == RecordOf(name, targets[name])
    ensures Records(targets[name := t]) == Records(targets)[i := RecordOf(name, t)]
  {
    i := KeyIndex(targets, name);
    FindIn(SortedKeys(targets.Keys), targets, i);
    UpdateIn(SortedKeys(targets.Keys), targets, i, t);
    assert targets[name := t].Keys == targets.Keys;
  }

  /** An accepted change, at the level of the record it is about. */
  lemma ChangeAccepted(s: Snapshot, i: nat, target: string, changes: Changes, r: TargetRecord)
    requires i == Find(s.targets, target) < |s.targets|
    requires r.revision == s.targets[i].revision + 1
    requires ApplyChanges(s.targets[i], changes) == Some(r.(revision := s.targets[i].revision))
    ensures ApplyTargetChange(s, target, r.revision, ToObject(changes))
            == Success(s.(targets := s.targets[i := r], health := HealthOf(s.targets[i := r])))
  {
    ObjectRoundTrip(changes);
  }

  /** The client's step on the change event of one edit is the edit. */
  lemma ChangeEventFollows(
      nodeId: string, targets: map<string, RuntimeTarget>, name: string, t: RuntimeTarget, changes: Changes)
    requires name in targets
    requires t.revision == targets[name].revision + 1
    requires ApplyChanges(RecordOf(name, targets[name]), changes)
             == Some(RecordOf(name, t).(revision := targets[name].revision))
    ensures Receive(Following(SnapshotFrom(nodeId, targets)), ChangeEvent(name, t, changes))
            == Following(SnapshotFrom(nodeId, targets[name := t]))
  {
    var i := RecordsUpdated(targets, name, t);
    ChangeAccepted(SnapshotFrom(nodeId, targets), i, name, changes, RecordOf(name, t));
  }

  lemma SilentEditUnseen(nodeId: string, targets: map<string, RuntimeTarget>, name: string, t: RuntimeTarget)
    requires name in targets && RecordOf(name, t) == RecordOf(name, targets[name])
    ensures SnapshotFrom(nodeId, targets[name := t]) == SnapshotFrom(nodeId, targets)
  {
    var i := RecordsUpdated(targets, name, t);
    assert Records(targets)[i := Records(targets)[i]] == Records(targets);
  }

  // ---- Replica equality, when every event leaves before anything else happens ----

  predicate Prompt(l: Label) { l.Run? ==> l.prompt }

  /** The step sent at most one event, and a client that was in step still is. */
  ghost predicate Follows(s: Daemon, t: Daemon) {
    && (t.unsent == s.unsent)
    && s.log <= t.log
    && |t.log| <= |s.log| + 1
    && (if t.log == s.log then SnapshotOf(t) == SnapshotOf(s)
        else Receive(Following(SnapshotOf(s)), t.log[|s.log|]) == Following(SnapshotOf(t)))
  }

  /** An announcement sent at once; the rest of the state may change with it, but not the node's name. */
  lemma AnnounceFollows(s: Daemon, edited: Daemon, name: string, t: RuntimeTarget, changes: Changes)
    requires edited.targets == s.targets && edited.log == s.log && edited.unsent == s.unsent
    requires edited.config.node.id == s.config.node.id
    requires name in s.targets && t.revision == s.targets[name].revision + 1
    requires ApplyChanges(RecordOf(name, s.targets[name]), changes)
             == Some(RecordOf(name, t).(revision := s.targets[name].revision))
    ensures Follows(s, Announce(edited, name, t, changes, true))
  {
    ChangeEventFollows(s.config.node.id, s.targets, name, t, changes);
    var after := Announce(edited, name, t, changes, true);
    assert after.log[|s.log|] == ChangeEvent(name, t, changes);
    assert after.log != s.log by { assert |after.log| == |s.log| + 1; }
  }

  lemma EditFollows(s: Daemon, name: string, section: Section)
    ensures Follows(s, EditTarget(s, name, section, true))
  {
    if name in s.targets {
      var t := s.targets[name];
      RevisionDiscipline(name, section, t);
      match EditOf(section, t)
      case Untouched =>
      case Silent(u) =>
        SilentEditUnseen(s.config.node.id, s.targets, name, u);
      case Announced(u, changes) =>
        AnnouncementIsExact(name, section, t);
        AnnounceFollows(s, s, name, u, changes);
    }
  }

  lemma EntryIsExact(name: string, t: RuntimeTarget, change: ConfigChange)
    ensures ApplyChanges(RecordOf(name, t), ChangeFields(change))
            == Some(RecordOf(name, t.(config := Changed(t.config, change))))
  {
    match change
    case SetDisabled(disabled) => SingleChange(RecordOf(name, t), Field.Disabled, Bool(disabled));
    case SetChannel(channel) => SingleChange(RecordOf(name, t), Field.Channel, OptionalStr(channel));
  }

  lemma EntryFollows(s: Daemon, name: string, change: ConfigChange, written: bool)
    requires Consistent(s)
    ensures Follows(s, ChangeEntry(s, name, change, written))
  {
    hide Follows, Announce, ApplyChanges, WellFormed;
    FollowsItself(s);
    IndexOfMember(s.config.targets, s.targets, name);
    var i := IndexOf(s.config.targets, name);
    if i < |s.config.targets| {
      var t, entry := s.targets[name], Changed(s.config.targets[i], change);
      var candidate := s.config.(targets := s.config.targets[i := entry]);
      EntryIsExact(name, t, change);
      AnnounceFollows(s, s.(config := candidate, disk := candidate), name,
                      Bump(t.(config := entry)), ChangeFields(change));
    }
  }

  lemma CommitFollows(s: Daemon)
    requires Consistent(s) && s.mutation.Holding? && s.mutation.phase.Persisted?
    ensures Follows(s, CommitCandidate(s))
  {
    var t := CommitCandidate(s);
    assert t.log == s.log + [Sent(SnapshotTaken(SnapshotOf(t)), 0)];
  }

  /** The labels that send nothing and change nothing a client sees. */
  predicate Backstage(l: Label) {
    l.BeginAdd? || l.BeginRemove? || l.BeginRename? || l.AbortRemove? || l.MoveDirectory?
    || l.BuildCandidate? || l.Persist? || l.Finish?
  }

  lemma BackstageStep(s: Daemon, l: Label)
    requires Backstage(l)
    ensures var t := Step(s, l);
            && t.targets == s.targets && t.config == s.config && t.log == s.log
            && t.unsent == s.unsent && t.history == s.history && t.flights == s.flights
  {
  }

  /** Only what clients see matters for following. */
  ghost predicate SameView(s: Daemon, t: Daemon) {
    t.targets == s.targets && t.config == s.config && t.log == s.log && t.unsent == s.unsent
  }

  lemma FollowsSameView(s: Daemon, u: Daemon, s': Daemon, u': Daemon)
    requires Follows(s, u) && SameView(s, s') && SameView(u, u')
    ensures Follows(s', u')
  {
  }

  lemma FollowsItself(s: Daemon)
    ensures Follows(s, s)
  {
  }

  lemma RunFollows(s: Daemon, name: string, section: Section)
    ensures Follows(s, RunSection(s, name, section, true))
  {
    hide EditTarget, Follows, ClaimsLaunch;
    EditFollows(s, name, section);
    FollowsSameView(s, EditTarget(s, name, section, true), s, RunSection(s, name, section, true));
  }

  lemma EndLaunchFollows(s: Daemon, name: string, section: Section)
    ensures Follows(s, EndLaunch(s, name, section))
  {
    hide EditTarget, Follows;
    FollowsItself(s);
    if name in s.flights {
      var landed := s.(flights := s.flights - multiset{name});
      EditFollows(landed, name, section);
      FollowsSameView(landed, EditTarget(landed, name, section, true), s, EndLaunch(s, name, section));
    }
  }

  lemma StepFollows(s: Daemon, l: Label)
    requires Consistent(s) && s.unsent == [] && Prompt(l)
    ensures Follows(s, Step(s, l))
  {
    hide Follows, EditTarget, RunSection, EndLaunch, ChangeEntry, CommitCandidate, Proceed, Consistent;
    FollowsItself(s);
    match l
    case Run(name, section, _) => RunFollows(s, name, section);
    case Attach(name) => EditFollows(s, name, MarkOnline);
    case LaunchSucceeded(name) => EndLaunchFollows(s, name, MarkOnline);
    case LaunchFailed(name) => EndLaunchFollows(s, name, ClearLaunching);
    case Change(name, change, written) => EntryFollows(s, name, change, written);
    case Commit => if s.mutation.Holding? && s.mutation.phase.Persisted? { CommitFollows(s); }
    case Send(_) =>
    case _ =>
      BackstageStep(s, l);
      FollowsSameView(s, s, s, Step(s, l));
  }

  // ---- Runs ----

  lemma ReplayOneMore(c: Follower, log: seq<Sent>, from: nat, e: Sent)
    requires from <= |log|
    ensures Replay(c, (log + [e])[from..]) == Receive(Replay(c, log[from..]), e)
  {
    assert (log + [e])[from..] == log[from..] + [e];
    assert (log[from..] + [e])[..|log[from..]|] == log[from..];
  }

  lemma ExecPrefix(s: Daemon, run: seq<Label>, k: nat)
    requires k < |run|
    ensures Exec(s, run[..k + 1]) == Step(Exec(s, run[..k]), run[k])
  {
    hide Step;
    assert run[..k + 1][..k] == run[..k];
  }

  lemma {:induction false} ExecJoined(s: Daemon, a: seq<Label>, b: seq<Label>)
    ensures Exec(s, a + b) == Exec(Exec(s, a), b)
  {
    hide Step;
    if b == [] {
      assert a + b == a;
    } else {
      var front := b[..|b| - 1];
      assert (a + b)[..|a + b| - 1] == a + front;
      ExecJoined(s, a, front);
    }
  }

  lemma ExecOne(s: Daemon, l: Label)
    ensures Exec(s, [l]) == Step(s, l)
  {
    hide Step;
    assert [l][..0] == [];
  }

  lemma ThreeSteps(s: Daemon, l: seq<Label>)
    requires |l| == 3
    ensures Exec(s, l) == Step(Step(Step(s, l[0]), l[1]), l[2])
  {
    hide Step;
    assert l[..2][..1] == l[..1] && l[..1][..0] == [];
    assert Exec(s, l[..1]) == Step(s, l[0]);
  }

  lemma FiveSteps(s: Daemon, l: seq<Label>)
    requires |l| == 5
    ensures Exec(s, l) == Step(Step(Step(Step(Step(s, l[0]), l[1]), l[2]), l[3]), l[4])
  {
    hide Step;
    assert l[..4][..3] == l[..3] && l[..3][..2] == l[..2] && l[..2][..1] == l[..1];
    assert l[..1][..0] == [];
    assert Exec(s, l[..1]) == Step(s, l[0]);
    assert Exec(s, l[..2]) == Step(Step(s, l[0]), l[1]);
    assert Exec(s, l[..3]) == Step(Step(Step(s, l[0]), l[1]), l[2]);
  }

  lemma SixSteps(s: Daemon, l: seq<Label>)
    requires |l| == 6
    ensures Exec(s, l) == Step(Step(Step(Step(Step(Step(s, l[0]), l[1]), l[2]), l[3]), l[4]), l[5])
  {
    hide Step;
    assert l[..5][..4] == l[..4] && l[..4][..3] == l[..3] && l[..3][..2] == l[..2] && l[..2][..1] == l[..1];
    assert l[..1][..0] == [];
    assert Exec(s, l[..1]) == Step(s, l[0]);
    assert Exec(s, l[..2]) == Step(Step(s, l[0]), l[1]);
    assert Exec(s, l[..3]) == Step(Step(Step(s, l[0]), l[1]), l[2]);
    assert Exec(s, l[..4]) == Step(Step(Step(Step(s, l[0]), l[1]), l[2]), l[3]);
  }

  /** What a client that subscribed at `origin` holds once it has consumed everything sent until `now`. */
  ghost function FollowerAt(origin: Daemon, now: Daemon): Follower
    requires |origin.log| <= |now.log|
  {
    Replay(Following(SnapshotOf(origin)), now.log[|origin.log|..])
  }

  ghost predicate InStep(origin: Daemon, now: Daemon) {
    origin.log <= now.log && FollowerAt(origin, now) == Following(SnapshotOf(now))
  }

  lemma FollowerAtOrigin(s: Daemon)
    ensures InStep(s, s)
  {
    hide Exec, Step;
    assert s.log[|s.log|..] == [];
  }

  lemma InStepExtends(origin: Daemon, s: Daemon, t: Daemon)
    requires InStep(origin, s) && Follows(s, t)
    ensures InStep(origin, t)
  {
    hide Receive, Replay, SnapshotOf;
    if t.log != s.log {
      var e := t.log[|s.log|];
      assert t.log == s.log + [e];
      ReplayOneMore(Following(SnapshotOf(origin)), s.log, |origin.log|, e);
    }
  }

  /**
   Replica equality: in every run in which each event leaves before anything else
   happens, a client that subscribes after any step `i` is never rejected, and
   after every later step `k` it holds exactly the daemon's snapshot: the same
   targets in the same order with every field, revision and the health.
   */
  lemma {:induction false} ReplicaEquality(
      config: DaemonConfig, dirs: set<string>, pid: string, run: seq<Label>, i: nat, k: nat)
    requires WellFormed(config) && i <= k <= |run|
    requires forall l | l in run :: Prompt(l)
    ensures var a, b := Exec(Startup(config, dirs, pid), run[..i]), Exec(Startup(config, dirs, pid), run[..k]);
            InStep(a, b)
  {
    hide *;
    var start := Startup(config, dirs, pid);
    if k == i {
      FollowerAtOrigin(Exec(start, run[..i]));
    } else {
      ReplicaEquality(config, dirs, pid, run, i, k - 1);
      PromptStepFollows(config, dirs, pid, run, k - 1);
      InStepExtends(Exec(start, run[..i]), Exec(start, run[..k - 1]), Exec(start, run[..k]));
    }
  }

  lemma {:induction false} PromptStepFollows(
      config: DaemonConfig, dirs: set<string>, pid: string, run: seq<Label>, k: nat)
    requires WellFormed(config) && k < |run|
    requires forall l | l in run :: Prompt(l)
    ensures Exec(Startup(config, dirs, pid), run[..k]).unsent == []
    ensures Follows(Exec(Startup(config, dirs, pid), run[..k]), Exec(Startup(config, dirs, pid), run[..k + 1]))
  {
    hide Step, Consistent, SnapshotOf, Receive;
    if k > 0 {
      PromptStepFollows(config, dirs, pid, run, k - 1);
    }
    ExecPrefix(Startup(config, dirs, pid), run, k);
    AgreementOverRuns(config, dirs, pid, run[..k]);
    StepFollows(Exec(Startup(config, dirs, pid), run[..k]), run[k]);
  }
}
