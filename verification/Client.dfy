/**
 The client object: its cached snapshot, its event stream and its pending map,
 changed in place by the connection task (crates/mpv-targets/src/client.rs).
 */
module Client {
  import opened Wrappers
  import opened Json
  import opened Decimal
  import opened Protocol
  import opened Fields
  import opened Delta
  import opened HealthReport
  import opened Config
  import Machine
  import opened Receiver
  import opened Correlation
  import Replica

  /** A text message parses as an event, as a response, or not at all. */
  datatype Message = EventMessage(event: Event) | ResponseMessage(reply: Reply) | Unparsable

  /** What the WebSocket reader yields. */
  datatype Frame = Text(message: Message) | CloseFrame | OtherFrame | FrameError

  // ---- One target change ----

  lemma UnknownKeyRejects(fields: map<string, Json>, key: string)
    requires key in fields && FieldOf(key).None?
    ensures FromObject(fields).None?
  {
  }

  lemma BadValueMeaning(r: TargetRecord, changes: Changes, f: Field)
    requires f in changes && !Accepts(f, changes[f])
    ensures ApplyChanges(r, changes).None?
  {
  }

  /** The loop has applied the fields in `order`; `rest` holds the keys still to visit. */
  ghost predicate Visited(fields: map<string, Json>, rest: set<string>, order: seq<Field>) {
    && rest <= fields.Keys
    && (forall i, j | 0 <= i < j < |order| :: order[i] != order[j])
    && (forall f :: f in order <==> FieldName(f) in fields && FieldName(f) !in rest)
    && (forall key | key in fields && key !in rest :: FieldOf(key).Some?)
  }

  lemma VisitNext(fields: map<string, Json>, rest: set<string>, order: seq<Field>, key: string, f: Field)
    requires Visited(fields, rest, order) && key in rest && FieldOf(key) == Some(f)
    ensures f in KnownChanges(fields) && KnownChanges(fields)[f] == fields[key]
    ensures Visited(fields, rest - {key}, order + [f])
  {
    FieldNameOfFieldOf(key);
    FieldNamesDiffer();
  }

  lemma AllVisited(fields: map<string, Json>, order: seq<Field>)
    requires Visited(fields, {}, order)
    ensures FromObject(fields) == Some(KnownChanges(fields)) && Enumerates(order, KnownChanges(fields).Keys)
  {
  }

  lemma FoldOneMore(r: TargetRecord, changes: Changes, order: seq<Field>, f: Field)
    requires (forall g | g in order :: g in changes) && f in changes
    ensures Fold(r, changes, order + [f])
            == if Fold(r, changes, order).None? then None else SetField(Fold(r, changes, order).value, f, changes[f])
  {
    assert (order + [f])[..|order|] == order;
  }

  /** The position of the first target with this name, found by walking the list. */
  method FindTarget(targets: seq<TargetRecord>, name: string) returns (i: nat)
    ensures i == Find(targets, name)
  {
    i := 0;
    while i < |targets| && targets[i].name != name
      invariant i <= |targets| && forall j | 0 <= j < i :: targets[j].name != name
    {
      i := i + 1;
    }
  }

  /** `apply_target_change`: the fields are visited in whatever order the map yields them. */
  method ApplyChange(snapshot: Snapshot, name: string, revision: nat, changed: Json)
    returns (r: Result<Snapshot, ClientError>)
    ensures r == ApplyTargetChange(snapshot, name, revision, changed)
  {
    var i := FindTarget(snapshot.targets, name);
    if i == |snapshot.targets| {
      return Failure(UnknownTarget(name));
    }
    var target := snapshot.targets[i];
    if revision != target.revision + 1 {
      return Failure(RevisionGap(target.revision + 1, revision));
    }
    if !changed.Obj? {
      return Failure(NotAnObject);
    }
    var applied := ApplyFields(target, changed.fields);
    if applied.None? {
      return Failure(RejectedField);
    }
    var targets := snapshot.targets[i := applied.value.(revision := revision)];
    var refreshed := RefreshHealth(snapshot.(targets := targets));
    return Success(refreshed);
  }

  method ApplyFields(before: TargetRecord, fields: map<string, Json>) returns (r: Option<TargetRecord>)
    ensures r == if FromObject(fields).None? then None else ApplyChanges(before, FromObject(fields).value)
  {
    hide SetField, FieldOf, FieldName, Accepts, Becomes, FromObject;
    var target := before;
    var rest := fields.Keys;
    ghost var changes, order := KnownChanges(fields), [];
    assert Visited(fields, rest, order);
    while rest != {}
      invariant Visited(fields, rest, order)
      invariant forall f | f in order :: f in changes
      invariant Fold(before, changes, order) == Some(target)
      decreases rest
    {
      var key :| key in rest;
      var field := FieldOf(key);
      if field.None? {
        UnknownKeyRejects(fields, key);
        return None;
      }
      VisitNext(fields, rest, order, key, field.value);
      var next := SetField(target, field.value, fields[key]);
      SetFieldAccepts(target, field.value, fields[key]);
      if next.None? {
        BadValueRejects(before, fields, field.value);
        return None;
      }
      FoldOneMore(before, changes, order, field.value);
      rest, order, target := rest - {key}, order + [field.value], next.value;
    }
    AllVisited(fields, order);
    OrderIrrelevant(before, changes, order);
    return Some(target);
  }

  lemma BadValueRejects(r: TargetRecord, fields: map<string, Json>, f: Field)
    requires f in KnownChanges(fields) && !Accepts(f, KnownChanges(fields)[f])
    ensures FromObject(fields).Some? ==> ApplyChanges(r, FromObject(fields).value).None?
  {
    if FromObject(fields).Some? {
      assert FromObject(fields).value == KnownChanges(fields);
      BadValueMeaning(r, KnownChanges(fields), f);
    }
  }

  // ---- The connection as a function of what it reads ----

  /** Everything a frame can change. */
  datatype View = View(snapshot: Option<Snapshot>, events: seq<Event>, pending: map<string, nat>, slots: seq<Slot>)

  ghost function Handle(v: View, frame: Frame): Result<View, ClientError> {
    match frame
    case Text(EventMessage(event)) =>
      (match HandleEvent(v.snapshot, event)
       case Failure(error) => Failure(error)
       case Success(s) => Success(v.(snapshot := Some(s), events := v.events + [event])))
    case Text(ResponseMessage(reply)) =>
      var p := Resolve(v.pending, v.slots, reply.id, OutcomeOf(reply.answer));
      Success(v.(pending := p.0, slots := p.1))
    case Text(Unparsable) => Failure(Unreadable)
    case CloseFrame => Failure(Disconnected)
    case OtherFrame => Success(v)
    case FrameError => Failure(Transport)
  }

  /** The frames handled one after the other until one of them fails. */
  ghost function Consume(v: View, frames: seq<Frame>): (View, Option<ClientError>)
    decreases frames
  {
    if frames == [] then (v, None)
    else
      match Handle(v, frames[0])
      case Failure(error) => (v, Some(error))
      case Success(next) => Consume(next, frames[1..])
  }

  /** The events among the frames. */
  function EventsOf(frames: seq<Frame>): seq<Event> {
    if frames == [] then []
    else
      var first := if frames[0].Text? && frames[0].message.EventMessage? then [frames[0].message.event] else [];
      first + EventsOf(frames[1..])
  }

  /**
   A response reaches the call registered under its id: data as data and an error
   as the server's error.  The id is free again, and no other call notices.
   */
  ghost predicate Delivers(
      pending: map<string, nat>, slots: seq<Slot>, reply: Reply, pending': map<string, nat>, slots': seq<Slot>)
  {
    if reply.id !in pending then pending' == pending && slots' == slots
    else
      var k := pending[reply.id];
      && pending' == pending - {reply.id}
      && |slots'| == |slots|
      && (forall j | 0 <= j < |slots| && (j != k || !slots[j].Empty?) :: slots'[j] == slots[j])
      && (k < |slots| && slots[k].Empty? ==>
            match reply.answer
            case Success(data) => slots'[k] == Slot.Filled(Success(data))
            case Failure(error) => slots'[k] == Slot.Filled(Failure(Remote(error))))
  }

  /** Which frames end the connection, and with what. */
  lemma FrameVerdict(v: View, message: Message)
    ensures Handle(v, CloseFrame) == Failure(Disconnected)
    ensures Handle(v, FrameError) == Failure(Transport)
    ensures Handle(v, OtherFrame) == Success(v)
    ensures match message
            case Unparsable => Handle(v, Text(message)) == Failure(Unreadable)
            case ResponseMessage(reply) =>
              var r := Handle(v, Text(message));
              && r.Success? && r.value.snapshot == v.snapshot && r.value.events == v.events
              && Delivers(v.pending, v.slots, reply, r.value.pending, r.value.slots)
            case EventMessage(event) =>
              match HandleEvent(v.snapshot, event)
              case Failure(error) => Handle(v, Text(message)) == Failure(error)
              case Success(s) =>
                Handle(v, Text(message)) == Success(View(Some(s), v.events + [event], v.pending, v.slots))
  {
  }

  class RemoteClient {
    var snapshot: Option<Snapshot>
    var events: seq<Event>
    var pending: map<string, nat>
    var slots: seq<Slot>
    var nextId: nat
    var disconnected: bool
    var disconnectError: Option<ClientError>

    ghost function Seen(): View
      reads this
    {
      View(snapshot, events, pending, slots)
    }

    /** The counter has been stepped once for every slot. */
    predicate Valid()
      reads this
    {
      nextId == (|slots| + 1) % WRAP
    }

    constructor ()
      ensures Valid() && Seen() == View(None, [], map[], []) && !disconnected && disconnectError.None?
    {
      snapshot, events, pending, slots, nextId := None, [], map[], [], 1;
      disconnected, disconnectError := false, None;
    }

    /**
     The first half of `request`: take an id, have the request validated, and
     register the sender.  `valid` is what validation says; an invalid request has
     used up its id.
     */
    method BeginRequest(valid: bool) returns (r: Result<(string, nat), ClientError>)
      requires Valid()
      modifies this
      ensures Valid() && snapshot == old(snapshot) && events == old(events)
      ensures disconnected == old(disconnected) && disconnectError == old(disconnectError)
      ensures slots == if old(disconnected) then old(slots)
                       else if r.Failure? then old(slots) + [Empty]
                       else Register(old(pending), old(slots) + [Empty], RequestId(|old(slots)|), |old(slots)|).1
      ensures pending == if r.Failure? then old(pending)
                         else Register(old(pending), old(slots) + [Empty], RequestId(|old(slots)|), |old(slots)|).0
      ensures r == if old(disconnected)
                   then Failure(if disconnectError.Some? then disconnectError.value else Disconnected)
                   else if !valid then Failure(InvalidRequest)
                   else Success((RequestId(|old(slots)|), |old(slots)|))
    {
      if disconnected {
        return Failure(if disconnectError.Some? then disconnectError.value else Disconnected);
      }
      var id, k := "client-" + NatToString(nextId), |slots|;
      nextId := (nextId + 1) % WRAP;
      slots := slots + [Empty];
      if !valid {
        return Failure(InvalidRequest);
      }
      if id in pending && pending[id] < |slots| && slots[pending[id]].Empty? {
        slots := slots[pending[id] := Dropped];
      }
      pending := pending[id := k];
      return Success((id, k));
    }

    /**
     `handle_message`.  A rejected event leaves the snapshot as it was and is not
     passed on; every rejection is an error, which ends the connection.
     */
    method HandleMessage(message: Message) returns (r: Result<(), ClientError>)
      requires Valid()
      modifies this
      ensures Valid() && disconnected == old(disconnected) && disconnectError == old(disconnectError)
      ensures match Handle(old(Seen()), Text(message))
              case Success(v) => r.Success? && Seen() == v
              case Failure(error) => r == Failure(error) && Seen() == old(Seen())
      ensures message.ResponseMessage? ==>
                r.Success? && snapshot == old(snapshot) && events == old(events)
                && Delivers(old(pending), old(slots), message.reply, pending, slots)
    {
      match message {
        case EventMessage(event) =>
          var next: Snapshot;
          match event {
            case SnapshotTaken(value) =>
              if value.protocolVersion != PROTOCOL_VERSION {
                return Failure(UnsupportedVersion);
              }
              next := value;
            case TargetChanged(name, revision, changed) =>
              if snapshot.None? {
                return Failure(ChangeBeforeSnapshot);
              }
              var applied := ApplyChange(snapshot.value, name, revision, changed);
              if applied.Failure? {
                return Failure(applied.error);
              }
              next := applied.value;
          }
          snapshot := Some(next);
          events := events + [event];
        case ResponseMessage(reply) =>
          if reply.id in pending {
            var k := pending[reply.id];
            pending := pending - {reply.id};
            if k < |slots| && slots[k].Empty? {
              slots := slots[k := Filled(OutcomeOf(reply.answer))];
            }
          }
        case Unparsable =>
          return Failure(Unreadable);
      }
      return Success(());
    }

    /** The end of `run_connection`: every registered sender gets the error, whatever order the map yields them in. */
    method DrainPending(error: ClientError)
      requires Valid()
      modifies this`pending, this`slots
      ensures Valid() && pending == map[] && slots == FillAll(old(pending), old(slots), Failure(error))
    {
      while pending != map[]
        invariant Valid() && |slots| == |old(slots)|
        invariant pending.Keys <= old(pending).Keys && forall id | id in pending :: pending[id] == old(pending)[id]
        invariant FillAll(pending, slots, Failure(error)) == FillAll(old(pending), old(slots), Failure(error))
        decreases pending.Keys
      {
        var id :| id in pending;
        DrainOne(pending, slots, id, Failure(error));
        slots := Fill(slots, pending[id], Failure(error));
        pending := pending - {id};
      }
    }

    /**
     `run_connection` over everything the reader yields until the stream ends; `closing` is whether
     the loop ends because the caller closed the connection.
     */
    method RunConnection(frames: seq<Frame>, closing: bool)
      requires Valid()
      modifies this
      ensures Valid() && disconnected
      ensures var (v, failure) := Consume(old(Seen()), frames);
              && snapshot == v.snapshot && events == v.events
              && disconnectError == (if failure.Some? then failure else if closing then None else Some(Disconnected))
              && pending == map[]
              && slots == FillAll(v.pending, v.slots,
                                  Failure(if disconnectError.Some? then disconnectError.value else Disconnected))
    {
      var terminal: Option<ClientError> := None;
      var i := 0;
      while i < |frames| && terminal.None?
        invariant i <= |frames| && Valid()
        invariant Consume(old(Seen()), frames)
                  == if terminal.None? then Consume(Seen(), frames[i..]) else (Seen(), terminal)
      {
        match frames[i] {
          case Text(message) =>
            var handled := HandleMessage(message);
            if handled.Failure? {
              terminal := Some(handled.error);
            }
          case CloseFrame => terminal := Some(Disconnected);
          case OtherFrame =>
          case FrameError => terminal := Some(Transport);
        }
        assert frames[i..][0] == frames[i] && frames[i..][1..] == frames[i + 1..];
        i := i + 1;
      }
      if terminal.None? && !closing {
        disconnectError := Some(Disconnected);
      } else {
        disconnectError := terminal;
      }
      disconnected := true;
      DrainPending(if disconnectError.Some? then disconnectError.value else Disconnected);
    }
  }

  lemma DrainOne(pending: map<string, nat>, slots: seq<Slot>, id: string, outcome: Outcome)
    requires id in pending
    ensures FillAll(pending - {id}, Fill(slots, pending[id], outcome), outcome) == FillAll(pending, slots, outcome)
  {
    var k := pending[id];
    assert k in pending.Values;
    assert forall j | j in pending.Values && j != k :: j in (pending - {id}).Values by {
      forall j | j in pending.Values && j != k ensures j in (pending - {id}).Values {
        var other :| other in pending && pending[other] == j;
        assert other in (pending - {id}) && (pending - {id})[other] == j;
      }
    }
  }

  // ---- What the connection amounts to ----

  /**
   The frames are consumed up to the first one that fails; the failing frame and
   everything after it leave no trace, and everything before it was accepted.
   */
  lemma {:induction false} ConsumePrefix(v: View, frames: seq<Frame>) returns (n: nat)
    ensures n <= |frames|
    ensures Consume(v, frames[..n]) == (Consume(v, frames).0, None)
    ensures Consume(v, frames).1.None? <==> n == |frames|
    ensures n < |frames| ==> Handle(Consume(v, frames).0, frames[n]) == Failure(Consume(v, frames).1.value)
    ensures Consume(v, frames).0.events == v.events + EventsOf(frames[..n])
    decreases frames
  {
    if frames == [] {
      n := 0;
    } else {
      match Handle(v, frames[0])
      case Failure(error) => n := 0;
      case Success(next) =>
        var m := ConsumePrefix(next, frames[1..]);
        n := m + 1;
        assert frames[..n][1..] == frames[1..][..m];
    }
  }

  lemma {:induction false} ReplayFromFront(c: Follower, log: seq<Machine.Sent>)
    requires log != []
    ensures Replay(c, log) == Replay(Receive(c, log[0]), log[1..])
  {
    var n := |log| - 1;
    if n == 0 {
      assert log[..0] == [] && log[1..] == [];
    } else {
      ReplayFromFront(c, log[..n]);
      assert log[..n][1..] == log[1..][..n - 1];
    }
  }

  lemma {:induction false} EndedStays(error: ClientError, log: seq<Machine.Sent>)
    ensures Replay(Ended(error), log) == Ended(error)
  {
    if log != [] { EndedStays(error, log[..|log| - 1]); }
  }

  /** Frames that carry events and responses and nothing that breaks the connection. */
  predicate Healthy(frame: Frame) { frame.OtherFrame? || (frame.Text? && !frame.message.Unparsable?) }

  function Broadcast(log: seq<Machine.Sent>): seq<Event> {
    seq(|log|, i requires 0 <= i < |log| => log[i].event)
  }

  /**
   On healthy frames, with responses and other frames anywhere among the events,
   the connection is the follower that replays the events.
   */
  lemma {:induction false} ConsumeReplays(v: View, frames: seq<Frame>, log: seq<Machine.Sent>)
    requires v.snapshot.Some? && forall f | f in frames :: Healthy(f)
    requires EventsOf(frames) == Broadcast(log)
    ensures var (w, failure) := Consume(v, frames);
            && w.snapshot.Some?
            && Replay(Following(v.snapshot.value), log)
               == if failure.Some? then Ended(failure.value) else Following(w.snapshot.value)
    decreases frames
  {
    if frames == [] {
      assert log == [];
    } else if frames[0].Text? && frames[0].message.EventMessage? {
      assert Broadcast(log)[0] == frames[0].message.event && Broadcast(log)[1..] == Broadcast(log[1..]);
      ReplayFromFront(Following(v.snapshot.value), log);
      match Handle(v, frames[0])
      case Failure(error) => EndedStays(error, log[1..]);
      case Success(next) => ConsumeReplays(next, frames[1..], log[1..]);
    } else {
      assert Healthy(frames[0]);
      ConsumeReplays(Handle(v, frames[0]).value, frames[1..], log);
    }
  }

  /** Healthy frames that carry what was broadcast between `a` and `b`, for a view that has the snapshot at `a`. */
  ghost predicate Reads(v: View, frames: seq<Frame>, a: Machine.Daemon, b: Machine.Daemon) {
    && v.snapshot == Some(Machine.SnapshotOf(a))
    && (forall f | f in frames :: Healthy(f))
    && |a.log| <= |b.log|
    && EventsOf(frames) == Broadcast(b.log[|a.log|..])
  }

  /**
   End to end: a connection whose first snapshot was taken after step `i` of a
   prompt run, and which then reads everything broadcast until step `k`, responses
   in between, never fails and holds the daemon's snapshot at `k`.
   */
  lemma ConnectionHoldsTheDaemon(
      config: DaemonConfig, dirs: set<string>, pid: string, run: seq<Machine.Label>, i: nat, k: nat,
      v: View, frames: seq<Frame>)
    requires WellFormed(config) && i <= k <= |run| && forall l | l in run :: Replica.Prompt(l)
    ensures var a := Machine.Exec(Machine.Startup(config, dirs, pid), run[..i]);
            var b := Machine.Exec(Machine.Startup(config, dirs, pid), run[..k]);
            Reads(v, frames, a, b) ==>
              Consume(v, frames).1.None? && Consume(v, frames).0.snapshot == Some(Machine.SnapshotOf(b))
  {
    hide Machine.Step, Machine.Exec, Machine.Startup, Machine.SnapshotOf, WellFormed;
    hide Consume, Replay, Healthy, Broadcast, EventsOf;
    var a := Machine.Exec(Machine.Startup(config, dirs, pid), run[..i]);
    var b := Machine.Exec(Machine.Startup(config, dirs, pid), run[..k]);
    if Reads(v, frames, a, b) {
      Replica.ReplicaEquality(config, dirs, pid, run, i, k);
      ConsumeReplays(v, frames, b.log[|a.log|..]);
    }
  }
}
