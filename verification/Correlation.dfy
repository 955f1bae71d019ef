/**
 Request correlation: the client's id counter and pending map, the server's task
 pool that finishes in any order, timeouts, and the end of the connection.
 (crates/mpv-targets/src/client.rs, crates/mpv-targetsd/src/server.rs)
 */
module Correlation {
  import opened Wrappers
  import opened Json
  import opened Decimal
  import opened Protocol
  import opened Receiver

  /** What the server computed for one request. */
  type Answer = Result<Json, ServerError>

  /** What a caller gets from `request`. */
  type Outcome = Result<Json, ClientError>

  function OutcomeOf(answer: Answer): Outcome {
    match answer
    case Success(data) => Success(data)
    case Failure(error) => Failure(Remote(error))
  }

  /** The receiving half of a call's one-shot channel: empty, sent to, or its sender dropped. */
  datatype Slot = Empty | Filled(outcome: Outcome) | Dropped

  // ---- The server's half ----

  /** A response on the wire. */
  datatype Reply = Reply(id: string, answer: Answer)

  /** How far the server gets with a text that parses as JSON: not a request, an invalid one, or carried out. */
  datatype Fate = Malformed(message: string) | Refused(message: string) | CarriedOut(answer: Answer)

  function IdOf(source: Json): string {
    if source.Obj? && "id" in source.fields && source.fields["id"].Str? then source.fields["id"].s else ""
  }

  function Invalid(message: string): ServerError { ServerError("invalid_request", message) }

  /** `dispatch_request`: `source` is the text as JSON, if it parses. */
  function DispatchRequest(source: Option<Json>, fate: Fate): Reply {
    if source.None? then Reply("", Failure(Invalid("unparsable")))
    else
      match fate
      case Malformed(message) => Reply(IdOf(source.value), Failure(Invalid(message)))
      case Refused(message) => Reply(IdOf(source.value), Failure(Invalid(message)))
      case CarriedOut(answer) => Reply(IdOf(source.value), answer)
  }

  /**
   Without a request there is an error and no id; a request that is refused gets its
   own error, and one that is carried out gets what the operation answered.
   */
  lemma DispatchMeaning(source: Json, fate: Fate)
    ensures DispatchRequest(None, fate).id == ""
    ensures var answer := DispatchRequest(None, fate).answer; answer.Failure? && answer.error.code == "invalid_request"
    ensures var answer := DispatchRequest(Some(source), fate).answer;
            && (fate.CarriedOut? ==> answer == fate.answer)
            && (fate.Malformed? || fate.Refused? ==> answer == Failure(ServerError("invalid_request", fate.message)))
    ensures var id := DispatchRequest(Some(source), fate).id;
            && (forall fields, text | source == Obj(fields) && "id" in fields && fields["id"] == Str(text) ::
                  id == text)
            && (id != "" ==> source.Obj? && "id" in source.fields && source.fields["id"] == Str(id))
  {
  }

  /** The text of the request of a call: its own id and whatever the operation needs. */
  function RequestJson(id: string, rest: map<string, Json>): Json { Obj(rest["id" := Str(id)]) }

  /** Whatever becomes of a request, its response carries the request's own id. */
  lemma EchoesId(id: string, rest: map<string, Json>, fate: Fate)
    ensures DispatchRequest(Some(RequestJson(id, rest)), fate).id == id
  {
  }

  // ---- The pending map ----

  /** Sending to a slot; a second send has no one to reach. */
  function Fill(slots: seq<Slot>, k: nat, outcome: Outcome): seq<Slot> {
    if k < |slots| && slots[k].Empty? then slots[k := Filled(outcome)] else slots
  }

  function Drop(slots: seq<Slot>, k: nat): seq<Slot> {
    if k < |slots| && slots[k].Empty? then slots[k := Dropped] else slots
  }

  /** A response arrives: the sender under its id is taken out of the map and used. */
  function Resolve(
      pending: map<string, nat>, slots: seq<Slot>, id: string, outcome: Outcome): (map<string, nat>, seq<Slot>)
  {
    if id in pending then (pending - {id}, Fill(slots, pending[id], outcome)) else (pending, slots)
  }

  /** Registering call `k`; a sender already registered under the id is dropped. */
  function Register(pending: map<string, nat>, slots: seq<Slot>, id: string, k: nat): (map<string, nat>, seq<Slot>) {
    (pending[id := k], if id in pending then Drop(slots, pending[id]) else slots)
  }

  /** Removing an id drops whatever sender is registered under it. */
  function Unregister(pending: map<string, nat>, slots: seq<Slot>, id: string): (map<string, nat>, seq<Slot>) {
    (pending - {id}, if id in pending then Drop(slots, pending[id]) else slots)
  }

  /** The drain at the end of the connection reaches every registered sender. */
  function FillAll(pending: map<string, nat>, slots: seq<Slot>, outcome: Outcome): seq<Slot> {
    seq(|slots|, k requires 0 <= k < |slots| =>
      if slots[k].Empty? && k in pending.Values then Filled(outcome) else slots[k])
  }

  // ---- The state machine ----

  /** The counter is a 64-bit atomic that starts at 1 and wraps. */
  const WRAP: nat := 0x1_0000_0000_0000_0000

  function RequestId(k: nat): string { "client-" + NatToString((k + 1) % WRAP) }

  /** Where the future of one call is. */
  datatype Phase =
    | Created                             // has its id
    | Registered                          // its sender is in the pending map
    | Waiting                             // its request is handed to the connection
    | Withdrawing(timedOut: bool)         // has given up and is about to remove its id
    | Finished(outcome: Outcome)

  /** Where the request of one call is. */
  datatype Transit = Unsent | Queued | OnWire | Running | Replied(reply: Reply) | Delivered(reply: Reply)

  datatype Call = Call(phase: Phase, transit: Transit)

  /** How far the connection task has come: its loop, the error and the flag it sets, the drain, its end. */
  datatype Link = Open | Broken | Announced | Drained | Gone

  datatype Exchange = Exchange(
    calls: seq<Call>,
    slots: seq<Slot>,
    pending: map<string, nat>,
    link: Link,
    error: Option<ClientError>,
    disconnected: bool)

  datatype Label =
    | Begin(valid: bool)                  // a caller enters `request`
    | Insert(k: nat)
    | Enqueue(k: nat)
    | Withdraw(k: nat)
    | Wake(k: nat)
    | Expire(k: nat)
    | Write(k: nat)                       // the connection task writes a queued request
    | Take(k: nat)                        // the server spawns a task for it
    | Answering(k: nat, rest: map<string, Json>, fate: Fate)   // its server task finishes, in any order
    | Deliver(k: nat)                     // the client reads the response
    | Break(error: Option<ClientError>)   // the connection loop ends
    | Announce
    | Drain
    | Leave                               // the connection task returns and its queue is gone
    | Close                               // `close` sets the flag early

  function LostError(s: Exchange): ClientError { if s.error.Some? then s.error.value else Disconnected }

  function WithPhase(s: Exchange, k: nat, phase: Phase): Exchange
    requires k < |s.calls|
  {
    s.(calls := s.calls[k := s.calls[k].(phase := phase)])
  }

  function WithTransit(s: Exchange, k: nat, transit: Transit): Exchange
    requires k < |s.calls|
  {
    s.(calls := s.calls[k := s.calls[k].(transit := transit)])
  }

  function WithPending(s: Exchange, p: (map<string, nat>, seq<Slot>)): Exchange { s.(pending := p.0, slots := p.1) }

  predicate Sound(s: Exchange) { |s.slots| == |s.calls| }

  /** A call the disconnected flag turns away takes no id and leaves nothing behind. */
  function BeginCall(s: Exchange, valid: bool): Exchange {
    if s.disconnected then s
    else
      s.(calls := s.calls + [Call(if valid then Created else Finished(Failure(InvalidRequest)), Unsent)],
         slots := s.slots + [Empty])
  }

  /** The steps of the future of call `k`. */
  function Advance(s: Exchange, l: Label): Exchange
    requires Sound(s)
  {
    match l
    case Insert(k) =>
      if k < |s.calls| && s.calls[k].phase.Created?
      then WithPhase(WithPending(s, Register(s.pending, s.slots, RequestId(k), k)), k, Registered) else s
    case Enqueue(k) =>
      if k < |s.calls| && s.calls[k].phase.Registered? then
        if s.link.Gone? then WithPhase(s, k, Withdrawing(false))
        else WithPhase(WithTransit(s, k, Queued), k, Waiting)
      else s
    case Withdraw(k) =>
      if k < |s.calls| && s.calls[k].phase.Withdrawing? then
        WithPhase(WithPending(s, Unregister(s.pending, s.slots, RequestId(k))), k,
                  Finished(Failure(if s.calls[k].phase.timedOut then Timeout else LostError(s))))
      else s
    case Wake(k) =>
      if k < |s.calls| && s.calls[k].phase.Waiting? && !s.slots[k].Empty?
      then WithPhase(s, k, Finished(if s.slots[k].Filled? then s.slots[k].outcome else Failure(LostError(s)))) else s
    case Expire(k) =>
      if k < |s.calls| && s.calls[k].phase.Waiting? && s.slots[k].Empty? then WithPhase(s, k, Withdrawing(true)) else s
    case _ => s
  }

  /** The steps of the request and the response of call `k`. */
  function Travel(s: Exchange, l: Label): Exchange
    requires Sound(s)
  {
    match l
    case Write(k) =>
      if k < |s.calls| && s.calls[k].transit.Queued? && s.link.Open? then WithTransit(s, k, OnWire) else s
    case Take(k) => if k < |s.calls| && s.calls[k].transit.OnWire? then WithTransit(s, k, Running) else s
    case Answering(k, rest, fate) =>
      if k < |s.calls| && s.calls[k].transit.Running?
      then WithTransit(s, k, Replied(DispatchRequest(Some(RequestJson(RequestId(k), rest)), fate))) else s
    case Deliver(k) =>
      if k < |s.calls| && s.calls[k].transit.Replied? && s.link.Open? then
        var reply := s.calls[k].transit.reply;
        WithPending(WithTransit(s, k, Delivered(reply)),
                    Resolve(s.pending, s.slots, reply.id, OutcomeOf(reply.answer)))
      else s
    case _ => s
  }

  /** The steps of the connection task. */
  function Connection(s: Exchange, l: Label): Exchange {
    match l
    case Break(error) => if s.link.Open? then s.(link := Broken, error := error) else s
    case Announce => if s.link.Broken? then s.(link := Announced, disconnected := true) else s
    case Drain =>
      if s.link.Announced?
      then s.(link := Drained, slots := FillAll(s.pending, s.slots, Failure(LostError(s))), pending := map[]) else s
    case Leave => if s.link.Drained? then s.(link := Gone) else s
    case Close => s.(disconnected := true)
    case _ => s
  }

  function Step(s: Exchange, l: Label): (t: Exchange)
    requires Sound(s)
    ensures Sound(t) && |s.calls| <= |t.calls|
  {
    match l
    case Begin(valid) => BeginCall(s, valid)
    case Insert(_) | Enqueue(_) | Withdraw(_) | Wake(_) | Expire(_) => Advance(s, l)
    case Write(_) | Take(_) | Answering(_, _, _) | Deliver(_) => Travel(s, l)
    case _ => Connection(s, l)
  }

  function Exec(s: Exchange, run: seq<Label>): (t: Exchange)
    requires Sound(s)
    ensures Sound(t)
  {
    if run == [] then s else Step(Exec(s, run[..|run| - 1]), run[|run| - 1])
  }

  const INITIAL := Exchange([], [], map[], Open, None, false)

  // ---- Ids ----

  lemma RequestIdsAgree(j: nat, k: nat)
    ensures RequestId(j) == RequestId(k) <==> (j + 1) % WRAP == (k + 1) % WRAP
  {
    if RequestId(j) == RequestId(k) {
      assert NatToString((j + 1) % WRAP) == RequestId(j)[7..];
      assert NatToString((k + 1) % WRAP) == RequestId(k)[7..];
      DigitsOfNat((j + 1) % WRAP);
      DigitsOfNat((k + 1) % WRAP);
    }
  }

  /** Within the first turn the id of a call spells its number, counted from 1. */
  lemma RequestIdSpells(k: nat)
    requires k + 1 < WRAP
    ensures var id := RequestId(k);
            "client-" <= id && AllDigits(id[7..]) && DigitsValue(id[7..]) == k + 1
  {
    assert RequestId(k)[7..] == NatToString(k + 1);
    DigitsOfNat(k + 1);
  }

  /** Within one turn of the counter no two calls share an id. */
  lemma RequestIdsDiffer(j: nat, k: nat)
    requires j < WRAP && k < WRAP && j != k
    ensures RequestId(j) != RequestId(k)
  {
    RequestIdsAgree(j, k);
  }

  // ---- The invariant ----

  /** The sender of call `k` is the one registered under its id. */
  predicate Owns(s: Exchange, k: nat) { RequestId(k) in s.pending && s.pending[RequestId(k)] == k }

  /** The call is registered and has not given up. */
  predicate Expecting(s: Exchange, k: nat)
    requires k < |s.calls|
  {
    s.calls[k].phase.Registered? || s.calls[k].phase.Waiting?
  }

  /** An outcome that is what the server computed for this very call, or the error that ended the connection. */
  ghost predicate Genuine(s: Exchange, k: nat, outcome: Outcome)
    requires k < |s.calls|
  {
    || (s.calls[k].transit.Delivered? && outcome == OutcomeOf(s.calls[k].transit.reply.answer))
    || (!s.link.Open? && outcome == Failure(LostError(s)))
  }

  /** A call that expects its outcome has its sender registered or a genuine outcome in its slot, never neither. */
  ghost predicate Held(s: Exchange, k: nat)
    requires Sound(s) && k < |s.calls|
  {
    if Owns(s, k) then s.slots[k].Empty? else s.slots[k].Filled? && Genuine(s, k, s.slots[k].outcome)
  }

  ghost predicate InOrder(s: Exchange, k: nat)
    requires Sound(s) && k < |s.calls|
  {
    var c := s.calls[k];
    && (c.transit.Replied? ==> c.transit.reply.id == RequestId(k))
    && (Owns(s, k) ==> !c.transit.Delivered?)
    && (match c.phase
        case Created => s.slots[k].Empty? && c.transit.Unsent? && !Owns(s, k)
        case Registered => Held(s, k) && c.transit.Unsent?
        case Waiting => Held(s, k)
        case Withdrawing(timedOut) => timedOut || s.link.Gone?
        case Finished(outcome) =>
          && !Owns(s, k)
          && (outcome == Failure(Timeout) || outcome == Failure(InvalidRequest) || Genuine(s, k, outcome)))
  }

  ghost predicate Owned(s: Exchange) {
    forall id | id in s.pending :: s.pending[id] < |s.calls| && id == RequestId(s.pending[id])
  }

  ghost predicate Orderly(s: Exchange) {
    && Sound(s)
    && Owned(s)
    && forall k | 0 <= k < |s.calls| :: InOrder(s, k)
  }

  /** Another call that still expects its outcome is registered under this call's id. */
  predicate TakesOver(s: Exchange, k: nat) {
    RequestId(k) in s.pending &&
    var j := s.pending[RequestId(k)];
    j != k && j < |s.calls| && Expecting(s, j)
  }

  /** The step uses an id that means another call: to register, to withdraw, or to deliver a response. */
  predicate Collides(s: Exchange, l: Label) {
    match l
    case Insert(k) => k < |s.calls| && s.calls[k].phase.Created? && TakesOver(s, k)
    case Withdraw(k) => k < |s.calls| && s.calls[k].phase.Withdrawing? && TakesOver(s, k)
    case Deliver(k) => k < |s.calls| && s.calls[k].transit.Replied? && s.link.Open? && TakesOver(s, k)
    case _ => false
  }

  // ---- Exactly which steps keep the invariant ----

  /** The connection's end, once begun, is not undone, and its error stands. */
  ghost predicate Later(s: Exchange, t: Exchange) {
    (!s.link.Open? ==> !t.link.Open? && t.error == s.error) && (s.link.Gone? ==> t.link.Gone?)
  }

  /** A step that leaves call `k`, its slot and its registration alone. */
  lemma BystanderKept(s: Exchange, t: Exchange, k: nat)
    requires Sound(s) && Sound(t) && k < |s.calls| && k < |t.calls| && InOrder(s, k) && Later(s, t)
    requires t.calls[k] == s.calls[k] && t.slots[k] == s.slots[k] && (Owns(t, k) <==> Owns(s, k))
    ensures InOrder(t, k)
  {
    hide RequestId, Owns;
  }

  /** A call that no longer expects anything does not mind losing its sender or what its slot holds. */
  lemma LoserKept(s: Exchange, t: Exchange, k: nat)
    requires Sound(s) && Sound(t) && k < |s.calls| && k < |t.calls| && InOrder(s, k) && Later(s, t)
    requires t.calls[k] == s.calls[k] && s.calls[k].phase.Withdrawing? && (Owns(t, k) ==> Owns(s, k))
    ensures InOrder(t, k)
  {
    hide RequestId, Owns, Genuine;
  }

  /** Only the owner of an id can be the one it means. */
  lemma OwnerOf(s: Exchange, id: string)
    requires Owned(s) && id in s.pending
    ensures var j := s.pending[id]; j < |s.calls| && RequestId(j) == id && Owns(s, j)
  {
  }

  /** Everyone but call `k` and the owner of its id is a bystander. */
  lemma BystandersKept(s: Exchange, t: Exchange, k: nat)
    requires Orderly(s) && Sound(t) && Owned(t) && Later(s, t) && k < |s.calls| == |t.calls|
    requires forall j | 0 <= j < |s.calls| && j != k :: t.calls[j] == s.calls[j]
    requires forall id | id != RequestId(k) ::
               (id in t.pending <==> id in s.pending) && (id in s.pending ==> t.pending[id] == s.pending[id])
    requires forall j | 0 <= j < |s.calls| && j != k && !Owns(s, j) :: t.slots[j] == s.slots[j]
    requires forall j | 0 <= j < |s.calls| && j != k && RequestId(j) != RequestId(k) :: t.slots[j] == s.slots[j]
    requires RequestId(k) in t.pending ==>
               || t.pending[RequestId(k)] == k
               || (RequestId(k) in s.pending && t.pending[RequestId(k)] == s.pending[RequestId(k)])
    ensures forall j | 0 <= j < |t.calls| && j != k && !(Owns(s, j) && RequestId(j) == RequestId(k)) :: InOrder(t, j)
  {
    hide RequestId;
    forall j | 0 <= j < |t.calls| && j != k && !(Owns(s, j) && RequestId(j) == RequestId(k)) ensures InOrder(t, j) {
      BystanderKept(s, t, j);
    }
  }

  /** A registered owner either expects its outcome or is about to withdraw. */
  lemma OwnerExpectsOrWithdraws(s: Exchange, j: nat)
    requires Sound(s) && j < |s.calls| && InOrder(s, j) && Owns(s, j)
    ensures Expecting(s, j) || s.calls[j].phase.Withdrawing?
  {
    hide RequestId, Owns, Genuine;
  }

  /** A call that expected its outcome through this id has lost its sender, and its slot holds nothing of its own. */
  lemma LoserBroken(s: Exchange, t: Exchange, j: nat)
    requires Sound(s) && Sound(t) && j < |s.calls| && j < |t.calls| && InOrder(s, j) && Owns(s, j) && Expecting(s, j)
    requires t.calls[j] == s.calls[j] && !Owns(t, j) && (t.slots[j].Dropped? || t.link.Open?)
    ensures !InOrder(t, j)
  {
    hide RequestId, Owns;
  }

  /** What a step of call `k` that uses its id means for the call the id means. */
  lemma OwnerFate(s: Exchange, t: Exchange, k: nat)
    requires Orderly(s) && Sound(t) && Later(s, t) && k < |s.calls| == |t.calls|
    requires RequestId(k) in s.pending && s.pending[RequestId(k)] != k
    requires forall j | 0 <= j < |s.calls| && j != k :: t.calls[j] == s.calls[j]
    requires var j := s.pending[RequestId(k)]; !Owns(t, j) && (Expecting(s, j) ==> t.slots[j].Dropped? || t.link.Open?)
    ensures InOrder(t, s.pending[RequestId(k)]) <==> !TakesOver(s, k)
  {
    hide Genuine;
    var j := s.pending[RequestId(k)];
    OwnerOf(s, RequestId(k));
    assert InOrder(s, j);
    OwnerExpectsOrWithdraws(s, j);
    if Expecting(s, j) { LoserBroken(s, t, j); } else { LoserKept(s, t, j); }
  }

  /** With `k` itself in order and the bystanders kept, only the owner of the id decides. */
  lemma OwnerDecides(s: Exchange, t: Exchange, k: nat)
    requires Orderly(s) && Sound(t) && Owned(t) && k < |s.calls| == |t.calls| && InOrder(t, k)
    requires forall j | 0 <= j < |t.calls| && j != k && !(Owns(s, j) && RequestId(j) == RequestId(k)) :: InOrder(t, j)
    ensures Orderly(t) <==>
            (RequestId(k) in s.pending && s.pending[RequestId(k)] != k ==> InOrder(t, s.pending[RequestId(k)]))
  {
    hide InOrder, RequestId;
  }

  lemma InsertExactly(s: Exchange, k: nat)
    requires Orderly(s) && k < |s.calls| && s.calls[k].phase.Created?
    ensures Orderly(Advance(s, Insert(k))) <==> !TakesOver(s, k)
  {
    hide RequestId;
    var t := Advance(s, Insert(k));
    assert InOrder(s, k) && InOrder(t, k);
    BystandersKept(s, t, k);
    OwnerDecides(s, t, k);
    if RequestId(k) in s.pending {
      assert InOrder(s, s.pending[RequestId(k)]);
      OwnerFate(s, t, k);
    }
  }

  lemma WithdrawExactly(s: Exchange, k: nat)
    requires Orderly(s) && k < |s.calls| && s.calls[k].phase.Withdrawing?
    ensures Orderly(Advance(s, Withdraw(k))) <==> !TakesOver(s, k)
  {
    hide RequestId;
    var t := Advance(s, Withdraw(k));
    assert InOrder(s, k) && InOrder(t, k);
    BystandersKept(s, t, k);
    OwnerDecides(s, t, k);
    if RequestId(k) in s.pending && s.pending[RequestId(k)] != k {
      assert InOrder(s, s.pending[RequestId(k)]);
      OwnerFate(s, t, k);
    }
  }

  lemma DeliverExactly(s: Exchange, k: nat)
    requires Orderly(s) && k < |s.calls| && s.calls[k].transit.Replied? && s.link.Open?
    ensures Orderly(Travel(s, Deliver(k))) <==> !TakesOver(s, k)
  {
    hide RequestId;
    var t := Travel(s, Deliver(k));
    assert InOrder(s, k) && InOrder(t, k);
    BystandersKept(s, t, k);
    OwnerDecides(s, t, k);
    if RequestId(k) in s.pending && s.pending[RequestId(k)] != k {
      OwnerFate(s, t, k);
    }
  }

  /** The steps of a call that use no id but move only the call itself. */
  lemma OwnStepKept(s: Exchange, l: Label, k: nat)
    requires Orderly(s) && k < |s.calls|
    requires l == Enqueue(k) || l == Wake(k) || l == Expire(k)
    ensures Orderly(Advance(s, l))
  {
    hide RequestId;
    var t := Advance(s, l);
    assert InOrder(s, k);
    forall j | 0 <= j < |t.calls| ensures InOrder(t, j) {
      if j != k { BystanderKept(s, t, j); }
    }
  }

  lemma TransitKept(s: Exchange, l: Label, k: nat)
    requires Orderly(s) && k < |s.calls|
    requires l == Write(k) || l == Take(k) || (l.Answering? && l.k == k)
    ensures Orderly(Travel(s, l))
  {
    hide RequestId;
    var t := Travel(s, l);
    assert InOrder(s, k);
    if l.Answering? { EchoesId(RequestId(k), l.rest, l.fate); }
    forall j | 0 <= j < |t.calls| ensures InOrder(t, j) {
      if j != k { BystanderKept(s, t, j); }
    }
  }

  lemma BeginKept(s: Exchange, valid: bool)
    requires Orderly(s)
    ensures Orderly(BeginCall(s, valid))
  {
    hide RequestId;
    var t := BeginCall(s, valid);
    forall j | 0 <= j < |s.calls| ensures InOrder(t, j) {
      BystanderKept(s, t, j);
    }
  }

  lemma DrainKept(s: Exchange)
    requires Orderly(s) && s.link.Announced?
    ensures Orderly(Connection(s, Drain))
  {
    hide RequestId;
    var t := Connection(s, Drain);
    forall k | 0 <= k < |t.calls| ensures InOrder(t, k) {
      assert InOrder(s, k);
      OwnerRegistered(s, k);
    }
  }

  lemma OwnerRegistered(s: Exchange, k: nat)
    requires Owned(s)
    ensures k in s.pending.Values <==> Owns(s, k)
  {
    if k in s.pending.Values {
      var id :| id in s.pending && s.pending[id] == k;
      assert id == RequestId(k);
    }
  }

  lemma ConnectionKept(s: Exchange, l: Label)
    requires Orderly(s)
    ensures Orderly(Connection(s, l))
  {
    hide RequestId;
    if l.Drain? && s.link.Announced? {
      DrainKept(s);
    } else {
      var t := Connection(s, l);
      forall k | 0 <= k < |t.calls| ensures InOrder(t, k) {
        BystanderKept(s, t, k);
      }
    }
  }

  /**
   Exactly which steps break the correlation: those that use an id by which another
   call still expects its outcome, to register under it, to withdraw it, or to
   deliver a response to it.
   */
  lemma StepKeepsOrder(s: Exchange, l: Label)
    requires Orderly(s)
    ensures Orderly(Step(s, l)) <==> !Collides(s, l)
  {
    hide RequestId, InOrder, TakesOver;
    match l
    case Begin(valid) => BeginKept(s, valid);
    case Insert(k) => if k < |s.calls| && s.calls[k].phase.Created? { InsertExactly(s, k); }
    case Withdraw(k) => if k < |s.calls| && s.calls[k].phase.Withdrawing? { WithdrawExactly(s, k); }
    case Deliver(k) => if k < |s.calls| && s.calls[k].transit.Replied? && s.link.Open? { DeliverExactly(s, k); }
    case Enqueue(k) => if k < |s.calls| { OwnStepKept(s, l, k); }
    case Wake(k) => if k < |s.calls| { OwnStepKept(s, l, k); }
    case Expire(k) => if k < |s.calls| { OwnStepKept(s, l, k); }
    case Write(k) => if k < |s.calls| { TransitKept(s, l, k); }
    case Take(k) => if k < |s.calls| { TransitKept(s, l, k); }
    case Answering(k, _, _) => if k < |s.calls| { TransitKept(s, l, k); }
    case _ => ConnectionKept(s, l);
  }

  // ---- Over runs ----

  /** As long as no step collides, everything is in order. */
  lemma {:induction false} OrderOverRuns(run: seq<Label>, n: nat)
    requires n <= |run| && forall j | 0 <= j < n :: !Collides(Exec(INITIAL, run[..j]), run[j])
    ensures Orderly(Exec(INITIAL, run[..n]))
  {
    hide Step, Collides, RequestId, InOrder;
    if n > 0 {
      OrderOverRuns(run, n - 1);
      assert run[..n][..n - 1] == run[..n - 1];
      StepKeepsOrder(Exec(INITIAL, run[..n - 1]), run[n - 1]);
    }
  }

  /** What the invariant says of one call, spelled out outcome by outcome. */
  ghost predicate Correlated(s: Exchange, k: nat)
    requires Sound(s) && k < |s.calls|
  {
    var c := s.calls[k];
    && (c.phase.Finished? ==> !Owns(s, k) && Justified(s, c.transit, c.phase.outcome))
    && (c.phase.Waiting? ==> if Owns(s, k) then s.slots[k].Empty? else s.slots[k].Filled?)
  }

  /**
   Data is the data of the response computed for this very call; a remote error is
   the error of that response, or what ended the connection, or the call's own doing.
   */
  ghost predicate Justified(s: Exchange, transit: Transit, outcome: Outcome) {
    match outcome
    case Success(data) => transit.Delivered? && transit.reply.answer == Success(data)
    case Failure(Timeout) => true
    case Failure(InvalidRequest) => true
    case Failure(Remote(error)) =>
      || (transit.Delivered? && transit.reply.answer == Failure(error))
      || (!s.link.Open? && s.error == Some(Remote(error)))
    case Failure(Disconnected) => !s.link.Open? && (s.error.None? || s.error == Some(Disconnected))
    case Failure(error) => !s.link.Open? && s.error == Some(error)
  }

  lemma GenuineIsJustified(s: Exchange, k: nat, outcome: Outcome)
    requires k < |s.calls| && Genuine(s, k, outcome)
    ensures Justified(s, s.calls[k].transit, outcome)
  {
  }

  lemma OrderIsCorrelated(s: Exchange, k: nat)
    requires Sound(s) && k < |s.calls| && InOrder(s, k)
    ensures Correlated(s, k)
  {
    hide RequestId, Owns, Genuine;
    var c := s.calls[k];
    if c.phase.Finished? && Genuine(s, k, c.phase.outcome) { GenuineIsJustified(s, k, c.phase.outcome); }
  }

  /**
   Request correlation: in every run in which no step collides, a finished call is
   no longer registered, and its outcome is what the server computed for this very
   call, or a timeout, or the refusal of an invalid request, or, once the
   connection has ended, the error that ended it.  A call still waiting has its
   sender registered or its slot filled, never neither, whatever the race between
   registering and the drain.
   */
  lemma CorrelationOverRuns(run: seq<Label>, k: nat)
    requires forall j | 0 <= j < |run| :: !Collides(Exec(INITIAL, run[..j]), run[j])
    requires k < |Exec(INITIAL, run).calls|
    ensures Correlated(Exec(INITIAL, run), k)
  {
    hide RequestId, Collides, Step, Exec, Correlated;
    OrderOverRuns(run, |run|);
    assert run[..|run|] == run;
    assert InOrder(Exec(INITIAL, run), k);
    OrderIsCorrelated(Exec(INITIAL, run), k);
  }

  lemma NoCollisionInOneTurn(s: Exchange, l: Label)
    requires Owned(s) && |s.calls| <= WRAP
    ensures !Collides(s, l)
  {
    hide RequestId;
    forall k: nat | k < |s.calls| ensures !TakesOver(s, k) {
      if RequestId(k) in s.pending && s.pending[RequestId(k)] != k { RequestIdsDiffer(s.pending[RequestId(k)], k); }
    }
  }

  lemma {:induction false} OneTurnOverRuns(run: seq<Label>, n: nat)
    requires n <= |run| && |Exec(INITIAL, run[..n]).calls| <= WRAP
    ensures Orderly(Exec(INITIAL, run[..n]))
    ensures forall j | 0 <= j < n :: !Collides(Exec(INITIAL, run[..j]), run[j])
  {
    hide Collides, RequestId, InOrder, Step;
    if n > 0 {
      assert run[..n][..n - 1] == run[..n - 1];
      OneTurnOverRuns(run, n - 1);
      NoCollisionInOneTurn(Exec(INITIAL, run[..n - 1]), run[n - 1]);
      StepKeepsOrder(Exec(INITIAL, run[..n - 1]), run[n - 1]);
    }
  }

  /** Within one turn of the 64-bit counter no step collides, and a finished call's id is not pending at all. */
  lemma CorrelationInOneTurn(run: seq<Label>, k: nat)
    requires k < |Exec(INITIAL, run).calls| <= WRAP
    ensures Correlated(Exec(INITIAL, run), k)
    ensures Exec(INITIAL, run).calls[k].phase.Finished? ==> RequestId(k) !in Exec(INITIAL, run).pending
  {
    hide Collides, RequestId, Step, Exec, Correlated;
    assert run[..|run|] == run;
    OneTurnOverRuns(run, |run|);
    var s := Exec(INITIAL, run);
    assert InOrder(s, k);
    OrderIsCorrelated(s, k);
    if RequestId(k) in s.pending && s.pending[RequestId(k)] != k { RequestIdsDiffer(s.pending[RequestId(k)], k); }
  }

  /** A call's outcome is final. */
  lemma CallsStay(s: Exchange, l: Label)
    requires Sound(s)
    ensures forall k | 0 <= k < |s.calls| && s.calls[k].phase.Finished? :: Step(s, l).calls[k].phase == s.calls[k].phase
  {
    hide RequestId;
  }

  /** What the server computed for a request is final too, and is delivered as it was computed. */
  lemma AnswersStay(s: Exchange, l: Label, k: nat)
    requires Orderly(s) && k < |s.calls|
    requires s.calls[k].transit.Replied? || s.calls[k].transit.Delivered?
    ensures var c := Step(s, l).calls[k];
            (c.transit.Replied? || c.transit.Delivered?) && c.transit.reply == s.calls[k].transit.reply
  {
    hide RequestId;
    assert InOrder(s, k);
  }

  /** The outcome of a call is final: no later step changes it. */
  lemma {:induction false} OneOutcome(run: seq<Label>, more: seq<Label>, k: nat)
    requires k < |Exec(INITIAL, run).calls| && Exec(INITIAL, run).calls[k].phase.Finished?
    ensures k < |Exec(INITIAL, run + more).calls|
    ensures Exec(INITIAL, run + more).calls[k].phase == Exec(INITIAL, run).calls[k].phase
  {
    hide Step;
    if more == [] {
      assert run + more == run;
    } else {
      var front := more[..|more| - 1];
      OneOutcome(run, front, k);
      assert (run + more)[..|run + more| - 1] == run + front;
      CallsStay(Exec(INITIAL, run + front), more[|more| - 1]);
    }
  }

  /** The remaining steps of one call's future, each skipped if it is not its turn. */
  function Entered(s: Exchange, k: nat): (t: Exchange)
    requires Sound(s)
    ensures Sound(t) && |s.calls| <= |t.calls|
  {
    Step(Step(s, Insert(k)), Enqueue(k))
  }

  function Completed(s: Exchange, k: nat): (t: Exchange)
    requires Sound(s)
    ensures Sound(t) && |s.calls| <= |t.calls|
  {
    Step(Step(Step(s, Expire(k)), Wake(k)), Withdraw(k))
  }

  lemma EnteredPhase(s: Exchange, k: nat)
    requires Sound(s) && k < |s.calls|
    ensures var c := Entered(s, k).calls[k]; !c.phase.Created? && !c.phase.Registered?
  {
    hide RequestId, Register;
  }

  lemma CompletedPhase(s: Exchange, k: nat)
    requires Sound(s) && k < |s.calls| && !s.calls[k].phase.Created? && !s.calls[k].phase.Registered?
    ensures Completed(s, k).calls[k].phase.Finished?
  {
    hide RequestId, Unregister;
  }

  /** Whatever has happened, the remaining steps of a call's own future bring it to an outcome. */
  lemma EveryCallCompletes(s: Exchange, k: nat)
    requires Sound(s) && k < |s.calls|
    ensures Completed(Entered(s, k), k).calls[k].phase.Finished?
  {
    hide Entered, Completed;
    EnteredPhase(s, k);
    CompletedPhase(Entered(s, k), k);
  }

  lemma EnteredLate(s: Exchange, k: nat)
    requires Sound(s) && k < |s.calls| && s.calls[k].phase.Created? && s.slots[k].Empty? && !Owns(s, k)
    ensures var t := Entered(s, k);
            && t.calls[k].phase == (if s.link.Gone? then Withdrawing(false) else Waiting)
            && t.slots[k].Empty? && t.link == s.link && t.error == s.error
  {
    hide RequestId;
  }

  lemma CompletedLate(s: Exchange, k: nat)
    requires Sound(s) && k < |s.calls| && s.slots[k].Empty?
    requires s.calls[k].phase.Waiting? || s.calls[k].phase == Withdrawing(false)
    ensures var t := Completed(s, k);
            && t.calls[k].phase == Finished(Failure(if s.calls[k].phase.Waiting? then Timeout else LostError(s)))
            && RequestId(k) !in t.pending
  {
    hide RequestId;
  }

  /**
   A call that registers after the drain is never answered: it ends with the
   connection's error if its request finds the queue gone, and with a timeout if
   not, and its id does not stay behind.
   */
  lemma LateRegistration(s: Exchange, k: nat)
    requires Orderly(s) && k < |s.calls| && s.calls[k].phase.Created? && (s.link.Drained? || s.link.Gone?)
    ensures var t := Completed(Entered(s, k), k);
            && t.calls[k].phase == Finished(Failure(if s.link.Gone? then LostError(s) else Timeout))
            && RequestId(k) !in t.pending
  {
    hide Entered, Completed, RequestId;
    assert InOrder(s, k);
    EnteredLate(s, k);
    CompletedLate(Entered(s, k), k);
  }

  // ---- One call from beginning to end ----

  /** What the caller gets for an answer: its data, or its message as a remote error. */
  ghost predicate Tells(answer: Answer, outcome: Outcome) {
    match answer
    case Success(data) => outcome == Success(data)
    case Failure(error) => outcome == Failure(Remote(error))
  }

  /** A call comes in and its request is handed to the connection. */
  function Asks(k: nat): seq<Label> { [Begin(true), Insert(k), Enqueue(k)] }

  /** Its request reaches the server, is carried out, and the response comes back. */
  function IsAnswered(k: nat, rest: map<string, Json>, answer: Answer): seq<Label> {
    [Write(k), Take(k), Answering(k, rest, CarriedOut(answer)), Deliver(k), Wake(k)]
  }

  /** The next call can take an id that nobody waits for. */
  predicate Ready(s: Exchange) { Sound(s) && !s.disconnected && s.link.Open? && RequestId(|s.calls|) !in s.pending }

  lemma ComesIn(s: Exchange)
    requires Sound(s) && !s.disconnected
    ensures Step(s, Begin(true)) == s.(calls := s.calls + [Call(Created, Unsent)], slots := s.slots + [Empty])
  {
  }

  lemma Registers(s: Exchange, k: nat)
    requires Sound(s) && k < |s.calls| && s.calls[k].phase.Created? && RequestId(k) !in s.pending
    ensures Step(s, Insert(k)) == s.(calls := s.calls[k := s.calls[k].(phase := Registered)],
                                     pending := s.pending[RequestId(k) := k])
  {
    hide RequestId;
  }

  lemma Enqueues(s: Exchange, k: nat)
    requires Sound(s) && k < |s.calls| && s.calls[k].phase.Registered? && s.link.Open?
    ensures Step(s, Enqueue(k)) == s.(calls := s.calls[k := Call(Waiting, Queued)])
  {
    hide RequestId;
    assert s.calls[k := Call(Registered, Queued)][k := Call(Waiting, Queued)] == s.calls[k := Call(Waiting, Queued)];
  }

  lemma AsksAndWaits(s: Exchange)
    requires Ready(s)
    ensures var k := |s.calls|;
            Exec(s, Asks(k)) == s.(calls := s.calls + [Call(Waiting, Queued)], slots := s.slots + [Empty],
                                   pending := s.pending[RequestId(k) := k])
  {
    hide RequestId, Step, Exec;
    var k := |s.calls|;
    ThreeSteps(s, Asks(k));
    var begun := s.(calls := s.calls + [Call(Created, Unsent)], slots := s.slots + [Empty]);
    ComesIn(s);
    Registers(begun, k);
    var registered := begun.(calls := s.calls + [Call(Registered, Unsent)], pending := s.pending[RequestId(k) := k]);
    assert begun.calls[k := begun.calls[k].(phase := Registered)] == registered.calls;
    Enqueues(registered, k);
    assert registered.calls[k := Call(Waiting, Queued)] == s.calls + [Call(Waiting, Queued)];
  }

  lemma ThreeSteps(s: Exchange, l: seq<Label>)
    requires Sound(s) && |l| == 3
    ensures Exec(s, l) == Step(Step(Step(s, l[0]), l[1]), l[2])
  {
    hide Step;
    assert l[..2][..1] == l[..1] && l[..1][..0] == [];
    assert Exec(s, l[..1]) == Step(s, l[0]);
  }

  lemma FiveSteps(s: Exchange, l: seq<Label>)
    requires Sound(s) && |l| == 5
    ensures Exec(s, l) == Step(Step(Step(Step(Step(s, l[0]), l[1]), l[2]), l[3]), l[4])
  {
    hide Step;
    FourSteps(s, l[..4]);
    assert l[..|l| - 1] == l[..4];
  }

  lemma IsReplied(s: Exchange, k: nat, rest: map<string, Json>, answer: Answer)
    requires Sound(s) && k < |s.calls| && s.calls[k] == Call(Waiting, Queued) && s.link.Open?
    ensures Step(Step(Step(s, Write(k)), Take(k)), Answering(k, rest, CarriedOut(answer)))
            == s.(calls := s.calls[k := Call(Waiting, Replied(Reply(RequestId(k), answer)))])
  {
    hide RequestId, DispatchRequest;
    EchoesId(RequestId(k), rest, CarriedOut(answer));
    DispatchMeaning(RequestJson(RequestId(k), rest), CarriedOut(answer));
    assert Step(Step(s, Write(k)), Take(k)) == s.(calls := s.calls[k := Call(Waiting, Running)]);
  }

  lemma GetsAnswered(s: Exchange, k: nat, rest: map<string, Json>, answer: Answer)
    requires Sound(s) && k < |s.calls| && s.calls[k] == Call(Waiting, Queued) && s.slots[k].Empty?
    requires s.link.Open? && Owns(s, k)
    ensures var t := Exec(s, IsAnswered(k, rest, answer));
            && |t.calls| == |s.calls| && t.calls[k].phase.Finished? && Tells(answer, t.calls[k].phase.outcome)
            && RequestId(k) !in t.pending
            && forall j | 0 <= j < |s.calls| && j != k :: t.calls[j] == s.calls[j] && t.slots[j] == s.slots[j]
  {
    hide RequestId, Exec;
    FiveSteps(s, IsAnswered(k, rest, answer));
    IsReplied(s, k, rest, answer);
  }

  /**
   A request that goes through tells its caller what the server answered, data as
   data and an error as the server's error, and leaves everyone else alone.
   */
  lemma RequestRoundTrip(s: Exchange, rest: map<string, Json>, answer: Answer)
    requires Ready(s)
    ensures var k := |s.calls|;
            var t := Exec(s, Asks(k) + IsAnswered(k, rest, answer));
            && |t.calls| == k + 1 && t.calls[k].phase.Finished? && Tells(answer, t.calls[k].phase.outcome)
            && RequestId(k) !in t.pending
            && forall j | 0 <= j < k :: t.calls[j] == s.calls[j] && t.slots[j] == s.slots[j]
  {
    hide Exec, Step, RequestId;
    var k := |s.calls|;
    AsksAndWaits(s);
    ExecJoined(s, Asks(k), IsAnswered(k, rest, answer));
    GetsAnswered(Exec(s, Asks(k)), k, rest, answer);
  }

  lemma TwoSteps(s: Exchange, l: seq<Label>)
    requires Sound(s) && |l| == 2
    ensures Exec(s, l) == Step(Step(s, l[0]), l[1])
  {
    hide Step;
    assert l[..1][..0] == [];
    assert Exec(s, l[..1]) == Step(s, l[0]);
  }

  lemma GivesUpWaiting(s: Exchange, k: nat)
    requires Sound(s) && k < |s.calls| && s.calls[k].phase.Waiting? && s.slots[k].Empty? && Owns(s, k)
    ensures var t := Exec(s, [Expire(k), Withdraw(k)]);
            && |t.calls| == |s.calls| && t.calls[k].phase == Finished(Failure(Timeout))
            && t.pending == s.pending - {RequestId(k)} && t.slots == s.slots[k := Dropped]
            && forall j | 0 <= j < |s.calls| && j != k :: t.calls[j] == s.calls[j]
  {
    hide RequestId;
    TwoSteps(s, [Expire(k), Withdraw(k)]);
    assert Step(s, Expire(k)) == s.(calls := s.calls[k := s.calls[k].(phase := Withdrawing(true))]);
  }

  /** A request that is not answered in time is withdrawn: its caller is told so and its id is free again. */
  lemma RequestTimesOut(s: Exchange)
    requires Ready(s)
    ensures var k := |s.calls|;
            var t := Exec(s, Asks(k) + [Expire(k), Withdraw(k)]);
            && |t.calls| == k + 1 && t.calls[k].phase == Finished(Failure(Timeout)) && t.pending == s.pending
            && forall j | 0 <= j < k :: t.calls[j] == s.calls[j] && t.slots[j] == s.slots[j]
  {
    hide Exec, Step, RequestId;
    var k := |s.calls|;
    AsksAndWaits(s);
    ExecJoined(s, Asks(k), [Expire(k), Withdraw(k)]);
    GivesUpWaiting(Exec(s, Asks(k)), k);
  }

  /** An invalid request is refused on the spot. */
  lemma InvalidIsRefused(s: Exchange)
    requires Ready(s)
    ensures Exec(s, [Begin(false)])
            == s.(calls := s.calls + [Call(Finished(Failure(InvalidRequest)), Unsent)], slots := s.slots + [Empty])
  {
    OneStep(s, Begin(false));
  }

  /** The connection task goes down with this error, or with none. */
  function GoesDown(error: Option<ClientError>): seq<Label> { [Break(error), Announce, Drain, Leave] }

  lemma DrainMeaning(pending: map<string, nat>, slots: seq<Slot>, outcome: Outcome, k: nat)
    requires k < |slots|
    ensures FillAll(pending, slots, outcome)[k]
            == if slots[k].Empty? && (exists id | id in pending :: pending[id] == k) then Filled(outcome) else slots[k]
  {
    if exists id | id in pending :: pending[id] == k {
      var id :| id in pending && pending[id] == k;
      assert pending[id] in pending.Values;
    }
  }

  /**
   When an open connection goes down, every registered call ends with its error, or
   as disconnected if it has none; nothing stays pending; and no call comes in any more.
   */
  lemma ConnectionGoesDown(s: Exchange, error: Option<ClientError>, k: nat, valid: bool)
    requires Sound(s) && s.link.Open?
    ensures var t := Exec(s, GoesDown(error));
            && t.link.Gone? && t.disconnected && t.error == error && t.pending == map[] && t.calls == s.calls
            && Step(t, Begin(valid)) == t
            && (k < |s.calls| && s.calls[k].phase.Waiting? && Owns(s, k) && s.slots[k].Empty? ==>
                  var u := Step(t, Wake(k));
                  && |u.calls| == |s.calls|
                  && u.calls[k].phase == Finished(Failure(match error case Some(e) => e case None => Disconnected)))
  {
    hide RequestId;
    FourSteps(s, GoesDown(error));
    var announced := Step(Step(s, Break(error)), Announce);
    assert announced == s.(link := Announced, error := error, disconnected := true);
    if k < |s.slots| { DrainMeaning(s.pending, s.slots, Failure(LostError(announced)), k); }
  }

  /** Once the loop has ended nothing is written and nothing is delivered any more. */
  lemma ClosedIsQuiet(s: Exchange, k: nat)
    requires Sound(s) && !s.link.Open?
    ensures Step(s, Write(k)) == s && Step(s, Deliver(k)) == s
  {
  }

  /** Closing turns every later call away and leaves those already in alone. */
  lemma CloseTurnsAway(s: Exchange, valid: bool)
    requires Sound(s)
    ensures var t := Step(s, Close);
            && t.disconnected && Step(t, Begin(valid)) == t
            && t.calls == s.calls && t.slots == s.slots && t.pending == s.pending && t.link == s.link
  {
  }

  /** A call that withdraws an id by which another one waits takes that one's sender with it. */
  lemma WithdrawDisplaces(s: Exchange, k: nat, j: nat)
    requires Sound(s) && k < |s.calls| && j < |s.calls| && k != j
    requires s.calls[k].phase.Withdrawing? && RequestId(k) in s.pending && s.pending[RequestId(k)] == j
    requires s.calls[j].phase.Waiting? && s.slots[j].Empty?
    ensures var t := Step(Step(s, Withdraw(k)), Wake(j));
            && |t.calls| == |s.calls| && RequestId(k) !in t.pending
            && t.calls[j].phase == Finished(Failure(if s.error.Some? then s.error.value else Disconnected))
  {
    hide RequestId;
  }

  /** Whenever the connection has come to its drain, the flag has been set. */
  lemma {:induction false} FlaggedOverRuns(run: seq<Label>)
    ensures var s := Exec(INITIAL, run); s.link.Open? || s.link.Broken? || s.disconnected
  {
    hide RequestId, FillAll;
    if run != [] { FlaggedOverRuns(run[..|run| - 1]); }
  }

  // ---- Runs that collide ----

  lemma {:induction false} ExecJoined(s: Exchange, a: seq<Label>, b: seq<Label>)
    requires Sound(s)
    ensures Exec(s, a + b) == Exec(Exec(s, a), b)
  {
    hide Step;
    if b == [] {
      assert a + b == a;
    } else {
      var front := b[..|b| - 1];
      assert (a + b)[..|a + b| - 1] == a + front;
      ExecJoined(s, a, front);
    }
  }

  function Begins(n: nat): seq<Label> { seq(n, _ => Begin(true)) }

  lemma {:induction false} ManyBegin(s: Exchange, n: nat)
    requires Sound(s) && !s.disconnected
    ensures Exec(s, Begins(n))
            == s.(calls := s.calls + seq(n, _ => Call(Created, Unsent)), slots := s.slots + seq(n, _ => Empty))
  {
    if n == 0 {
      assert s.calls + seq(0, _ => Call(Created, Unsent)) == s.calls && s.slots + seq(0, _ => Empty) == s.slots;
    } else {
      ManyBegin(s, n - 1);
      assert Begins(n)[..n - 1] == Begins(n - 1);
      var c, e := Call(Created, Unsent), Empty;
      assert s.calls + seq(n - 1, _ => c) + [c] == s.calls + seq(n, _ => c);
      assert s.slots + seq(n - 1, _ => e) + [e] == s.slots + seq(n, _ => e);
    }
  }

  /** A call that waits, and nothing else yet. */
  const FIRST := Exchange([Call(Waiting, Queued)], [Empty], map[RequestId(0) := 0], Open, None, false)

  lemma FirstWaits()
    ensures Exec(INITIAL, [Begin(true), Insert(0), Enqueue(0)]) == FIRST
  {
    hide RequestId;
    var l := [Begin(true), Insert(0), Enqueue(0)];
    assert l[..2][..1] == l[..1] && l[..1][..0] == [];
    assert Exec(INITIAL, l[..1]) == Exchange([Call(Created, Unsent)], [Empty], map[], Open, None, false);
    assert Exec(INITIAL, l[..2])
        == Exchange([Call(Registered, Unsent)], [Empty], map[RequestId(0) := 0], Open, None, false);
  }

  /** One call waits while the counter makes a whole turn. */
  function OneTurn(): seq<Label> { [Begin(true), Insert(0), Enqueue(0)] + Begins(WRAP) }

  /**
   After one turn of the counter, registering the next call takes the waiting call's
   sender away: it ends as disconnected on an open connection, while its id is
   pending for the other.  The run is from the beginning.
   */
  lemma TurnDisplaces()
    ensures var s := Exec(INITIAL, OneTurn() + [Insert(WRAP), Wake(0)]);
            && |s.calls| == WRAP + 1 && s.link.Open?
            && s.calls[0].phase == Finished(Failure(Disconnected))
            && RequestId(0) in s.pending && s.pending[RequestId(0)] == WRAP
    ensures Collides(Exec(INITIAL, OneTurn()), Insert(WRAP))
  {
    hide RequestId, Exec, Step, Collides;
    var turned := AfterTurn();
    ExecJoined(INITIAL, OneTurn(), [Insert(WRAP), Wake(0)]);
    var last := [Insert(WRAP), Wake(0)];
    assert last == [last[0]] + [last[1]];
    ExecJoined(turned, [last[0]], [last[1]]);
    OneStep(turned, last[0]);
    OneStep(Step(turned, last[0]), last[1]);
    RequestIdsAgree(0, WRAP);
    Displaces(turned);
  }

  lemma Displaces(s: Exchange)
    requires Sound(s) && |s.calls| == WRAP + 1 && s.calls[0].phase.Waiting? && s.calls[WRAP].phase.Created?
    requires RequestId(0) in s.pending && s.pending[RequestId(0)] == 0 && s.slots[0].Empty? && s.error.None?
    requires RequestId(WRAP) == RequestId(0)
    ensures Collides(s, Insert(WRAP))
    ensures var t := Step(Step(s, Insert(WRAP)), Wake(0));
            && |t.calls| == WRAP + 1 && t.link == s.link && t.calls[0].phase == Finished(Failure(Disconnected))
            && RequestId(0) in t.pending && t.pending[RequestId(0)] == WRAP
  {
    hide RequestId;
  }

  lemma AfterTurn() returns (turned: Exchange)
    ensures turned == Exec(INITIAL, OneTurn())
    ensures turned == FIRST.(calls := [Call(Waiting, Queued)] + seq(WRAP, _ => Call(Created, Unsent)),
                             slots := [Empty] + seq(WRAP, _ => Empty))
  {
    hide RequestId, Step, Exec, Begins;
    turned := Exec(INITIAL, OneTurn());
    FirstWaits();
    ExecJoined(INITIAL, [Begin(true), Insert(0), Enqueue(0)], Begins(WRAP));
    ManyBegin(FIRST, WRAP);
  }

  /** The first call's request reaches the server, and the call gives up. */
  const GAVE_UP: seq<Label> := [Write(0), Take(0), Expire(0), Withdraw(0)]

  /** The call one turn later registers and waits, and only then is the first one's response delivered. */
  function LateResponse(answer: Answer): seq<Label> {
    [Insert(WRAP), Enqueue(WRAP), Answering(0, map[], CarriedOut(answer)), Deliver(0), Wake(WRAP)]
  }

  /** Or it hands the other call a response that was not computed for it: whatever the first one's task answers. */
  lemma TurnMisdelivers(answer: Answer)
    ensures var s := Exec(INITIAL, OneTurn() + GAVE_UP + LateResponse(answer));
            && |s.calls| == WRAP + 1 && s.link.Open?
            && s.calls[WRAP].phase.Finished? && Tells(answer, s.calls[WRAP].phase.outcome)
            && s.calls[WRAP].transit.Queued?
  {
    hide RequestId, Exec, DispatchRequest;
    var turned := AfterTurn();
    RequestIdsAgree(0, WRAP);
    ExecJoined(INITIAL, OneTurn() + GAVE_UP, LateResponse(answer));
    ExecJoined(INITIAL, OneTurn(), GAVE_UP);
    FourSteps(turned, GAVE_UP);
    var gaveUp := Exec(turned, GAVE_UP);
    GivesUp(turned);
    Answers(gaveUp, answer);
  }

  lemma FourSteps(s: Exchange, l: seq<Label>)
    requires Sound(s) && |l| == 4
    ensures Exec(s, l) == Step(Step(Step(Step(s, l[0]), l[1]), l[2]), l[3])
  {
    hide Step;
    assert l[..3][..2] == l[..2] && l[..2][..1] == l[..1] && l[..1][..0] == [];
    assert Exec(s, l[..1]) == Step(s, l[0]);
    assert Exec(s, l[..2]) == Step(Step(s, l[0]), l[1]);
  }

  lemma GivesUp(s: Exchange)
    requires Sound(s) && s.calls != [] && s.calls[0] == Call(Waiting, Queued) && s.slots[0].Empty? && s.link.Open?
    requires s.pending == map[RequestId(0) := 0]
    ensures var t := Step(Step(Step(Step(s, Write(0)), Take(0)), Expire(0)), Withdraw(0));
            && |t.calls| == |s.calls| && t.calls[0] == Call(Finished(Failure(Timeout)), Running)
            && t.calls[1..] == s.calls[1..] && t.slots[1..] == s.slots[1..] && |t.slots| == |s.slots|
            && t.pending == map[] && t.link == s.link && t.error == s.error
  {
    hide RequestId;
  }

  lemma RegistersNext(s: Exchange)
    requires Sound(s) && |s.calls| == WRAP + 1 && !s.link.Gone? && s.pending == map[]
    requires s.calls[WRAP] == Call(Created, Unsent)
    ensures var t := Step(Step(s, Insert(WRAP)), Enqueue(WRAP));
            && |t.calls| == |s.calls| && t.calls[WRAP] == Call(Waiting, Queued) && t.calls[0] == s.calls[0]
            && t.slots == s.slots && t.pending == map[RequestId(WRAP) := WRAP] && t.link == s.link
  {
    hide RequestId;
  }

  lemma DeliversToNext(s: Exchange, answer: Answer)
    requires Sound(s) && |s.calls| == WRAP + 1 && s.calls[0].transit.Running? && s.link.Open?
    requires s.calls[WRAP] == Call(Waiting, Queued) && s.slots[WRAP].Empty? && s.pending == map[RequestId(0) := WRAP]
    ensures var t := Step(Step(s, Answering(0, map[], CarriedOut(answer))), Deliver(0));
            && |t.calls| == |s.calls| && t.link.Open?
            && t.calls[WRAP] == Call(Waiting, Queued) && t.slots[WRAP] == Filled(OutcomeOf(answer))
  {
    hide RequestId, DispatchRequest;
    RepliesWith(RequestId(0), answer);
  }

  lemma RepliesWith(id: string, answer: Answer)
    ensures DispatchRequest(Some(RequestJson(id, map[])), CarriedOut(answer)) == Reply(id, answer)
  {
  }

  lemma WakesNext(s: Exchange, outcome: Outcome)
    requires Sound(s) && |s.calls| == WRAP + 1 && s.link.Open?
    requires s.calls[WRAP] == Call(Waiting, Queued) && s.slots[WRAP] == Filled(outcome)
    ensures var t := Step(s, Wake(WRAP));
            |t.calls| == |s.calls| && t.link.Open? && t.calls[WRAP] == Call(Finished(outcome), Queued)
  {
  }

  lemma Answers(s: Exchange, answer: Answer)
    requires Sound(s) && |s.calls| == WRAP + 1 && s.calls[0].transit.Running? && s.link.Open? && s.pending == map[]
    requires s.calls[WRAP] == Call(Created, Unsent) && s.slots[WRAP].Empty?
    ensures var t := Exec(s, LateResponse(answer));
            && |t.calls| == |s.calls| && t.link.Open?
            && t.calls[WRAP] == Call(Finished(OutcomeOf(answer)), Queued)
  {
    hide RequestId, Exec, Step;
    RequestIdsAgree(0, WRAP);
    var l := LateResponse(answer);
    ExecJoined(s, l[..4], l[4..]);
    assert l == l[..4] + l[4..];
    FourSteps(s, l[..4]);
    RegistersNext(s);
    var registered := Step(Step(s, l[0]), l[1]);
    DeliversToNext(registered, answer);
    var delivered := Step(Step(registered, l[2]), l[3]);
    WakesNext(delivered, OutcomeOf(answer));
    OneStep(delivered, l[4]);
    assert l[4..] == [l[4]];
  }

  lemma OneStep(s: Exchange, l: Label)
    requires Sound(s)
    ensures Exec(s, [l]) == Step(s, l)
  {
    hide Step;
    assert [l][..0] == [];
  }
}
