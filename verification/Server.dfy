/** One connection of the server (crates/mpv-targetsd/src/server.rs), and the client at its other end. */
module Server {
  import opened Wrappers
  import opened Protocol
  import opened Config
  import opened Correlation
  import opened Client
  import Machine
  import Replica

  /** What the select loop can be woken by. */
  datatype Input =
    | Received(text: string)
    | OtherReceived
    | Answered(reply: Reply)
    | Published(event: Event)
    | Lagged
    | PublisherGone
    | PeerClosed
    | ReaderFailed(message: string)

  /** The inputs after which the loop returns. */
  predicate Ends(input: Input) {
    input.Lagged? || input.PublisherGone? || input.PeerClosed? || input.ReaderFailed?
  }

  function EndOf(input: Input): Result<(), string>
    requires Ends(input)
  {
    match input
    case Lagged => Failure("target event revision gap")
    case ReaderFailed(message) => Failure(message)
    case _ => Success(())
  }

  /** The inputs the loop gets to: those before the first that ends it. */
  function Handled(inputs: seq<Input>): (r: seq<Input>)
    ensures r <= inputs && (forall input | input in r :: !Ends(input))
    ensures |r| < |inputs| ==> Ends(inputs[|r|])
  {
    if inputs == [] || Ends(inputs[0]) then [] else [inputs[0]] + Handled(inputs[1..])
  }

  function FrameOf(input: Input): seq<Frame> {
    match input
    case Answered(reply) => [Text(ResponseMessage(reply))]
    case Published(event) => [Text(EventMessage(event))]
    case _ => []
  }

  function FramesOf(inputs: seq<Input>): seq<Frame> {
    if inputs == [] then [] else FrameOf(inputs[0]) + FramesOf(inputs[1..])
  }

  function PublishedIn(inputs: seq<Input>): seq<Event> {
    if inputs == [] then []
    else (if inputs[0].Published? then [inputs[0].event] else []) + PublishedIn(inputs[1..])
  }

  function RequestsIn(inputs: seq<Input>): seq<string> {
    if inputs == [] then []
    else (if inputs[0].Received? then [inputs[0].text] else []) + RequestsIn(inputs[1..])
  }

  lemma HandlesOne(inputs: seq<Input>)
    requires inputs != []
    ensures var h, rest := Handled(inputs), Handled(inputs[1..]);
            if Ends(inputs[0]) then FramesOf(h) == [] && RequestsIn(h) == [] && h == []
            else
              && FramesOf(h) == FrameOf(inputs[0]) + FramesOf(rest)
              && RequestsIn(h) == (if inputs[0].Received? then [inputs[0].text] else []) + RequestsIn(rest)
              && |h| == 1 + |rest|
  {
    if !Ends(inputs[0]) { assert Handled(inputs)[1..] == Handled(inputs[1..]); }
  }

  lemma HandlesNothing()
    ensures Handled([]) == [] && FramesOf([]) == [] && RequestsIn([]) == []
  {
  }

  // ---- What the loop does with each input ----

  /** The places among the first `n` inputs whose input makes the loop write a frame. */
  function Writing(inputs: seq<Input>, n: nat): set<nat>
    requires n <= |inputs|
  {
    set i: nat | i < n && (inputs[i].Answered? || inputs[i].Published?)
  }

  /** The places among the first `n` inputs that hold a request. */
  function Asking(inputs: seq<Input>, n: nat): set<nat>
    requires n <= |inputs|
  {
    set i: nat | i < n && inputs[i].Received?
  }

  /** Input `j` is handled: neither it nor anything before it ends the loop. */
  ghost predicate Reached(inputs: seq<Input>, j: nat) {
    && j < |inputs|
    && forall i | 0 <= i <= j ::
         inputs[i].Received? || inputs[i].OtherReceived? || inputs[i].Answered? || inputs[i].Published?
  }

  lemma {:induction false} HandledIsReached(inputs: seq<Input>, j: nat)
    ensures j < |Handled(inputs)| <==> Reached(inputs, j)
  {
    if inputs != [] && !Ends(inputs[0]) {
      var rest := inputs[1..];
      assert Handled(inputs) == [inputs[0]] + Handled(rest);
      if j > 0 {
        HandledIsReached(rest, j - 1);
        if Reached(inputs, j) {
          assert forall i | 0 <= i <= j - 1 :: rest[i] == inputs[i + 1];
        }
        if Reached(rest, j - 1) {
          assert forall i | 1 <= i <= j :: inputs[i] == rest[i - 1];
        }
      }
    }
  }

  lemma {:induction false} OneMoreInput(inputs: seq<Input>, input: Input)
    ensures FramesOf(inputs + [input]) == FramesOf(inputs) + FrameOf(input)
    ensures RequestsIn(inputs + [input]) == RequestsIn(inputs) + if input.Received? then [input.text] else []
  {
    if inputs == [] {
      assert [input][1..] == [] && FramesOf([]) == [] && RequestsIn([]) == [];
    } else {
      assert (inputs + [input])[1..] == inputs[1..] + [input];
      OneMoreInput(inputs[1..], input);
    }
  }

  lemma OnePlaceMore(inputs: seq<Input>, n: nat)
    requires n < |inputs|
    ensures |Writing(inputs, n + 1)|
            == |Writing(inputs, n)| + if inputs[n].Answered? || inputs[n].Published? then 1 else 0
    ensures |Asking(inputs, n + 1)| == |Asking(inputs, n)| + if inputs[n].Received? then 1 else 0
  {
    var w, a := Writing(inputs, n), Asking(inputs, n);
    assert Writing(inputs, n + 1) == if inputs[n].Answered? || inputs[n].Published? then w + {n} else w;
    assert Asking(inputs, n + 1) == if inputs[n].Received? then a + {n} else a;
  }

  /** What an input is turned into stands where the earlier inputs of its kind leave off. */
  lemma {:induction false} InputLeaves(inputs: seq<Input>, n: nat, j: nat)
    requires n <= |inputs|
    ensures var frames, tasks := FramesOf(inputs[..n]), RequestsIn(inputs[..n]);
            && |frames| == |Writing(inputs, n)|
            && |tasks| == |Asking(inputs, n)|
            && (j < n && (inputs[j].Answered? || inputs[j].Published?) ==>
                  |Writing(inputs, j)| < |frames| && [frames[|Writing(inputs, j)|]] == FrameOf(inputs[j]))
            && (j < n && inputs[j].Received? ==>
                  |Asking(inputs, j)| < |tasks| && tasks[|Asking(inputs, j)|] == inputs[j].text)
  {
    hide Writing, Asking, FramesOf, RequestsIn;
    if n == 0 {
      HandlesNothing();
      assert Writing(inputs, 0) == {} && Asking(inputs, 0) == {} by { NoPlaces(inputs); }
      assert inputs[..0] == [];
    } else {
      InputLeaves(inputs, n - 1, j);
      OnePlaceMore(inputs, n - 1);
      assert inputs[..n] == inputs[..n - 1] + [inputs[n - 1]];
      OneMoreInput(inputs[..n - 1], inputs[n - 1]);
    }
  }

  lemma NoPlaces(inputs: seq<Input>)
    ensures Writing(inputs, 0) == {} && Asking(inputs, 0) == {}
  {
  }

  /**
   What is written after the snapshot and which tasks are spawned, place by place:
   every reached answer and every reached event is one frame, every reached request
   one task, in order, and there is nothing else.
   */
  ghost predicate Served(inputs: seq<Input>, frames: seq<Frame>, tasks: seq<string>) {
    var n := |Handled(inputs)|;
    && |frames| == |Writing(inputs, n)|
    && |tasks| == |Asking(inputs, n)|
    && (forall j: nat | Reached(inputs, j) && inputs[j].Answered? ::
          |Writing(inputs, j)| < |frames|
          && frames[|Writing(inputs, j)|] == Text(ResponseMessage(inputs[j].reply)))
    && (forall j: nat | Reached(inputs, j) && inputs[j].Published? ::
          |Writing(inputs, j)| < |frames|
          && frames[|Writing(inputs, j)|] == Text(EventMessage(inputs[j].event)))
    && (forall j: nat | Reached(inputs, j) && inputs[j].Received? ::
          |Asking(inputs, j)| < |tasks| && tasks[|Asking(inputs, j)|] == inputs[j].text)
  }

  lemma ReachedInside(inputs: seq<Input>)
    ensures forall j: nat :: Reached(inputs, j) <==> j < |Handled(inputs)|
  {
    forall j: nat ensures Reached(inputs, j) <==> j < |Handled(inputs)| { HandledIsReached(inputs, j); }
  }

  lemma EveryInputIsServed(inputs: seq<Input>)
    ensures Served(inputs, FramesOf(Handled(inputs)), RequestsIn(Handled(inputs)))
  {
    hide Writing, Asking, FramesOf, RequestsIn, Handled, Reached;
    ReachedInside(inputs);
    var n := |Handled(inputs)|;
    assert inputs[..n] == Handled(inputs);
    InputLeaves(inputs, n, 0);
    forall j: nat | Reached(inputs, j)
      ensures j < n
      ensures inputs[j].Answered? || inputs[j].Published? ==>
                |Writing(inputs, j)| < |FramesOf(Handled(inputs))|
                && [FramesOf(Handled(inputs))[|Writing(inputs, j)|]] == FrameOf(inputs[j])
      ensures inputs[j].Received? ==>
                |Asking(inputs, j)| < |RequestsIn(Handled(inputs))|
                && RequestsIn(Handled(inputs))[|Asking(inputs, j)|] == inputs[j].text
    {
      InputLeaves(inputs, n, j);
    }
  }

  /** The loop is still open exactly if every input was reached, and otherwise ends with the first that was not. */
  ghost predicate EndsWith(inputs: seq<Input>, end: Option<Result<(), string>>) {
    if end.None? then forall j: nat | j < |inputs| :: Reached(inputs, j)
    else
      exists n: nat | n < |inputs| ::
        && !Reached(inputs, n) && (forall j: nat | j < n :: Reached(inputs, j))
        && match inputs[n]
           case Lagged => end.value == Failure("target event revision gap")
           case ReaderFailed(message) => end.value == Failure(message)
           case _ => end.value == Success(()) && (inputs[n].PublisherGone? || inputs[n].PeerClosed?)
  }

  lemma EndIsTheFirst(inputs: seq<Input>)
    ensures var n := |Handled(inputs)|; EndsWith(inputs, if n == |inputs| then None else Some(EndOf(inputs[n])))
  {
    hide Handled, Reached;
    ReachedInside(inputs);
  }

  /**
   `serve_connection`: the snapshot first, then every event and every response in
   the order they come, until the peer, the reader or the broadcast ends it; each
   request text is handed to a task of its own.
   */
  method ServeConnection(snapshot: Snapshot, inputs: seq<Input>)
    returns (written: seq<Frame>, tasks: seq<string>, end: Option<Result<(), string>>)
    ensures written == [Text(EventMessage(SnapshotTaken(snapshot)))] + FramesOf(Handled(inputs))
    ensures tasks == RequestsIn(Handled(inputs))
    ensures Served(inputs, written[1..], tasks) && EndsWith(inputs, end)
    ensures forall j: nat | Reached(inputs, j) && inputs[j].Answered? ::
              Text(ResponseMessage(inputs[j].reply)) in written
  {
    hide FramesOf, RequestsIn, Handled, Served, EndsWith, Reached;
    ghost var all := Handled(inputs);
    written, tasks, end := [Text(EventMessage(SnapshotTaken(snapshot)))], [], None;
    HandlesNothing();
    var i := 0;
    assert inputs[0..] == inputs;
    while i < |inputs| && end.None?
      invariant i <= |inputs|
      invariant end.None? ==>
                  && [Text(EventMessage(SnapshotTaken(snapshot)))] + FramesOf(all)
                     == written + FramesOf(Handled(inputs[i..]))
                  && RequestsIn(all) == tasks + RequestsIn(Handled(inputs[i..]))
                  && |all| == i + |Handled(inputs[i..])|
      invariant end.Some? ==>
                  && written == [Text(EventMessage(SnapshotTaken(snapshot)))] + FramesOf(all)
                  && tasks == RequestsIn(all)
                  && |all| < |inputs| && end == Some(EndOf(inputs[|all|]))
      decreases |inputs| - i, if end.None? then 1 else 0
    {
      var input := inputs[i];
      HandlesOne(inputs[i..]);
      assert inputs[i..][1..] == inputs[i + 1..];
      match input {
        case Received(text) => tasks := tasks + [text];
        case OtherReceived =>
        case Answered(reply) => written := written + [Text(ResponseMessage(reply))];
        case Published(event) => written := written + [Text(EventMessage(event))];
        case Lagged => end := Some(Failure("target event revision gap"));
        case PublisherGone => end := Some(Success(()));
        case PeerClosed => end := Some(Success(()));
        case ReaderFailed(message) => end := Some(Failure(message));
      }
      if end.None? {
        i := i + 1;
      }
    }
    assert inputs[|inputs|..] == [];
    ConnectionIsServed(snapshot, inputs, written, tasks, end);
  }

  lemma ConnectionIsServed(
      snapshot: Snapshot, inputs: seq<Input>, written: seq<Frame>, tasks: seq<string>, end: Option<Result<(), string>>)
    requires written == [Text(EventMessage(SnapshotTaken(snapshot)))] + FramesOf(Handled(inputs))
    requires tasks == RequestsIn(Handled(inputs))
    requires end == if |Handled(inputs)| == |inputs| then None else Some(EndOf(inputs[|Handled(inputs)|]))
    ensures Served(inputs, written[1..], tasks) && EndsWith(inputs, end)
    ensures forall j: nat | Reached(inputs, j) && inputs[j].Answered? ::
              Text(ResponseMessage(inputs[j].reply)) in written
  {
    hide *;
    assert written[1..] == FramesOf(Handled(inputs));
    EveryInputIsServed(inputs);
    EndIsTheFirst(inputs);
    AnswersAreWritten(inputs, written[1..], tasks);
  }

  lemma AnswersAreWritten(inputs: seq<Input>, frames: seq<Frame>, tasks: seq<string>)
    requires Served(inputs, frames, tasks)
    ensures forall j: nat | Reached(inputs, j) && inputs[j].Answered? ::
              Text(ResponseMessage(inputs[j].reply)) in frames
  {
  }

  function AnsweredIn(inputs: seq<Input>): seq<Reply> {
    if inputs == [] then []
    else (if inputs[0].Answered? then [inputs[0].reply] else []) + AnsweredIn(inputs[1..])
  }

  /** The responses among the frames. */
  function ResponsesOf(frames: seq<Frame>): seq<Reply> {
    if frames == [] then []
    else
      var first := if frames[0].Text? && frames[0].message.ResponseMessage? then [frames[0].message.reply] else [];
      first + ResponsesOf(frames[1..])
  }

  /** What is written is healthy, its events are the published ones in order, and its responses the answers in order. */
  lemma {:induction false} FramesCarryEvents(inputs: seq<Input>)
    ensures forall f | f in FramesOf(inputs) :: Healthy(f)
    ensures EventsOf(FramesOf(inputs)) == PublishedIn(inputs)
    ensures ResponsesOf(FramesOf(inputs)) == AnsweredIn(inputs)
  {
    if inputs != [] {
      FramesCarryEvents(inputs[1..]);
      var frames, rest := FramesOf(inputs), FramesOf(inputs[1..]);
      if inputs[0].Answered? || inputs[0].Published? {
        assert frames[1..] == rest;
      } else {
        assert frames == rest;
      }
    }
  }

  /** The connection was opened at `a`, and the loop got to everything published between `a` and `b`. */
  ghost predicate Serves(inputs: seq<Input>, a: Machine.Daemon, b: Machine.Daemon) {
    |a.log| <= |b.log| && PublishedIn(Handled(inputs)) == Broadcast(b.log[|a.log|..])
  }

  /** Everything a connection opened at `a` writes. */
  function WrittenFrom(a: Machine.Daemon, inputs: seq<Input>): seq<Frame> {
    [Text(EventMessage(SnapshotTaken(Machine.SnapshotOf(a))))] + FramesOf(Handled(inputs))
  }

  /** The first frame gives a fresh client the snapshot, and the others carry what was published since. */
  lemma FirstFrame(v: View, inputs: seq<Input>, a: Machine.Daemon, b: Machine.Daemon) returns (next: View)
    requires Serves(inputs, a, b)
    ensures Reads(next, FramesOf(Handled(inputs)), a, b)
    ensures Consume(v, WrittenFrom(a, inputs)) == Consume(next, FramesOf(Handled(inputs)))
  {
    hide FramesOf, Handled, PublishedIn, EventsOf, Healthy, Broadcast, Machine.SnapshotFrom;
    var first := SnapshotTaken(Machine.SnapshotOf(a));
    var frames, rest := WrittenFrom(a, inputs), FramesOf(Handled(inputs));
    assert frames[0] == Text(EventMessage(first)) && frames[1..] == rest;
    FramesCarryEvents(Handled(inputs));
    next := v.(snapshot := Some(Machine.SnapshotOf(a)), events := v.events + [first]);
    SnapshotVersion(a);
    assert Handle(v, frames[0]) == Success(next);
  }

  lemma SnapshotVersion(a: Machine.Daemon)
    ensures Machine.SnapshotOf(a).protocolVersion == PROTOCOL_VERSION
  {
  }

  /**
   From the daemon to the caller: a server connection opened after step `i` of a
   prompt run and served everything published until step `k`, with requests and
   responses anywhere in between, leaves a fresh client connection at the other
   end without error and holding the daemon's snapshot at `k`.
   */
  lemma ServedClientHoldsTheDaemon(
      config: DaemonConfig, dirs: set<string>, pid: string, run: seq<Machine.Label>, i: nat, k: nat,
      v: View, inputs: seq<Input>)
    requires WellFormed(config) && i <= k <= |run| && forall l | l in run :: Replica.Prompt(l)
    ensures var a := Machine.Exec(Machine.Startup(config, dirs, pid), run[..i]);
            var b := Machine.Exec(Machine.Startup(config, dirs, pid), run[..k]);
            Serves(inputs, a, b) ==>
              && Consume(v, WrittenFrom(a, inputs)).1.None?
              && Consume(v, WrittenFrom(a, inputs)).0.snapshot == Some(Machine.SnapshotOf(b))
  {
    hide *;
    var a := Machine.Exec(Machine.Startup(config, dirs, pid), run[..i]);
    var b := Machine.Exec(Machine.Startup(config, dirs, pid), run[..k]);
    if Serves(inputs, a, b) {
      var next := FirstFrame(v, inputs, a, b);
      ConnectionHoldsTheDaemon(config, dirs, pid, run, i, k, next, FramesOf(Handled(inputs)));
    }
  }
}
