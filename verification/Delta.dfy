/**
 The client's side of a target change: which record a set of changed fields
 turns another record into, and the loop that applies the fields one by one.
 */
module Delta {
  import opened Wrappers
  import opened Json
  import opened Protocol
  import opened Fields

  predicate TopLevel(f: Field) { f.Disabled? || f.Stopped? || f.Online? || f.Channel? }

  /** The client's match arms for the observed state. */
  function SetState(st: TargetState, f: Field, v: Json): Option<TargetState>
    requires !TopLevel(f)
  {
    match f
    case Paused =>
      var d := OptionalBool(v);
      if d.None? then None else Some(st.(paused := d.value))
    case Muted =>
      var d := OptionalBool(v);
      if d.None? then None else Some(st.(muted := d.value))
    case Volume =>
      var d := OptionalNumber(v);
      if d.None? then None else Some(st.(volume := d.value))
    case Title =>
      var d := OptionalString(v);
      if d.None? then None else Some(st.(title := d.value))
    case PlaylistPosition =>
      var d := OptionalU32(v);
      if d.None? then None else Some(st.(playlistPosition := d.value))
    case PlaylistCount =>
      var d := OptionalU32(v);
      if d.None? then None else Some(st.(playlistCount := d.value))
    case IdleActive =>
      var d := OptionalBool(v);
      if d.None? then None else Some(st.(idleActive := d.value))
    case Duration =>
      var d := OptionalNumber(v);
      if d.None? then None else Some(st.(duration := d.value))
    case Position =>
      var d := OptionalNumber(v);
      if d.None? then None else Some(st.(position := d.value))
    case LoopFile =>
      var d := OptionalString(v);
      if d.None? then None else Some(st.(loopFile := d.value))
    case LoopPlaylist =>
      var d := OptionalString(v);
      if d.None? then None else Some(st.(loopPlaylist := d.value))
    case AudioTrack =>
      var d := OptionalTrack(v);
      if d.None? then None else Some(st.(audioTrack := d.value))
    case SubtitleTrack =>
      var d := OptionalTrack(v);
      if d.None? then None else Some(st.(subtitleTrack := d.value))
    case SubtitlesVisible =>
      var d := OptionalBool(v);
      if d.None? then None else Some(st.(subtitlesVisible := d.value))
    case LastEndReason =>
      var d := OptionalEndReason(v);
      if d.None? then None else Some(st.(lastEndReason := d.value))
    case LastEndError =>
      var d := OptionalString(v);
      if d.None? then None else Some(st.(lastEndError := d.value))
  }

  /** The client's match arm for one field: the record with that field decoded, or nothing. */
  function SetField(r: TargetRecord, f: Field, v: Json): Option<TargetRecord> {
    match f
    case Disabled =>
      var d := RequiredBool(v);
      if d.None? then None else Some(r.(disabled := d.value))
    case Stopped =>
      var d := RequiredBool(v);
      if d.None? then None else Some(r.(stopped := d.value))
    case Online =>
      var d := RequiredBool(v);
      if d.None? then None else Some(r.(online := d.value))
    case Channel =>
      var d := OptionalString(v);
      if d.None? then None else Some(r.(channel := d.value))
    case _ => var st := SetState(r.state, f, v); if st.None? then None else Some(r.(state := st.value))
  }

  /** The value decodes for its field, whatever the record. */
  predicate Accepts(f: Field, v: Json) {
    match f
    case Disabled | Stopped | Online => RequiredBool(v).Some?
    case Paused | Muted | IdleActive | SubtitlesVisible => OptionalBool(v).Some?
    case Volume | Duration | Position => OptionalNumber(v).Some?
    case Channel | Title | LoopFile | LoopPlaylist | LastEndError => OptionalString(v).Some?
    case PlaylistPosition | PlaylistCount => OptionalU32(v).Some?
    case AudioTrack | SubtitleTrack => OptionalTrack(v).Some?
    case LastEndReason => OptionalEndReason(v).Some?
  }

  /**
   The order-free meaning of a change: every mentioned field takes its decoded
   value, every other field keeps its own, and one bad value spoils the whole.
   */
  ghost predicate Becomes(before: TargetRecord, changes: Changes, after: TargetRecord) {
    && (forall f | f in changes :: Accepts(f, changes[f]))
    && after.name == before.name
    && after.revision == before.revision
    && forall f :: SlotMoves(before, changes, after, f)
  }

  /** Field `f` of the new record is decoded from the change if it is mentioned, and kept otherwise. */
  ghost predicate SlotMoves(before: TargetRecord, changes: Changes, after: TargetRecord, f: Field) {
    if f in changes
    then SetField(before, f, changes[f]).Some? && SameSlot(f, after, SetField(before, f, changes[f]).value)
    else SameSlot(f, after, before)
  }

  predicate SameStateSlot(f: Field, a: TargetState, b: TargetState)
    requires !TopLevel(f)
  {
    match f
    case Paused => a.paused == b.paused
    case Muted => a.muted == b.muted
    case Volume => a.volume == b.volume
    case Title => a.title == b.title
    case PlaylistPosition => a.playlistPosition == b.playlistPosition
    case PlaylistCount => a.playlistCount == b.playlistCount
    case IdleActive => a.idleActive == b.idleActive
    case Duration => a.duration == b.duration
    case Position => a.position == b.position
    case LoopFile => a.loopFile == b.loopFile
    case LoopPlaylist => a.loopPlaylist == b.loopPlaylist
    case AudioTrack => a.audioTrack == b.audioTrack
    case SubtitleTrack => a.subtitleTrack == b.subtitleTrack
    case SubtitlesVisible => a.subtitlesVisible == b.subtitlesVisible
    case LastEndReason => a.lastEndReason == b.lastEndReason
    case LastEndError => a.lastEndError == b.lastEndError
  }

  predicate SameSlot(f: Field, a: TargetRecord, b: TargetRecord) {
    match f
    case Disabled => a.disabled == b.disabled
    case Stopped => a.stopped == b.stopped
    case Online => a.online == b.online
    case Channel => a.channel == b.channel
    case _ => SameStateSlot(f, a.state, b.state)
  }

  lemma SameSlotsSameRecord(a: TargetRecord, b: TargetRecord)
    requires a.name == b.name && a.revision == b.revision
    requires forall f :: SameSlot(f, a, b)
    ensures a == b
  {
    assert a.disabled == b.disabled by { assert SameSlot(Disabled, a, b); }
    assert a.stopped == b.stopped by { assert SameSlot(Stopped, a, b); }
    assert a.online == b.online by { assert SameSlot(Online, a, b); }
    assert a.channel == b.channel by { assert SameSlot(Channel, a, b); }
    SameSlotsSameState(a, b);
  }

  lemma SameSlotsSameState(a: TargetRecord, b: TargetRecord)
    requires forall f :: SameSlot(f, a, b)
    ensures a.state == b.state
  {
    forall f | !TopLevel(f) ensures SameStateSlot(f, a.state, b.state) {
      assert SameSlot(f, a, b);
    }
    SameFirstHalf(a.state, b.state);
    SameSecondHalf(a.state, b.state);
  }

  lemma SameFirstHalf(a: TargetState, b: TargetState)
    requires forall f | !TopLevel(f) :: SameStateSlot(f, a, b)
    ensures a.paused == b.paused && a.muted == b.muted && a.volume == b.volume && a.title == b.title
    ensures a.playlistPosition == b.playlistPosition && a.playlistCount == b.playlistCount
    ensures a.idleActive == b.idleActive && a.duration == b.duration
  {
    assert SameStateSlot(Paused, a, b) && SameStateSlot(Muted, a, b) && SameStateSlot(Volume, a, b);
    assert SameStateSlot(Title, a, b) && SameStateSlot(PlaylistPosition, a, b) && SameStateSlot(PlaylistCount, a, b);
    assert SameStateSlot(IdleActive, a, b) && SameStateSlot(Duration, a, b);
  }

  lemma SameSecondHalf(a: TargetState, b: TargetState)
    requires forall f | !TopLevel(f) :: SameStateSlot(f, a, b)
    ensures a.position == b.position && a.loopFile == b.loopFile && a.loopPlaylist == b.loopPlaylist
    ensures a.audioTrack == b.audioTrack && a.subtitleTrack == b.subtitleTrack
    ensures a.subtitlesVisible == b.subtitlesVisible
    ensures a.lastEndReason == b.lastEndReason && a.lastEndError == b.lastEndError
  {
    assert SameStateSlot(Position, a, b) && SameStateSlot(LoopFile, a, b) && SameStateSlot(LoopPlaylist, a, b);
    assert SameStateSlot(AudioTrack, a, b) && SameStateSlot(SubtitleTrack, a, b);
    assert SameStateSlot(SubtitlesVisible, a, b);
    assert SameStateSlot(LastEndReason, a, b) && SameStateSlot(LastEndError, a, b);
  }

  /** At most one record satisfies the order-free meaning. */
  lemma BecomesUnique(r: TargetRecord, changes: Changes, p: TargetRecord, q: TargetRecord)
    requires Becomes(r, changes, p) && Becomes(r, changes, q)
    ensures p == q
  {
    forall f ensures SameSlot(f, p, q) {
      assert SlotMoves(r, changes, p, f) && SlotMoves(r, changes, q, f);
    }
    SameSlotsSameRecord(p, q);
  }

  lemma SetFieldAccepts(q: TargetRecord, f: Field, v: Json)
    ensures SetField(q, f, v).Some? <==> Accepts(f, v)
  {
  }

  lemma SetFieldOwnSlot(r: TargetRecord, q: TargetRecord, f: Field, v: Json)
    requires SetField(q, f, v).Some? && SetField(r, f, v).Some?
    ensures SameSlot(f, SetField(q, f, v).value, SetField(r, f, v).value)
  {
  }

  lemma SetStateOtherSlots(st: TargetState, f: Field, v: Json, g: Field)
    requires !TopLevel(f) && !TopLevel(g) && g != f
    requires SetState(st, f, v).Some?
    ensures SameStateSlot(g, SetState(st, f, v).value, st)
  {
    match f
    case Paused =>
    case Muted =>
    case Volume =>
    case Title =>
    case PlaylistPosition =>
    case PlaylistCount =>
    case IdleActive =>
    case Duration =>
    case Position =>
    case LoopFile =>
    case LoopPlaylist =>
    case AudioTrack =>
    case SubtitleTrack =>
    case SubtitlesVisible =>
    case LastEndReason =>
    case LastEndError =>
  }

  lemma SetFieldOtherSlots(q: TargetRecord, f: Field, v: Json, g: Field)
    requires SetField(q, f, v).Some? && g != f
    ensures SameSlot(g, SetField(q, f, v).value, q)
  {
    if !TopLevel(f) && !TopLevel(g) {
      SetStateOtherSlots(q.state, f, v, g);
    }
  }

  lemma SetFieldIdentity(q: TargetRecord, f: Field, v: Json)
    requires SetField(q, f, v).Some?
    ensures SetField(q, f, v).value.name == q.name && SetField(q, f, v).value.revision == q.revision
  {
  }

  /** One arm writes its own slot from the value alone and no other slot. */
  lemma SetFieldFrame(r: TargetRecord, q: TargetRecord, f: Field, v: Json, g: Field)
    ensures SetField(q, f, v).Some? <==> Accepts(f, v)
    ensures SetField(q, f, v).Some? ==>
              var w := SetField(q, f, v).value;
              && w.name == q.name && w.revision == q.revision
              && (g != f ==> SameSlot(g, w, q))
              && (g == f ==> SetField(r, f, v).Some? && SameSlot(f, w, SetField(r, f, v).value))
  {
    SetFieldAccepts(q, f, v);
    SetFieldAccepts(r, f, v);
    if SetField(q, f, v).Some? {
      SetFieldIdentity(q, f, v);
      if g == f { SetFieldOwnSlot(r, q, f, v); } else { SetFieldOtherSlots(q, f, v, g); }
    }
  }

  /** A decoded field that changes the state changes its own slot and no other. */
  lemma OneSlotMoves(r: TargetRecord, f: Field, v: Json, st: TargetState, g: Field)
    requires SetField(r, f, v) == Some(r.(state := st)) && st != r.state
    ensures g == f <==> !SameSlot(g, r, r.(state := st))
  {
    hide SetField, SameSlot;
    var q := r.(state := st);
    forall g | g != f ensures SameSlot(g, r, q) {
      SetFieldFrame(r, r, f, v, g);
      SameSlotBothWays(g, q, r);
    }
    if SameSlot(f, r, q) { SameSlotsSameState(r, q); }
  }

  lemma SameSlotBothWays(f: Field, a: TargetRecord, b: TargetRecord)
    ensures SameSlot(f, a, b) <==> SameSlot(f, b, a)
  {
  }

  // ---- The loop over the fields ----

  /** The fields in `order` applied one after the other, the first failure ending the loop. */
  function Fold(r: TargetRecord, changes: Changes, order: seq<Field>): Option<TargetRecord>
    requires forall f | f in order :: f in changes
  {
    if order == [] then Some(r)
    else
      var f := order[|order| - 1];
      var q := Fold(r, changes, order[..|order| - 1]);
      if q.None? then None else SetField(q.value, f, changes[f])
  }

  predicate Enumerates(order: seq<Field>, fields: set<Field>) {
    && (forall f :: f in order <==> f in fields)
    && (forall i, j | 0 <= i < j < |order| :: order[i] != order[j])
  }

  function Restrict(changes: Changes, order: seq<Field>): Changes {
    map f | f in changes && f in order :: changes[f]
  }

  /** Without repetitions, the loop computes the order-free meaning of the fields it visited. */
  lemma {:induction false} FoldMeaning(r: TargetRecord, changes: Changes, order: seq<Field>)
    requires forall f | f in order :: f in changes
    requires forall i, j | 0 <= i < j < |order| :: order[i] != order[j]
    ensures Fold(r, changes, order).Some? <==> (forall f | f in order :: Accepts(f, changes[f]))
    ensures Fold(r, changes, order).Some? ==> Becomes(r, Restrict(changes, order), Fold(r, changes, order).value)
  {
    if order != [] {
      var n := |order| - 1;
      var f, front := order[n], order[..n];
      FoldMeaning(r, changes, front);
      assert order == front + [f] && f !in front;
      var q := Fold(r, changes, front);
      if q.Some? {
        SetFieldFrame(r, q.value, f, changes[f], f);
        var w := SetField(q.value, f, changes[f]);
        if w.Some? {
          forall g ensures SlotMoves(r, Restrict(changes, order), w.value, g) {
            SetFieldFrame(r, q.value, f, changes[f], g);
            assert SlotMoves(r, Restrict(changes, front), q.value, g);
            if g == f {
              assert SetField(r, f, changes[f]).Some?;
            } else if g in front {
              SetFieldFrame(r, r, g, changes[g], g);
            }
          }
        }
      }
    }
  }

  /** The record a change turns `r` into, or nothing if the client must reject the change. */
  ghost function ApplyChanges(r: TargetRecord, changes: Changes): Option<TargetRecord> {
    if exists q :: Becomes(r, changes, q) then
      var q :| Becomes(r, changes, q);
      Some(q)
    else None
  }

  lemma ApplyChangesMeaning(r: TargetRecord, changes: Changes, q: TargetRecord)
    requires Becomes(r, changes, q)
    ensures ApplyChanges(r, changes) == Some(q)
  {
    BecomesUnique(r, changes, q, ApplyChanges(r, changes).value);
  }

  /**
   Whatever order the fields are visited in, the loop accepts the same changes
   and yields the same record: the one the order-free meaning names.
   */
  lemma OrderIrrelevant(r: TargetRecord, changes: Changes, order: seq<Field>)
    requires Enumerates(order, changes.Keys)
    ensures Fold(r, changes, order) == ApplyChanges(r, changes)
  {
    FoldMeaning(r, changes, order);
    assert Restrict(changes, order) == changes;
    if Fold(r, changes, order).Some? {
      ApplyChangesMeaning(r, changes, Fold(r, changes, order).value);
    }
  }

  lemma {:induction false} EnumerationExists(fields: set<Field>) returns (order: seq<Field>)
    ensures Enumerates(order, fields)
    decreases fields
  {
    if fields == {} {
      order := [];
    } else {
      var f :| f in fields;
      var front := EnumerationExists(fields - {f});
      order := front + [f];
      assert forall g :: g in order <==> g in front || g == f;
    }
  }

  /** Whether a change is accepted depends on its values alone, not on the record it meets. */
  lemma AcceptanceIsOfValues(p: TargetRecord, q: TargetRecord, changes: Changes)
    ensures ApplyChanges(p, changes).Some? <==> ApplyChanges(q, changes).Some?
  {
    var order := EnumerationExists(changes.Keys);
    OrderIrrelevant(p, changes, order);
    OrderIrrelevant(q, changes, order);
    FoldMeaning(p, changes, order);
    FoldMeaning(q, changes, order);
  }
}
