/**
 What a client does with an event (crates/mpv-targets/src/client.rs): the
 reference the client class is proved against, and the replay of a whole
 stretch of the broadcast.
 */
module Receiver {
  import opened Wrappers
  import opened Json
  import opened Protocol
  import opened Fields
  import opened Delta
  import opened HealthReport
  import opened Machine
  import Names

  datatype ClientError =
    | UnsupportedVersion
    | ChangeBeforeSnapshot
    | UnknownTarget(target: string)
    | RevisionGap(expected: nat, received: nat)
    | NotAnObject
    | RejectedField
    | Remote(error: ServerError)
    | Disconnected
    | Unreadable
    | Transport
    | InvalidRequest
    | Timeout

  /** The position of the first record with this name, or the length of the list. */
  function Find(targets: seq<TargetRecord>, name: string): (i: nat)
    ensures i <= |targets|
    ensures i < |targets| ==> targets[i].name == name
    ensures forall j | 0 <= j < i :: targets[j].name != name
  {
    var names := seq(|targets|, i requires 0 <= i < |targets| => targets[i].name);
    assert forall j | 0 <= j < |targets| :: names[j] == targets[j].name;
    Names.Position(names, name)
  }

  /** `apply_target_change`. */
  ghost function ApplyTargetChange(
      s: Snapshot, target: string, revision: nat, changed: Json): Result<Snapshot, ClientError>
  {
    var i := Find(s.targets, target);
    if i == |s.targets| then Failure(UnknownTarget(target))
    else if revision != s.targets[i].revision + 1 then Failure(RevisionGap(s.targets[i].revision + 1, revision))
    else if !changed.Obj? then Failure(NotAnObject)
    else
      var changes := FromObject(changed.fields);
      var r := if changes.None? then None else ApplyChanges(s.targets[i], changes.value);
      if r.None? then Failure(RejectedField)
      else
        var targets := s.targets[i := r.value.(revision := revision)];
        Success(s.(targets := targets, health := HealthOf(targets)))
  }

  /** The event half of `handle_message`. */
  ghost function HandleEvent(current: Option<Snapshot>, event: Event): Result<Snapshot, ClientError> {
    match event
    case SnapshotTaken(s) => if s.protocolVersion != PROTOCOL_VERSION then Failure(UnsupportedVersion) else Success(s)
    case TargetChanged(target, revision, changed) =>
      if current.None? then Failure(ChangeBeforeSnapshot)
      else ApplyTargetChange(current.value, target, revision, changed)
  }

  /** The first record with this name stands at `i`. */
  ghost predicate Listed(targets: seq<TargetRecord>, name: string, i: nat) {
    i < |targets| && targets[i].name == name && forall j | 0 <= j < i :: targets[j].name != name
  }

  /** Every key of the object is known and has a value that decodes. */
  ghost predicate Readable(fields: map<string, Json>) {
    forall key | key in fields :: FieldOf(key).Some? && Accepts(FieldOf(key).value, fields[key])
  }

  lemma ReadableExactly(r: TargetRecord, fields: map<string, Json>)
    ensures Readable(fields) <==> FromObject(fields).Some? && ApplyChanges(r, FromObject(fields).value).Some?
    ensures Readable(fields) ==>
              var q := ApplyChanges(r, KnownChanges(fields)).value;
              Becomes(r, KnownChanges(fields), q) && q.revision == r.revision
  {
    hide FieldName, FieldOf, Accepts, SlotMoves, Restrict;
    FieldNamesAgree();
    if FromObject(fields).Some? {
      var changes := KnownChanges(fields);
      var order := EnumerationExists(changes.Keys);
      OrderIrrelevant(r, changes, order);
      FoldMeaning(r, changes, order);
      RestrictToAll(changes, order);
      KnownValues(fields);
    }
  }

  lemma RestrictToAll(changes: Changes, order: seq<Field>)
    requires Enumerates(order, changes.Keys)
    ensures Restrict(changes, order) == changes
  {
  }

  lemma KnownValues(fields: map<string, Json>)
    requires forall key | key in fields :: FieldOf(key).Some?
    ensures Readable(fields) <==> forall f | f in KnownChanges(fields) :: Accepts(f, KnownChanges(fields)[f])
  {
    hide FieldName, FieldOf, Accepts;
    FieldNamesAgree();
    var changes := KnownChanges(fields);
    forall f | f in changes ensures FieldOf(FieldName(f)) == Some(f) && FieldName(f) in fields { }
    if forall f | f in changes :: Accepts(f, changes[f]) {
      forall key | key in fields ensures Accepts(FieldOf(key).value, fields[key]) {
        assert FieldOf(key).value in changes;
      }
    }
  }

  lemma FieldNamesAgree()
    ensures forall key :: FieldOf(key).Some? ==> FieldName(FieldOf(key).value) == key
    ensures forall f :: FieldOf(FieldName(f)) == Some(f)
  {
    forall key ensures FieldOf(key).Some? ==> FieldName(FieldOf(key).value) == key { FieldNameOfFieldOf(key); }
    forall f ensures FieldOf(FieldName(f)) == Some(f) { FieldOfFieldName(f); }
  }

  /**
   What a change does, error by error and in the order the errors are noticed: the
   target must be listed, the revision must be its next one, the change must be an
   object, and every field in it must be known and decode.  Then that one record
   takes the decoded values and the revision, and the summary is taken afresh.
   */
  lemma ChangeVerdict(s: Snapshot, target: string, revision: nat, changed: Json, i: nat)
    ensures ApplyTargetChange(s, target, revision, changed) == Failure(UnknownTarget(target))
            <==> forall j | 0 <= j < |s.targets| :: s.targets[j].name != target
    ensures Listed(s.targets, target, i) ==>
              var r, before := ApplyTargetChange(s, target, revision, changed), s.targets[i];
              if revision != before.revision + 1 then r == Failure(RevisionGap(before.revision + 1, revision))
              else if !changed.Obj? then r == Failure(NotAnObject)
              else if !Readable(changed.fields) then r == Failure(RejectedField)
              else
                && r.Success? && |r.value.targets| == |s.targets|
                && var after := r.value.targets[i];
                   && r.value == s.(targets := s.targets[i := after], health := HealthOf(r.value.targets))
                   && after.revision == revision
                   && Becomes(before, KnownChanges(changed.fields), after.(revision := before.revision))
  {
    hide Becomes, Readable, FromObject, ApplyChanges;
    if Listed(s.targets, target, i) && changed.Obj? {
      ReadableExactly(s.targets[i], changed.fields);
      FromObjectKnown(changed.fields);
    }
  }

  lemma FromObjectKnown(fields: map<string, Json>)
    ensures FromObject(fields).Some? ==> FromObject(fields).value == KnownChanges(fields)
  {
  }

  /** A snapshot is taken over exactly if it speaks version 1; a change needs a snapshot to change. */
  lemma SnapshotVerdict(current: Option<Snapshot>, s: Snapshot, event: Event)
    ensures HandleEvent(current, SnapshotTaken(s)).Success? <==> s.protocolVersion == 1
    ensures HandleEvent(current, SnapshotTaken(s)) == Success(s)
            || HandleEvent(current, SnapshotTaken(s)) == Failure(UnsupportedVersion)
    ensures event.TargetChanged? ==>
              && HandleEvent(None, event) == Failure(ChangeBeforeSnapshot)
              && (current.Some? ==>
                    HandleEvent(current, event)
                    == ApplyTargetChange(current.value, event.target, event.revision, event.changed))
  {
  }

  /** A client is following the broadcast, or has stopped with the error that ended its connection. */
  datatype Follower = Following(snapshot: Snapshot) | Ended(error: ClientError)

  ghost function Receive(c: Follower, sent: Sent): Follower {
    if c.Ended? then c
    else
      match HandleEvent(Some(c.snapshot), sent.event)
      case Success(s) => Following(s)
      case Failure(error) => Ended(error)
  }

  ghost function Replay(c: Follower, events: seq<Sent>): Follower {
    if events == [] then c else Receive(Replay(c, events[..|events| - 1]), events[|events| - 1])
  }
}
