/**
 One target inside the daemon, and what each critical section does to it
 (crates/mpv-targetsd/src/supervisor.rs).  A section runs with the state lock held,
 so it is one atomic edit of one target.
 */
module Runtime {
  import opened Wrappers
  import opened Json
  import opened Protocol
  import opened Fields
  import opened Delta
  import opened Observed
  import opened Config

  /**
   The daemon's state of one target.  `incarnation` is an auxiliary number that
   tells a re-added name from the target that had the name before; no modelled
   code reads it.
   */
  datatype RuntimeTarget = RuntimeTarget(
    config: TargetConfig,
    observed: TargetState,
    stopped: bool,
    online: bool,
    launching: bool,
    revision: nat,
    recovering: bool,
    incarnation: nat)

  function NewTarget(config: TargetConfig, stopped: bool, incarnation: nat): RuntimeTarget {
    RuntimeTarget(config, DEFAULT_STATE, stopped, false, false, 0, false, incarnation)
  }

  function RecordOf(name: string, t: RuntimeTarget): TargetRecord {
    TargetRecord(name, t.config.disabled, t.stopped, t.online, t.config.channel, t.observed, t.revision)
  }

  /** The critical sections that edit one existing target. */
  datatype Section =
    | Start                                              // start: clear `stopped`, claim the launch
    | Stop                                               // stop: set `stopped`
    | MarkOnline                                         // mark_online
    | MarkOffline                                        // mark_offline
    | TargetLost                                         // on_target_lost
    | ClearLaunching                                     // clear_launching
    | DisabledOff                                        // ensure_disabled_off, after the process is gone
    | BeginRecovery                                      // schedule_recovery: claim the loop
    | CheckRecovery                                      // schedule_recovery: after each sleep
    | ClearObserved                                      // clear_observed
    | Observe(field: Field, value: Json)                 // update_observed
    | MediaEnd(reason: MediaEndReason, error: Option<string>) // update_media_end
    | ClearMediaEnd                                      // clear_media_end

  /** These three send their event after they have released the state lock. */
  predicate SendsAfterUnlock(section: Section) {
    section.ClearObserved? || section.MediaEnd? || section.ClearMediaEnd?
  }

  /** What a section did: nothing, an edit no client sees, or an edit with the change it announces. */
  datatype Edit = Untouched | Silent(t: RuntimeTarget) | Announced(t: RuntimeTarget, changes: Changes)

  function Bump(t: RuntimeTarget): RuntimeTarget { t.(revision := t.revision + 1) }

  function StartEdit(t: RuntimeTarget): Edit {
    if t.config.disabled then Untouched
    else
      var claimed := t.(launching := t.launching || !t.online);
      if t.stopped then Announced(Bump(claimed).(stopped := false), map[Stopped := Bool(false)])
      else Silent(claimed)
  }

  function StopEdit(t: RuntimeTarget): Edit {
    if t.stopped then Untouched
    else Announced(Bump(t).(stopped := true), map[Stopped := Bool(true)])
  }

  function OnlineEdit(t: RuntimeTarget): Edit {
    if t.online then Untouched
    else Announced(Bump(t).(online := true, launching := false, recovering := false), map[Online := Bool(true)])
  }

  function OfflineEdit(t: RuntimeTarget): Edit {
    if !t.online then Untouched
    else Announced(Bump(t).(online := false, launching := false), map[Online := Bool(false)])
  }

  function DisabledOffEdit(t: RuntimeTarget): Edit {
    var off := t.(stopped := true, online := false, launching := false, recovering := false);
    if !t.stopped && t.online then Announced(Bump(off), map[Stopped := Bool(true), Online := Bool(false)])
    else if !t.stopped then Announced(Bump(off), map[Stopped := Bool(true)])
    else if t.online then Announced(Bump(off), map[Online := Bool(false)])
    else Silent(off)
  }

  function RecoveryEdit(t: RuntimeTarget, begin: bool): Edit {
    if t.config.disabled || t.stopped then (if begin then Untouched else Silent(t.(recovering := false)))
    else if begin && !t.recovering then Silent(t.(recovering := true))
    else Untouched
  }

  function ClearEdit(t: RuntimeTarget): Edit {
    if t.observed == DEFAULT_STATE then Untouched
    else Announced(Bump(t).(observed := DEFAULT_STATE), ClearChanges(t.observed))
  }

  function ObserveEdit(t: RuntimeTarget, field: Field, raw: Json): Edit {
    var value := Normalize(field, raw);
    var stored := if IsObserved(field) then ApplyObserved(t.observed, field, value) else None;
    if stored.None? then Untouched else Announced(Bump(t).(observed := stored.value), map[field := value])
  }

  /** The reason and the error of the last file that ended, set together or cleared together. */
  function MediaEndEdit(t: RuntimeTarget, reason: Option<MediaEndReason>, error: Option<string>): Edit {
    if t.observed.lastEndReason == reason && t.observed.lastEndError == error then Untouched
    else Announced(Bump(t).(observed := t.observed.(lastEndReason := reason, lastEndError := error)),
                   EndChanges(reason, error))
  }

  function EditOf(section: Section, t: RuntimeTarget): Edit {
    match section
    case Start => StartEdit(t)
    case Stop => StopEdit(t)
    case MarkOnline => OnlineEdit(t)
    case MarkOffline => OfflineEdit(t)
    case TargetLost => OfflineEdit(t)
    case ClearLaunching => Silent(t.(launching := false))
    case DisabledOff => DisabledOffEdit(t)
    case BeginRecovery => RecoveryEdit(t, true)
    case CheckRecovery => RecoveryEdit(t, false)
    case ClearObserved => ClearEdit(t)
    case Observe(field, raw) => ObserveEdit(t, field, raw)
    case MediaEnd(reason, error) => MediaEndEdit(t, Some(reason), error)
    case ClearMediaEnd => MediaEndEdit(t, None, None)
  }

  function TargetAfter(section: Section, t: RuntimeTarget): RuntimeTarget {
    var e := EditOf(section, t); if e.Untouched? then t else e.t
  }

  /** Everything a client sees of the target except its revision. */
  function Visible(name: string, t: RuntimeTarget): TargetRecord {
    RecordOf(name, t).(revision := 0)
  }

  /**
   Revision discipline: over every critical section the revision rises by exactly
   one when the visible record changes and stays put otherwise.
   */
  lemma RevisionDiscipline(name: string, section: Section, t: RuntimeTarget)
    ensures var u := TargetAfter(section, t);
            && u.revision == t.revision + (if Visible(name, u) != Visible(name, t) then 1 else 0)
            && (EditOf(section, t).Announced? <==> Visible(name, u) != Visible(name, t))
  {
    match section
    case Observe(field, raw) => assert EditOf(section, t) == ObserveEdit(t, field, raw);
    case _ =>
  }

  /** Every announced change turns the record a client had into the record it should have. */
  lemma AnnouncementIsExact(name: string, section: Section, t: RuntimeTarget)
    requires EditOf(section, t).Announced?
    ensures var e := EditOf(section, t);
            ApplyChanges(RecordOf(name, t), e.changes) == Some(RecordOf(name, e.t).(revision := t.revision))
  {
    var r := RecordOf(name, t);
    match section
    case Observe(_, _) => ObservationIsExact(name, section, t);
    case MediaEnd(_, _) => ObservationIsExact(name, section, t);
    case ClearMediaEnd => ObservationIsExact(name, section, t);
    case ClearObserved => ObservationIsExact(name, section, t);
    case DisabledOff => OffIsExact(name, t);
    case _ => FlagIsExact(name, section, t);
  }

  lemma FlagIsExact(name: string, section: Section, t: RuntimeTarget)
    requires section.Start? || section.Stop? || section.MarkOnline? || section.MarkOffline? || section.TargetLost?
    requires EditOf(section, t).Announced?
    ensures var e := EditOf(section, t);
            ApplyChanges(RecordOf(name, t), e.changes) == Some(RecordOf(name, e.t).(revision := t.revision))
  {
    var field := if section.Start? || section.Stop? then Stopped else Online;
    SingleChange(RecordOf(name, t), field, Bool(section.Stop? || section.MarkOnline?));
  }

  lemma ObservationIsExact(name: string, section: Section, t: RuntimeTarget)
    requires section.Observe? || section.MediaEnd? || section.ClearMediaEnd? || section.ClearObserved?
    requires EditOf(section, t).Announced?
    ensures var e := EditOf(section, t);
            ApplyChanges(RecordOf(name, t), e.changes) == Some(RecordOf(name, e.t).(revision := t.revision))
  {
    var r := RecordOf(name, t);
    match section
    case Observe(field, raw) => ObservedUpdateAgrees(r, field, raw);
    case MediaEnd(reason, error) => EndChangesAgree(r, Some(reason), error);
    case ClearMediaEnd => EndChangesAgree(r, None, None);
    case _ => ClearChangesAgree(r);
  }

  lemma OffIsExact(name: string, t: RuntimeTarget)
    requires EditOf(DisabledOff, t).Announced?
    ensures var e := EditOf(DisabledOff, t);
            ApplyChanges(RecordOf(name, t), e.changes) == Some(RecordOf(name, e.t).(revision := t.revision))
  {
    var r := RecordOf(name, t);
    if !t.stopped && t.online {
      TwoChanges(r, Stopped, Bool(true), Online, Bool(false));
    } else if t.online {
      SingleChange(r, Online, Bool(false));
    } else {
      SingleChange(r, Stopped, Bool(true));
    }
  }

  /** The target is to run: enabled and not stopped. */
  predicate IsWanted(t: RuntimeTarget) { !t.config.disabled && !t.stopped }

  /** What a section makes of the flags and of the observed state, flag by flag. */
  ghost predicate SectionMeans(section: Section, t: RuntimeTarget, u: RuntimeTarget) {
    && u.config == t.config && u.incarnation == t.incarnation
    && u.stopped == (match section
                     case Start => t.stopped && t.config.disabled
                     case Stop | DisabledOff => true
                     case _ => t.stopped)
    && u.online == (match section
                    case MarkOnline => true
                    case MarkOffline | TargetLost | DisabledOff => false
                    case _ => t.online)
    && u.launching == (match section
                       case Start => t.launching || (!t.config.disabled && !t.online)
                       case MarkOnline => t.launching && t.online
                       case MarkOffline | TargetLost => t.launching && !t.online
                       case ClearLaunching | DisabledOff => false
                       case _ => t.launching)
    && u.recovering == (match section
                        case MarkOnline => t.recovering && t.online
                        case BeginRecovery => t.recovering || IsWanted(t)
                        case CheckRecovery => t.recovering && IsWanted(t)
                        case DisabledOff => false
                        case _ => t.recovering)
    && (match section
        case ClearObserved => u.observed == DEFAULT_STATE
        case MediaEnd(reason, error) =>
          u.observed == t.observed.(lastEndReason := Some(reason), lastEndError := error)
        case ClearMediaEnd => u.observed == t.observed.(lastEndReason := None, lastEndError := None)
        case Observe(_, _) => true
        case _ => u.observed == t.observed)
  }

  /** Every section does to the flags and the observed state what it is for; a report of mpv has its own lemmas. */
  lemma SectionEffect(section: Section, t: RuntimeTarget)
    ensures SectionMeans(section, t, TargetAfter(section, t))
  {
  }

  // ---- Crashes ----

  /** mpv goes away, recovery is scheduled, wakes up, launches, and mpv answers again. */
  const CRASH: seq<Section> := [TargetLost, ClearObserved, BeginRecovery, CheckRecovery, Section.Start, MarkOnline]

  function AfterSections(t: RuntimeTarget, sections: seq<Section>): RuntimeTarget {
    if sections == [] then t
    else TargetAfter(sections[|sections| - 1], AfterSections(t, sections[..|sections| - 1]))
  }

  /** Up and running, with no recovery in progress. */
  predicate IsUp(t: RuntimeTarget) { IsWanted(t) && t.online && !t.launching && !t.recovering }

  lemma CrashStep(t: RuntimeTarget, section: Section, n: nat)
    requires n < |CRASH| && section == CRASH[n]
    ensures AfterSections(t, CRASH[..n + 1]) == TargetAfter(section, AfterSections(t, CRASH[..n]))
  {
    assert CRASH[..n + 1][..n] == CRASH[..n];
  }

  /**
   A target that is up and crashes is recovered, and is then up in just the same
   way: ready to be recovered from the next crash.
   */
  lemma CrashIsRecovered(t: RuntimeTarget)
    requires IsUp(t)
    ensures IsUp(AfterSections(t, CRASH)) && AfterSections(t, CRASH).config == t.config
    ensures !AfterSections(t, CRASH[..1]).online
    ensures EditOf(BeginRecovery, AfterSections(t, CRASH[..2])).Silent?
  {
    hide TargetAfter, EditOf, AfterSections;
    CrashSteps(t);
    var lost := TargetAfter(TargetLost, t);
    SectionEffect(TargetLost, t);
    var cleared := TargetAfter(ClearObserved, lost);
    SectionEffect(ClearObserved, lost);
    var claimed := TargetAfter(BeginRecovery, cleared);
    SectionEffect(BeginRecovery, cleared);
    var checked := TargetAfter(CheckRecovery, claimed);
    SectionEffect(CheckRecovery, claimed);
    var started := TargetAfter(Section.Start, checked);
    SectionEffect(Section.Start, checked);
    SectionEffect(MarkOnline, started);
    RecoveryIsClaimed(cleared);
  }

  lemma RecoveryIsClaimed(t: RuntimeTarget)
    requires IsWanted(t) && !t.recovering
    ensures EditOf(BeginRecovery, t).Silent?
  {
  }

  lemma CrashSteps(t: RuntimeTarget)
    ensures AfterSections(t, CRASH[..1]) == TargetAfter(TargetLost, t)
    ensures AfterSections(t, CRASH[..2]) == TargetAfter(ClearObserved, TargetAfter(TargetLost, t))
    ensures AfterSections(t, CRASH)
            == TargetAfter(MarkOnline, TargetAfter(Section.Start, TargetAfter(CheckRecovery, TargetAfter(BeginRecovery,
                 AfterSections(t, CRASH[..2])))))
  {
    hide TargetAfter;
    assert CRASH[..0] == [] && CRASH[..6] == CRASH;
    assert AfterSections(t, CRASH[..0]) == t;
    CrashStep(t, TargetLost, 0);
    CrashStep(t, ClearObserved, 1);
    CrashStep(t, BeginRecovery, 2);
    CrashStep(t, CheckRecovery, 3);
    CrashStep(t, Section.Start, 4);
    CrashStep(t, MarkOnline, 5);
  }

  /** Any number of crashes in a row. */
  function AfterCrashes(t: RuntimeTarget, n: nat): RuntimeTarget {
    if n == 0 then t else AfterSections(AfterCrashes(t, n - 1), CRASH)
  }

  lemma {:induction false} EveryCrashIsRecovered(t: RuntimeTarget, n: nat)
    requires IsUp(t)
    ensures IsUp(AfterCrashes(t, n)) && AfterCrashes(t, n).config == t.config
  {
    if n > 0 {
      EveryCrashIsRecovered(t, n - 1);
      CrashIsRecovered(AfterCrashes(t, n - 1));
    }
  }

  // ---- Which fields are announced ----

  /** The announced fields of a section that changes flags or clears slots are exactly the changed ones. */
  lemma AnnouncesTheChanges(name: string, section: Section, t: RuntimeTarget, f: Field)
    requires EditOf(section, t).Announced?
    requires !section.MediaEnd? && !section.ClearMediaEnd?
    ensures var e := EditOf(section, t);
            f in e.changes <==> !SameSlot(f, RecordOf(name, t), RecordOf(name, e.t))
  {
    match section
    case Observe(field, raw) => AnnouncesTheField(name, field, raw, t, f);
    case ClearObserved => if !TopLevel(f) { FilledExactly(t.observed, f); }
    case _ => FlagsAreAnnounced(name, section, t, f);
  }

  lemma FlagsAreAnnounced(name: string, section: Section, t: RuntimeTarget, f: Field)
    requires EditOf(section, t).Announced?
    requires section.Start? || section.Stop? || section.MarkOnline? || section.MarkOffline? || section.TargetLost?
             || section.DisabledOff?
    ensures var e := EditOf(section, t);
            f in e.changes <==> !SameSlot(f, RecordOf(name, t), RecordOf(name, e.t))
  {
  }

  lemma AnnouncesTheField(name: string, field: Field, raw: Json, t: RuntimeTarget, f: Field)
    requires ObserveEdit(t, field, raw).Announced?
    ensures var e := ObserveEdit(t, field, raw);
            f in e.changes <==> !SameSlot(f, RecordOf(name, t), RecordOf(name, e.t))
  {
    hide Normalize, ApplyObserved, IsObserved, SetField, SameSlot;
    var value := Normalize(field, raw);
    var e, r := ObserveEdit(t, field, raw), RecordOf(name, t);
    ObservedUpdateAgrees(r, field, raw);
    SingleChange(r, field, value);
    StoredIsNew(t.observed, field, value);
    OneSlotMoves(r, field, value, e.t.observed, f);
    RevisionHasNoSlot(f, r, RecordOf(name, e.t));
  }

  lemma StoredIsNew(st: TargetState, field: Field, value: Json)
    ensures ApplyObserved(st, field, value).Some? ==> ApplyObserved(st, field, value).value != st
  {
  }

  lemma RevisionHasNoSlot(f: Field, r: TargetRecord, q: TargetRecord)
    ensures SameSlot(f, r, q) <==> SameSlot(f, r, q.(revision := r.revision))
  {
  }

  /** No critical section touches a target's configuration or identity, and none breaks the launch flags. */
  lemma SectionFrame(section: Section, t: RuntimeTarget)
    ensures var u := TargetAfter(section, t);
            && u.config == t.config
            && u.incarnation == t.incarnation
            && (!(t.online && t.launching) ==> !(u.online && u.launching))
  {
  }
}
