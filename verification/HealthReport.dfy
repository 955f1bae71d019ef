/**
 The health summary of a target list.  The daemon computes it when it takes a
 snapshot and the client recomputes it after every change; both count with
 `usize` and cast to `u32`, so the counts wrap at 2^32.
 */
module HealthReport {
  import opened Protocol

  predicate Expected(t: TargetRecord) { !t.disabled && !t.stopped }

  function Count(targets: seq<TargetRecord>, online: bool): (n: nat)
    ensures n <= |targets|
  {
    if targets == [] then 0
    else
      var t := targets[|targets| - 1];
      Count(targets[..|targets| - 1], online) + if Expected(t) && (online ==> t.online) then 1 else 0
  }

  function AsU32(n: nat): nat { n % 0x1_0000_0000 }

  function StateOf(expected: nat, online: nat): HealthState {
    if expected == 0 then Idle else if expected == online then Ready else Degraded
  }

  function HealthOf(targets: seq<TargetRecord>): Health {
    var expected, online := AsU32(Count(targets, false)), AsU32(Count(targets, true));
    Health(StateOf(expected, online), AsU32(|targets|), expected, online)
  }

  /** The places of the targets that should be online, and of those that are as well. */
  function Wanted(targets: seq<TargetRecord>): set<nat> {
    set i: nat | i < |targets| && !targets[i].disabled && !targets[i].stopped
  }

  function Serving(targets: seq<TargetRecord>): set<nat> {
    set i: nat | i < |targets| && !targets[i].disabled && !targets[i].stopped && targets[i].online
  }

  lemma OnePlaceMore(front: seq<TargetRecord>, last: TargetRecord)
    ensures |Wanted(front + [last])| == |Wanted(front)| + if !last.disabled && !last.stopped then 1 else 0
    ensures |Serving(front + [last])|
            == |Serving(front)| + if !last.disabled && !last.stopped && last.online then 1 else 0
  {
    var all, n := front + [last], |front|;
    assert Wanted(all) == if !last.disabled && !last.stopped then Wanted(front) + {n} else Wanted(front);
    assert Serving(all)
        == if !last.disabled && !last.stopped && last.online then Serving(front) + {n} else Serving(front);
  }

  /** The counts are the numbers of such places. */
  lemma {:induction false} CountsPlaces(targets: seq<TargetRecord>)
    ensures Count(targets, false) == |Wanted(targets)| && Count(targets, true) == |Serving(targets)|
  {
    if targets != [] {
      var front, last := targets[..|targets| - 1], targets[|targets| - 1];
      CountsPlaces(front);
      assert targets == front + [last];
      OnePlaceMore(front, last);
    }
  }

  /**
   Below 2^32 targets the summary counts them, those that should be online, and
   those of them that are; its state compares the last two.
   */
  ghost predicate Reports(health: Health, targets: seq<TargetRecord>) {
    && health.configured == |targets|
    && health.expected == |Wanted(targets)|
    && health.online == |Serving(targets)|
    && (health.state.Idle? <==> Wanted(targets) == {})
    && (health.state.Ready? <==> Wanted(targets) != {} && Serving(targets) == Wanted(targets))
    && (health.state.Degraded? <==> Serving(targets) < Wanted(targets))
  }

  lemma SummaryCounts(targets: seq<TargetRecord>)
    requires |targets| < 0x1_0000_0000
    ensures Reports(HealthOf(targets), targets)
  {
    hide Count;
    CountsPlaces(targets);
    var wanted, serving := Wanted(targets), Serving(targets);
    assert |wanted| == |serving| + |wanted - serving|;
    if |wanted - serving| == 0 { assert wanted - serving == {}; }
    if |wanted| == 0 { assert wanted == {}; }
  }

  /** `refresh_health`: the client's own pass over its list. */
  method RefreshHealth(snapshot: Snapshot) returns (refreshed: Snapshot)
    ensures refreshed == snapshot.(health := HealthOf(snapshot.targets))
    ensures |snapshot.targets| < 0x1_0000_0000 ==> Reports(refreshed.health, snapshot.targets)
  {
    hide Reports;
    var expected, online := 0, 0;
    for i := 0 to |snapshot.targets|
      invariant expected == Count(snapshot.targets[..i], false)
      invariant online == Count(snapshot.targets[..i], true)
    {
      var target := snapshot.targets[i];
      assert snapshot.targets[..i + 1][..i] == snapshot.targets[..i];
      if !target.disabled && !target.stopped {
        expected := expected + 1;
        if target.online {
          online := online + 1;
        }
      }
    }
    assert snapshot.targets[..|snapshot.targets|] == snapshot.targets;
    var expected32, online32 := AsU32(expected), AsU32(online);
    var state := if expected32 == 0 then Idle else if expected32 == online32 then Ready else Degraded;
    refreshed := snapshot.(health := Health(state, AsU32(|snapshot.targets|), expected32, online32));
    if |snapshot.targets| < 0x1_0000_0000 { SummaryCounts(snapshot.targets); }
  }

  lemma {:induction false} CountBounds(targets: seq<TargetRecord>)
    ensures Count(targets, true) <= Count(targets, false)
    ensures Count(targets, false) == 0 <==> forall t | t in targets :: !Expected(t)
    ensures Count(targets, true) == Count(targets, false) <==> forall t | t in targets && Expected(t) :: t.online
  {
    if targets != [] {
      var front, last := targets[..|targets| - 1], targets[|targets| - 1];
      CountBounds(front);
      assert targets == front + [last];
    }
  }

  /** What the summary should say. */
  ghost predicate NothingExpected(targets: seq<TargetRecord>) { forall t | t in targets :: !Expected(t) }

  ghost predicate AllExpectedOnline(targets: seq<TargetRecord>) {
    (exists t | t in targets :: Expected(t)) && forall t | t in targets && Expected(t) :: t.online
  }

  lemma CountsMean(targets: seq<TargetRecord>)
    ensures Count(targets, true) <= Count(targets, false)
    ensures Count(targets, false) == 0 <==> NothingExpected(targets)
    ensures AllExpectedOnline(targets) <==> 0 < Count(targets, true) == Count(targets, false)
  {
    CountBounds(targets);
  }

  lemma FitsExactly(n: nat)
    ensures AsU32(n) == n <==> n < 0x1_0000_0000
  {
  }

  /**
   What the summary means, and exactly when.  A count is right as long as it fits
   32 bits; idle and ready are wrong exactly when the wrapping makes something
   expected look like nothing, or two different counts alike.
   */
  lemma HealthMeaning(targets: seq<TargetRecord>)
    ensures HealthOf(targets).configured == |targets| <==> |targets| < 0x1_0000_0000
    ensures HealthOf(targets).expected == Count(targets, false) <==> Count(targets, false) < 0x1_0000_0000
    ensures (HealthOf(targets).state.Idle? <==> NothingExpected(targets))
            <==> (Count(targets, false) == 0 || AsU32(Count(targets, false)) != 0)
    ensures (HealthOf(targets).state.Ready? <==> AllExpectedOnline(targets))
            <==> (if Count(targets, true) == Count(targets, false)
                  then Count(targets, false) == 0 || AsU32(Count(targets, false)) != 0
                  else AsU32(Count(targets, false)) == 0
                       || AsU32(Count(targets, true)) != AsU32(Count(targets, false)))
  {
    hide AsU32, Count, NothingExpected, AllExpectedOnline;
    CountsMean(targets);
    FitsExactly(0);
    FitsExactly(|targets|);
    FitsExactly(Count(targets, false));
  }

  /** On every list shorter than 2^32 all of it holds. */
  lemma HealthOfShortLists(targets: seq<TargetRecord>)
    requires |targets| < 0x1_0000_0000
    ensures var h := HealthOf(targets);
            && h.online <= h.expected <= h.configured == |targets|
            && (h.state.Idle? <==> NothingExpected(targets))
            && (h.state.Ready? <==> AllExpectedOnline(targets))
  {
    hide AsU32, Count, NothingExpected, AllExpectedOnline;
    CountsMean(targets);
    FitsExactly(|targets|);
    FitsExactly(Count(targets, false));
    FitsExactly(Count(targets, true));
    FitsExactly(0);
  }

  /** Beyond that the cast wraps: 2^32 expected targets, none of them online, are reported as idle. */
  lemma HealthWraps(t: TargetRecord)
    requires Expected(t) && !t.online
    ensures HealthOf(seq(0x1_0000_0000, _ => t)).state.Idle?
  {
    AllExpected(t, 0x1_0000_0000);
  }

  lemma {:induction false} AllExpected(t: TargetRecord, n: nat)
    requires Expected(t)
    ensures Count(seq(n, _ => t), false) == n
  {
    if n > 0 {
      AllExpected(t, n - 1);
      assert seq(n, _ => t)[..n - 1] == seq(n - 1, _ => t);
    }
  }
}
