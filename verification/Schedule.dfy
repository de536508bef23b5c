/** `tracking_worker.py`: two periodic jobs on one ticking loop. */
module Schedule {
  import opened Prelude

  const SECOND := 1_000_000

  /** One turn of the main loop: the clock, in microseconds, and the intervals configured then, in seconds. */
  datatype Tick = Tick(now: int, trackingInterval: int, mqttInterval: int)

  /** A tick as one job sees it. */
  datatype Turn = Turn(now: int, interval: int)

  /** `_due` */
  predicate Due(lastRun: Option<int>, interval: int, now: int) {
    lastRun.None? || now - lastRun.value >= interval * SECOND
  }

  function TrackingTurns(ticks: seq<Tick>): (turns: seq<Turn>)
    ensures |turns| == |ticks| && forall k :: 0 <= k < |ticks| ==> turns[k] == Turn(ticks[k].now, ticks[k].trackingInterval)
  {
    seq(|ticks|, k requires 0 <= k < |ticks| => Turn(ticks[k].now, ticks[k].trackingInterval))
  }

  function MqttTurns(ticks: seq<Tick>): (turns: seq<Turn>)
    ensures |turns| == |ticks| && forall k :: 0 <= k < |ticks| ==> turns[k] == Turn(ticks[k].now, ticks[k].mqttInterval)
  {
    seq(|ticks|, k requires 0 <= k < |ticks| => Turn(ticks[k].now, ticks[k].mqttInterval))
  }

  /** When a job on its own would have last run. */
  function LastRun(turns: seq<Turn>, starts: seq<nat>): Option<int>
    requires forall i :: 0 <= i < |starts| ==> starts[i] < |turns|
  {
    if starts == [] then None else Some(turns[starts[|starts| - 1]].now)
  }

  /** The turns at which a job on its own is started. */
  function Starts(turns: seq<Turn>): (starts: seq<nat>)
    ensures forall i :: 0 <= i < |starts| ==> starts[i] < |turns|
  {
    if turns == [] then []
    else
      var n := |turns| - 1;
      var before := Starts(turns[..n]);
      if Due(LastRun(turns[..n], before), turns[n].interval, turns[n].now) then before + [n] else before
  }

  lemma StartsNext(turns: seq<Turn>, k: nat, last: Option<int>)
    requires k < |turns| && last == LastRun(turns[..k], Starts(turns[..k]))
    ensures var before, starts := Starts(turns[..k]), Starts(turns[..k + 1]);
            if Due(last, turns[k].interval, turns[k].now)
            then starts == before + [k] && LastRun(turns[..k + 1], starts) == Some(turns[k].now)
            else starts == before && LastRun(turns[..k + 1], starts) == last
  {
    assert turns[..k + 1][..k] == turns[..k];
  }

  /** The main loop over the ticks seen so far. Neither job's schedule depends on the other's. */
  method RunJobs(ticks: seq<Tick>) returns (trackingSyncs: seq<nat>, mqttPublishes: seq<nat>)
    ensures trackingSyncs == Starts(TrackingTurns(ticks)) && mqttPublishes == Starts(MqttTurns(ticks))
  {
    var lastTrackingSync, lastMqttPublish: Option<int> := None, None;
    trackingSyncs, mqttPublishes := [], [];
    ghost var tracking, mqtt := TrackingTurns(ticks), MqttTurns(ticks);
    for k := 0 to |ticks|
      invariant trackingSyncs == Starts(tracking[..k]) && lastTrackingSync == LastRun(tracking[..k], Starts(tracking[..k]))
      invariant mqttPublishes == Starts(mqtt[..k]) && lastMqttPublish == LastRun(mqtt[..k], Starts(mqtt[..k]))
    {
      var tick := ticks[k];
      StartsNext(tracking, k, lastTrackingSync);
      StartsNext(mqtt, k, lastMqttPublish);
      if Due(lastTrackingSync, tick.trackingInterval, tick.now) {
        trackingSyncs := trackingSyncs + [k];
        lastTrackingSync := Some(tick.now);
      }
      if Due(lastMqttPublish, tick.mqttInterval, tick.now) {
        mqttPublishes := mqttPublishes + [k];
        lastMqttPublish := Some(tick.now);
      }
    }
    assert tracking[..|ticks|] == tracking && mqtt[..|ticks|] == mqtt;
  }

  // ---------------------------------------------------------------- what a schedule is

  predicate Elapsed(turns: seq<Turn>, i: nat, k: nat)
    requires i < |turns| && k < |turns|
  {
    turns[k].now - turns[i].now >= turns[k].interval * SECOND
  }

  predicate Within(turns: seq<Turn>, starts: seq<nat>) {
    && (forall i :: 0 <= i < |starts| ==> starts[i] < |turns|)
    && (forall i, j :: 0 <= i < j < |starts| ==> starts[i] < starts[j])
  }

  /** No turn between start `i` and the next one, or after the last one, is due. */
  predicate NoneMissed(turns: seq<Turn>, starts: seq<nat>, i: nat)
    requires Within(turns, starts) && i < |starts|
  {
    forall k :: starts[i] < k < (if i + 1 < |starts| then starts[i + 1] else |turns|) ==> !Elapsed(turns, starts[i], k)
  }

  /**
   A schedule: it begins with the first turn, every later start is an interval or more behind
   the one before, and in between no turn is that far behind it.
   */
  predicate IsSchedule(turns: seq<Turn>, starts: seq<nat>) {
    && Within(turns, starts)
    && (turns == [] <==> starts == []) && (starts != [] ==> starts[0] == 0)
    && (forall i: nat :: i < |starts| - 1 ==> Elapsed(turns, starts[i], starts[i + 1]))
    && (forall i: nat :: i < |starts| ==> NoneMissed(turns, starts, i))
  }

  lemma {:induction false} StartsAreSchedule(turns: seq<Turn>)
    ensures IsSchedule(turns, Starts(turns))
    decreases |turns|
  {
    if turns != [] {
      var n := |turns| - 1;
      var before, starts := Starts(turns[..n]), Starts(turns);
      StartsAreSchedule(turns[..n]);
      assert Within(turns, starts);
      forall i: nat | i < |starts| - 1 ensures Elapsed(turns, starts[i], starts[i + 1]) {
        if i < |before| - 1 { assert Elapsed(turns[..n], before[i], before[i + 1]); }
      }
      forall i: nat | i < |starts| ensures NoneMissed(turns, starts, i) {
        if i < |before| {
          assert NoneMissed(turns[..n], before, i);
          forall k | starts[i] < k < (if i + 1 < |starts| then starts[i + 1] else |turns|) ensures !Elapsed(turns, starts[i], k) {
            if k < n { assert !Elapsed(turns[..n], before[i], k); }
          }
        }
      }
    }
  }

  /** Two schedules agree on every start they both have. */
  lemma {:induction false} SchedulesAgree(turns: seq<Turn>, a: seq<nat>, b: seq<nat>, i: nat)
    requires IsSchedule(turns, a) && IsSchedule(turns, b) && i < |a|
    ensures i < |b| && a[i] == b[i]
    decreases i
  {
    if i > 0 {
      SchedulesAgree(turns, a, b, i - 1);
      assert NoneMissed(turns, a, i - 1) && NoneMissed(turns, b, i - 1) && Elapsed(turns, a[i - 1], a[i]);
      if i < |b| { assert Elapsed(turns, b[i - 1], b[i]); }
    }
  }

  /** The starts of a job are the one schedule of its turns. */
  lemma StartsIffSchedule(turns: seq<Turn>, starts: seq<nat>)
    ensures starts == Starts(turns) <==> IsSchedule(turns, starts)
  {
    StartsAreSchedule(turns);
    var own := Starts(turns);
    if IsSchedule(turns, starts) {
      if |starts| < |own| { SchedulesAgree(turns, own, starts, |starts|); }
      if |own| < |starts| { SchedulesAgree(turns, starts, own, |own|); }
      forall i: nat | i < |starts| ensures starts[i] == own[i] { SchedulesAgree(turns, starts, own, i); }
    }
  }

  // ---------------------------------------------------------------- bounds

  /** A clock that does not go back, and a fixed positive interval. */
  predicate Steady(turns: seq<Turn>, interval: int) {
    && interval > 0
    && (forall i :: 0 <= i < |turns| ==> turns[i].interval == interval)
    && (forall i, j :: 0 <= i < j < |turns| ==> turns[i].now <= turns[j].now)
  }

  /** Consecutive starts are an interval or more apart, but less than that plus the last tick's gap. */
  lemma GapBounds(turns: seq<Turn>, interval: int, i: nat)
    requires Steady(turns, interval) && i + 1 < |Starts(turns)|
    ensures var j, k := Starts(turns)[i], Starts(turns)[i + 1];
            && j < k && interval * 1_000_000 <= turns[k].now - turns[j].now < interval * 1_000_000 + (turns[k].now - turns[k - 1].now)
  {
    StartsAreSchedule(turns);
    var starts := Starts(turns);
    assert Elapsed(turns, starts[i], starts[i + 1]) && NoneMissed(turns, starts, i);
    var k := starts[i + 1];
    if starts[i] < k - 1 { assert !Elapsed(turns, starts[i], k - 1); }
  }

  /**
   How often a job runs: over a span of time, with ticks at most `gap` apart, more than once per
   interval and gap, and at most once per interval beyond the first.
   */
  lemma {:induction false} RunCount(turns: seq<Turn>, interval: int, gap: int, i: nat)
    requires Steady(turns, interval) && i < |Starts(turns)|
    requires forall k :: 0 < k < |turns| ==> turns[k].now - turns[k - 1].now <= gap
    ensures var span := turns[Starts(turns)[i]].now - turns[0].now;
            i * (interval * 1_000_000) <= span <= i * (interval * 1_000_000 + gap)
    decreases i
  {
    StartsAreSchedule(turns);
    if i > 0 {
      RunCount(turns, interval, gap, i - 1);
      GapBounds(turns, interval, i - 1);
      Distribute(i, interval * 1_000_000);
      Distribute(i, interval * 1_000_000 + gap);
    }
  }

  lemma Distribute(i: nat, d: int)
    requires i > 0
    ensures i * d == (i - 1) * d + d
  {
  }
}
