/** The entropy gauge of src/lib/store.ts: the raw accumulator, the displayed
    value (rounded to two decimals with `toFixed(2)` and clamped to [0, 100]),
    the tier ladder, and the events one `modifyEntropy` call emits. */
module Entropy {
  import opened Common
  import opened GameTypes
  import opened Events
  import opened Bindings

  /** `Number(x.toFixed(2))` for x >= 0: the nearest multiple of 0.01, ties
      rounded up (toFixed rounds the magnitude half up). */
  function Round2Magnitude(x: real): real
    requires x >= 0.0
  {
    (x * 100.0 + 0.5).Floor as real / 100.0
  }

  /** `Number(x.toFixed(2))`; a negative x is rounded on its magnitude. */
  function Round2(x: real): real
  {
    if x < 0.0 then -Round2Magnitude(-x) else Round2Magnitude(x)
  }

  /** `Math.min(100, Math.max(0, Number(raw.toFixed(2))))` */
  function Display(raw: real): (e: real)
    ensures 0.0 <= e <= 100.0
  {
    Clamp(Round2(raw), 0.0, 100.0)
  }

  /** The tier ladder, with breakpoints 10, 25, 50, 75 and 90. */
  function TierOf(e: real): Tier
  {
    if e < 10.0 then Dormant
    else if e < 25.0 then Breath
    else if e < 50.0 then Pulse
    else if e < 75.0 then Fever
    else if e < 90.0 then Famine
    else Seizure
  }

  function TierRank(t: Tier): nat
  {
    match t
    case Dormant => 0
    case Breath => 1
    case Pulse => 2
    case Fever => 3
    case Famine => 4
    case Seizure => 5
  }

  /** The lower bound of each tier. */
  function TierFloor(t: Tier): real
  {
    match t
    case Dormant => 0.0
    case Breath => 10.0
    case Pulse => 25.0
    case Fever => 50.0
    case Famine => 75.0
    case Seizure => 90.0
  }

  lemma Round2MagnitudeNear(y: real)
    requires y >= 0.0
    ensures -0.005 <= Round2Magnitude(y) - y <= 0.005
    ensures Round2Magnitude(y) * 100.0 == (y * 100.0 + 0.5).Floor as real
  {
    var k := (y * 100.0 + 0.5).Floor;
    assert k as real <= y * 100.0 + 0.5 < k as real + 1.0;
    assert Round2Magnitude(y) * 100.0 == k as real;
  }

  /** Rounding moves a value by at most half a hundredth and lands on a
      hundredth. */
  lemma Round2Near(x: real)
    ensures -0.005 <= Round2(x) - x <= 0.005
    ensures (Round2(x) * 100.0).Floor as real == Round2(x) * 100.0
  {
    if x < 0.0 {
      Round2MagnitudeNear(-x);
      var k := (-x * 100.0 + 0.5).Floor;
      assert Round2(x) * 100.0 == (-k) as real;
    } else {
      Round2MagnitudeNear(x);
    }
  }

  /** A value already on a hundredth inside [0, 100] is shown unchanged, however
      it was reached. */
  lemma DisplayExact(k: int)
    requires 0 <= k <= 10000
    ensures Display(k as real / 100.0) == k as real / 100.0
  {
    var x := k as real / 100.0;
    assert x * 100.0 + 0.5 == k as real + 0.5;
    assert (x * 100.0 + 0.5).Floor == k;
  }

  /** The tier is a monotone step function of the entropy with breakpoints
      10, 25, 50, 75 and 90: each tier holds exactly the values from its
      floor up to the next floor, and Seizure everything from 90 on. */
  lemma TierStep(e: real)
    ensures TierFloor(TierOf(e)) <= e || TierOf(e) == Dormant
    ensures TierOf(e) != Seizure ==> e < TierFloor(TierOf(e)) + (if TierOf(e) == Dormant then 10.0
                                              else if TierOf(e) == Breath || TierOf(e) == Famine then 15.0
                                              else 25.0)
    ensures TierOf(e) == Seizure <==> e >= 90.0
    ensures forall f :: e <= f ==> TierRank(TierOf(e)) <= TierRank(TierOf(f))
  {
  }

  /** `if (oldTier !== newTier) { tierExit(oldTier); tierEnter(newTier) }` */
  function TierChange(oldE: real, newE: real): (r: seq<Event>)
    ensures TierOf(oldE) == TierOf(newE) <==> r == []
    ensures TierOf(oldE) != TierOf(newE) ==> r == [TierExit(TierOf(oldE)), TierEnter(TierOf(newE))]
  {
    if TierOf(oldE) != TierOf(newE) then [TierExit(TierOf(oldE)), TierEnter(TierOf(newE))] else []
  }

  /** The store's own invariant: raw never negative, shown derived from raw. */
  predicate Shows(raw: real, shown: real)
  {
    raw >= 0.0 && shown == Display(raw)
  }

  /** What `modifyEntropy` reads and writes: the store's raw and shown entropy
      and the value the binder last heard. */
  datatype Gauge = Gauge(raw: real, shown: real, heard: real)
  {
    predicate Ok() { Shows(raw, shown) }
  }

  /** The gauge after `modifyEntropy(delta)`: the binder hears the new shown value. */
  function Modify(g: Gauge, delta: real): Gauge
  {
    var raw := Max(0.0, g.raw + delta);
    Gauge(raw, Display(raw), Display(raw))
  }

  /** The events `modifyEntropy(delta)` emits on each bus: the tier change
      first, then every threshold crossing the binder sees. */
  function ModifyEvents(g: Gauge, delta: real): seq<Event>
  {
    var n := Modify(g, delta).shown;
    TierChange(g.shown, n) + ThresholdEvents(g.heard, n)
  }

  /** One call keeps the invariant from any gauge, the shown value stays in
      [0, 100], and raw moves by exactly delta unless that would go below 0. */
  lemma ModifyKeepsGauge(g: Gauge, delta: real)
    ensures Modify(g, delta).Ok()
    ensures 0.0 <= Modify(g, delta).shown <= 100.0
    ensures g.raw + delta >= 0.0 ==> Modify(g, delta).raw == g.raw + delta
    ensures g.raw + delta < 0.0 ==> Modify(g, delta).raw == 0.0
    ensures Modify(g, delta).heard == Modify(g, delta).shown
  {
  }

  /** The tier events come before the threshold events, and they are present
      exactly when the tier changes. */
  lemma ModifyEventsOrder(g: Gauge, delta: real)
    ensures var n := Modify(g, delta).shown;
            var es := ModifyEvents(g, delta);
            && (TierOf(g.shown) != TierOf(n) ==>
                  es[..2] == [TierExit(TierOf(g.shown)), TierEnter(TierOf(n))]
                  && es[2..] == ThresholdEvents(g.heard, n))
            && (TierOf(g.shown) == TierOf(n) ==> es == ThresholdEvents(g.heard, n))
  {
  }

  function ModifyAll(g: Gauge, ds: seq<real>): Gauge
    decreases |ds|
  {
    if ds == [] then g else ModifyAll(Modify(g, ds[0]), ds[1..])
  }

  /** For ANY sequence of deltas, starting from any gauge that satisfies the
      invariant, raw stays non-negative and the shown value stays in [0, 100]
      and equal to the rounded, clamped raw value. */
  lemma {:induction false} ModifyAllKeepsGauge(g: Gauge, ds: seq<real>)
    requires g.Ok()
    ensures ModifyAll(g, ds).Ok()
    ensures 0.0 <= ModifyAll(g, ds).shown <= 100.0
    ensures ModifyAll(g, ds).raw >= 0.0
    decreases |ds|
  {
    if ds != [] {
      ModifyKeepsGauge(g, ds[0]);
      ModifyAllKeepsGauge(Modify(g, ds[0]), ds[1..]);
    }
  }
}
