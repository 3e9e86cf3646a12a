/** The threshold event binder of src/lib/entropyBindings.ts: it remembers the
    last entropy it was told about and turns every change into edge-triggered
    enter/exit notifications for the thresholds 40, 60, 80 and 90, a one-shot
    seizure notification, and a click-burst detector over a sliding window.
    The audio bus and the effect bus are two append-only logs. */
module Bindings {
  import opened Common
  import opened Events

  /** shimmer, flicker, intense, seizure — in the order they are checked. */
  const Thresholds: seq<int> := [40, 60, 80, 90]
  const SeizureThreshold: int := 90
  const ClickBurstWindow: real := 800.0
  const ClickBurstThreshold: nat := 3

  /** The events one `checkThresholdCrossing(o, n, t, …)` emits on each bus. */
  function Crossing(o: real, n: real, t: int): seq<Event>
  {
    if o < t as real && n >= t as real then [EntropyEnter(t)]
    else if o >= t as real && n < t as real then [EntropyExit(t)]
    else []
  }

  /** The events one `updateEntropy(n)` emits on each bus when the last value
      was o: the four crossings in threshold order, then the seizure. */
  function ThresholdEvents(o: real, n: real): seq<Event>
  {
    Crossing(o, n, 40) + Crossing(o, n, 60) + Crossing(o, n, 80) + Crossing(o, n, 90)
    + (if n >= SeizureThreshold as real && o < SeizureThreshold as real then [EntropySeizure] else [])
  }

  /** `clickHistory.filter(t => now - t <= 800)` */
  function Recent(h: seq<real>, now: real): (r: seq<real>)
    ensures |r| <= |h|
    ensures forall x :: x in r <==> x in h && now - x <= ClickBurstWindow
  {
    if h == [] then []
    else (if now - h[0] <= ClickBurstWindow then [h[0]] else []) + Recent(h[1..], now)
  }

  /** The filter keeps every timestamp, repeats included, in order: a new
      click at the end is kept exactly when it lies within the window. */
  lemma {:induction false} RecentSnoc(h: seq<real>, x: real, now: real)
    ensures Recent(h + [x], now) == Recent(h, now) + (if now - x <= ClickBurstWindow then [x] else [])
    decreases |h|
  {
    var last := if now - x <= ClickBurstWindow then [x] else [];
    if h == [] {
      assert h + [x] == [x] && [x][1..] == [];
    } else {
      var head := if now - h[0] <= ClickBurstWindow then [h[0]] else [];
      RecentSnoc(h[1..], x, now);
      assert (h + [x])[0] == h[0] && (h + [x])[1..] == h[1..] + [x];
      ConcatAssoc(head, Recent(h[1..], now), last);
    }
  }

  /** The events `forEach(tag => emit('corruption.tag.' + tag))` emits. */
  function TagEvents(tags: seq<string>): (r: seq<Event>)
    ensures |r| == |tags|
    ensures forall i :: 0 <= i < |tags| ==> r[i] == CorruptionTag(tags[i])
  {
    seq(|tags|, i requires 0 <= i < |tags| => CorruptionTag(tags[i]))
  }

  /** The kinds a plain `on*` emitter sends unchanged to both buses. */
  predicate PassThrough(e: Event)
  {
    !(e.EntropyEnter? || e.EntropyExit? || e.EntropySeizure? || e.CorruptionInject? || e.CorruptionTag?)
  }

  class EntropyBindings {
    var lastEntropy: real
    var clickHistory: seq<real>
    var audioLog: seq<Event>
    var fxLog: seq<Event>

    constructor()
      ensures lastEntropy == 0.0 && clickHistory == []
      ensures audioLog == [] && fxLog == []
    {
      lastEntropy := 0.0;
      clickHistory := [];
      audioLog := [];
      fxLog := [];
    }

    /** Emit an enter or an exit event for threshold t on both buses, or nothing. */
    method CheckThresholdCrossing(oldValue: real, newValue: real, t: int)
      modifies this`audioLog, this`fxLog
      ensures audioLog == old(audioLog) + Crossing(oldValue, newValue, t)
      ensures fxLog == old(fxLog) + Crossing(oldValue, newValue, t)
    {
      if oldValue < t as real && newValue >= t as real {
        audioLog := audioLog + [EntropyEnter(t)];
        fxLog := fxLog + [EntropyEnter(t)];
      } else if oldValue >= t as real && newValue < t as real {
        audioLog := audioLog + [EntropyExit(t)];
        fxLog := fxLog + [EntropyExit(t)];
      }
    }

    method TriggerSeizure()
      modifies this`audioLog, this`fxLog
      ensures audioLog == old(audioLog) + [EntropySeizure]
      ensures fxLog == old(fxLog) + [EntropySeizure]
    {
      audioLog := audioLog + [EntropySeizure];
      fxLog := fxLog + [EntropySeizure];
    }

    /** Remember the new value and emit the crossings from the remembered one. */
    method UpdateEntropy(newEntropy: real)
      modifies this`lastEntropy, this`audioLog, this`fxLog
      ensures lastEntropy == newEntropy
      ensures audioLog == old(audioLog) + ThresholdEvents(old(lastEntropy), newEntropy)
      ensures fxLog == old(fxLog) + ThresholdEvents(old(lastEntropy), newEntropy)
    {
      var oldEntropy := lastEntropy;
      lastEntropy := newEntropy;
      ghost var a0, f0 := audioLog, fxLog;
      CheckThresholdCrossing(oldEntropy, newEntropy, Thresholds[0]);
      CheckThresholdCrossing(oldEntropy, newEntropy, Thresholds[1]);
      CheckThresholdCrossing(oldEntropy, newEntropy, Thresholds[2]);
      CheckThresholdCrossing(oldEntropy, newEntropy, Thresholds[3]);
      ghost var c40, c60, c80, c90 := Crossing(oldEntropy, newEntropy, 40), Crossing(oldEntropy, newEntropy, 60),
        Crossing(oldEntropy, newEntropy, 80), Crossing(oldEntropy, newEntropy, 90);
      var seizure := newEntropy >= SeizureThreshold as real && oldEntropy < SeizureThreshold as real;
      if seizure {
        TriggerSeizure();
      }
      ghost var s: seq<Event> := if seizure then [EntropySeizure] else [];
      ConcatAssoc5(a0, c40, c60, c80, c90, s);
      ConcatAssoc5(f0, c40, c60, c80, c90, s);
    }

    /** A click at time `now` (the source reads `Date.now()`): keep the clicks of
        the last 800 ms and signal a burst on the audio bus only. */
    method RecordClick(now: real)
      modifies this`clickHistory, this`audioLog
      ensures clickHistory == Recent(old(clickHistory) + [now], now)
      ensures now in clickHistory
      ensures audioLog == old(audioLog) + (if |clickHistory| >= ClickBurstThreshold then [TickFast] else [])
    {
      clickHistory := clickHistory + [now];
      clickHistory := Recent(clickHistory, now);
      if |clickHistory| >= ClickBurstThreshold {
        audioLog := audioLog + [TickFast];
      }
    }

    /** Every pass-through `on*` emitter: the same event on both buses. */
    method Emit(e: Event)
      requires PassThrough(e)
      modifies this`audioLog, this`fxLog
      ensures audioLog == old(audioLog) + [e]
      ensures fxLog == old(fxLog) + [e]
    {
      audioLog := audioLog + [e];
      fxLog := fxLog + [e];
    }

    method OnEntropyTick(fast: bool)
      modifies this`audioLog, this`fxLog
      ensures audioLog == old(audioLog) + [if fast then TickFast else TickNormal]
      ensures fxLog == old(fxLog) + [if fast then TickFast else TickNormal]
    {
      if fast {
        Emit(TickFast);
      } else {
        Emit(TickNormal);
      }
    }

    /** The injection on both buses, then one tag event per tag, in order, on
        the audio bus only. */
    method OnCorruptionInject(text: string, tags: seq<string>)
      modifies this`audioLog, this`fxLog
      ensures audioLog == old(audioLog) + [CorruptionInject(text, tags)] + TagEvents(tags)
      ensures fxLog == old(fxLog) + [CorruptionInject(text, tags)]
    {
      audioLog := audioLog + [CorruptionInject(text, tags)];
      fxLog := fxLog + [CorruptionInject(text, tags)];
      var i := 0;
      while i < |tags|
        invariant 0 <= i <= |tags|
        invariant audioLog == old(audioLog) + [CorruptionInject(text, tags)] + TagEvents(tags[..i])
        invariant fxLog == old(fxLog) + [CorruptionInject(text, tags)]
      {
        TagEventsSnoc(tags[..i + 1]);
        assert tags[..i + 1][..i] == tags[..i];
        audioLog := audioLog + [CorruptionTag(tags[i])];
        i := i + 1;
      }
      assert tags[..i] == tags;
    }
  }

  lemma TagEventsSnoc(tags: seq<string>)
    requires tags != []
    ensures TagEvents(tags) == TagEvents(tags[..|tags| - 1]) + [CorruptionTag(tags[|tags| - 1])]
  {
    var front := tags[..|tags| - 1];
    var r := TagEvents(front) + [CorruptionTag(tags[|tags| - 1])];
    var t := TagEvents(tags);
    assert |r| == |t|;
    forall i | 0 <= i < |r| ensures r[i] == t[i] {
      if i < |front| {
        assert r[i] == TagEvents(front)[i] == CorruptionTag(front[i]);
        assert front[i] == tags[i];
      }
    }
  }

  /** For every threshold: an enter event exactly when the value rises to or past
      it, an exit event exactly when it falls below it, never both, never twice. */
  lemma ThresholdEventsEdges(o: real, n: real, t: int)
    requires t in Thresholds
    ensures EntropyEnter(t) in ThresholdEvents(o, n) <==> o < t as real <= n
    ensures EntropyExit(t) in ThresholdEvents(o, n) <==> n < t as real <= o
    ensures !(EntropyEnter(t) in ThresholdEvents(o, n) && EntropyExit(t) in ThresholdEvents(o, n))
  {
  }

  /** The seizure comes exactly with the enter event of 90, and last. */
  lemma SeizureWithEnter90(o: real, n: real)
    ensures EntropySeizure in ThresholdEvents(o, n) <==> EntropyEnter(90) in ThresholdEvents(o, n)
    ensures EntropySeizure in ThresholdEvents(o, n) ==>
      var es := ThresholdEvents(o, n);
      es[|es| - 1] == EntropySeizure && EntropySeizure !in es[..|es| - 1]
  {
    var es := ThresholdEvents(o, n);
    if EntropySeizure in es {
      assert es[..|es| - 1] == Crossing(o, n, 40) + Crossing(o, n, 60) + Crossing(o, n, 80) + Crossing(o, n, 90);
    }
  }

  /** A move that crosses no threshold, in particular a repeated value, emits nothing. */
  lemma NoCrossingNoEvents(o: real, n: real)
    requires forall t :: t in Thresholds ==> (o < t as real <==> n < t as real)
    ensures ThresholdEvents(o, n) == []
    ensures ThresholdEvents(n, n) == []
  {
    assert 40 in Thresholds && 60 in Thresholds && 80 in Thresholds && 90 in Thresholds;
  }

  /** Thresholds are checked in ascending order whichever way the value moves. */
  lemma CheckOrder()
    ensures ThresholdEvents(0.0, 45.0) == [EntropyEnter(40)]
    ensures ThresholdEvents(65.0, 55.0) == [EntropyExit(60)]
    ensures ThresholdEvents(0.0, 95.0)
         == [EntropyEnter(40), EntropyEnter(60), EntropyEnter(80), EntropyEnter(90), EntropySeizure]
    ensures ThresholdEvents(95.0, 0.0)
         == [EntropyExit(40), EntropyExit(60), EntropyExit(80), EntropyExit(90)]
  {
  }

  /** From the initial value 0 a rise to 45 puts `entropy.enter.40` on both buses,
      and 65 then 55 puts `entropy.exit.60` on both. */
  method BinderScenario() returns (a1: seq<Event>, a2: seq<Event>)
    ensures a1 == [EntropyEnter(40)]
    ensures a2 == [EntropyEnter(40), EntropyEnter(60), EntropyExit(60)]
  {
    var b := new EntropyBindings();
    b.UpdateEntropy(45.0);
    a1 := b.audioLog;
    assert b.fxLog == a1;
    b.UpdateEntropy(65.0);
    b.UpdateEntropy(55.0);
    a2 := b.audioLog;
    assert b.fxLog == a2;
  }

  // ---- Over a whole run of values, each threshold's events alternate ----

  /** The events a binder starting at o emits for the successive values vs. */
  function Run(o: real, vs: seq<real>): seq<Event>
    decreases |vs|
  {
    if vs == [] then [] else ThresholdEvents(o, vs[0]) + Run(vs[0], vs[1..])
  }

  function LastValue(o: real, vs: seq<real>): real
  {
    if vs == [] then o else vs[|vs| - 1]
  }

  /** Reading es with the value starting above (`above`) or below threshold t,
      every enter of t happens from below, every exit of t from above, and the
      value ends above exactly when `final` holds. */
  predicate Alternates(t: int, es: seq<Event>, above: bool, final: bool)
    decreases |es|
  {
    if es == [] then above == final
    else if es[0] == EntropyEnter(t) then !above && Alternates(t, es[1..], true, final)
    else if es[0] == EntropyExit(t) then above && Alternates(t, es[1..], false, final)
    else Alternates(t, es[1..], above, final)
  }

  lemma {:induction false} AlternatesAppend(t: int, a: seq<Event>, b: seq<Event>, x: bool, y: bool, z: bool)
    requires Alternates(t, a, x, y) && Alternates(t, b, y, z)
    ensures Alternates(t, a + b, x, z)
    decreases |a|
  {
    if a == [] {
      assert a + b == b;
    } else {
      assert (a + b)[1..] == a[1..] + b;
      if a[0] == EntropyEnter(t) {
        AlternatesAppend(t, a[1..], b, true, y, z);
      } else if a[0] == EntropyExit(t) {
        AlternatesAppend(t, a[1..], b, false, y, z);
      } else {
        AlternatesAppend(t, a[1..], b, x, y, z);
      }
    }
  }

  lemma AlternatesSkip(t: int, es: seq<Event>, x: bool)
    requires forall i :: 0 <= i < |es| ==> es[i] != EntropyEnter(t) && es[i] != EntropyExit(t)
    ensures Alternates(t, es, x, x)
    decreases |es|
  {
    if es != [] {
      AlternatesSkip(t, es[1..], x);
    }
  }

  lemma CrossingAlternates(o: real, n: real, t: int, u: int)
    ensures t != u ==> Alternates(t, Crossing(o, n, u), o >= t as real, o >= t as real)
    ensures Alternates(t, Crossing(o, n, t), o >= t as real, n >= t as real)
  {
  }

  lemma StepAlternates(o: real, n: real, t: int)
    requires t in Thresholds
    ensures Alternates(t, ThresholdEvents(o, n), o >= t as real, n >= t as real)
  {
    var x := o >= t as real;
    var y := n >= t as real;
    var s: seq<Event> := if n >= SeizureThreshold as real && o < SeizureThreshold as real then [EntropySeizure] else [];
    AlternatesSkip(t, s, y);
    CrossingAlternates(o, n, t, 40);
    CrossingAlternates(o, n, t, 60);
    CrossingAlternates(o, n, t, 80);
    CrossingAlternates(o, n, t, 90);
    var c40, c60, c80, c90 := Crossing(o, n, 40), Crossing(o, n, 60), Crossing(o, n, 80), Crossing(o, n, 90);
    if t == 40 {
      AlternatesAppend(t, c40, c60, x, y, y);
      AlternatesAppend(t, c40 + c60, c80, x, y, y);
      AlternatesAppend(t, c40 + c60 + c80, c90, x, y, y);
    } else if t == 60 {
      AlternatesAppend(t, c40, c60, x, x, y);
      AlternatesAppend(t, c40 + c60, c80, x, y, y);
      AlternatesAppend(t, c40 + c60 + c80, c90, x, y, y);
    } else if t == 80 {
      AlternatesAppend(t, c40, c60, x, x, x);
      AlternatesAppend(t, c40 + c60, c80, x, x, y);
      AlternatesAppend(t, c40 + c60 + c80, c90, x, y, y);
    } else {
      AlternatesAppend(t, c40, c60, x, x, x);
      AlternatesAppend(t, c40 + c60, c80, x, x, x);
      AlternatesAppend(t, c40 + c60 + c80, c90, x, x, y);
    }
    AlternatesAppend(t, c40 + c60 + c80 + c90, s, x, y, y);
  }

  /** Over any sequence of updates, for each threshold the enter and exit events
      alternate, the first one is an enter exactly when the start value is below
      the threshold, and the last one tells on which side the final value lies. */
  lemma {:induction false} RunAlternates(o: real, vs: seq<real>, t: int)
    requires t in Thresholds
    ensures Alternates(t, Run(o, vs), o >= t as real, LastValue(o, vs) >= t as real)
    decreases |vs|
  {
    if vs != [] {
      StepAlternates(o, vs[0], t);
      RunAlternates(vs[0], vs[1..], t);
      assert LastValue(vs[0], vs[1..]) == LastValue(o, vs);
      AlternatesAppend(t, ThresholdEvents(o, vs[0]), Run(vs[0], vs[1..]),
                       o >= t as real, vs[0] >= t as real, LastValue(o, vs) >= t as real);
    }
  }
}
