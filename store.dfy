/** The game store of src/lib/store.ts: one mutable aggregate with the entropy
    gauge, the persistent ecology (seeds, gods, seasons, stats, boons and
    prices), the run's ending and scoreboard, and the legacy surface counters.
    Each command is a method; `now` and every random draw are parameters, and
    `clock` stands for the `Date.now()` read inside a command. All notifications
    go through the one binder object the store holds. */
module Store {
  import opened Common
  import opened GameTypes
  import opened Events
  import opened Bindings
  import opened Entropy
  import opened Ecology
  import opened Dominance

  const OmenCooldown: real := 10000.0
  const GodClickCooldown: real := 12000.0
  const IdleWindow: real := 3000.0
  const ScoreboardSize: nat := 5
  /** The legacy rot bleed per seed and tick: `0.02 * (1/60)`. */
  const RotBleed: real := 0.02 * (1.0 / 60.0)

  const OmenLines: seq<string> := [
    "The garden shudders with ancient knowledge",
    "Something vast stirs beneath the soil",
    "The air itself trembles with forgotten power",
    "A presence older than memory awakens"
  ]

  /** The persistent seeds and their insertion order agree: each id once,
      the same ids as the map's keys, each seed filed under its own id, every
      food level non-negative and every maturity at most 1. */
  ghost predicate SeedTable(order: seq<string>, seeds: map<string, Seed>)
  {
    && Distinct(order)
    && (forall id :: id in order <==> id in seeds)
    && (forall id :: id in seeds ==> seeds[id].id == id)
    && (forall id :: id in seeds ==> seeds[id].food >= 0.0 && seeds[id].maturity <= 1.0)
  }

  /** `[...scoreboard, entry].slice(-5)` */
  function Last5(s: seq<ScoreEntry>): (r: seq<ScoreEntry>)
    ensures |r| == (if |s| <= ScoreboardSize then |s| else ScoreboardSize)
    ensures r == s[|s| - |r|..]
  {
    if |s| <= ScoreboardSize then s else s[|s| - ScoreboardSize..]
  }

  /** The insertion order after `delete seeds[id]`. */
  function RemoveId(s: seq<string>, id: string): (r: seq<string>)
    ensures forall x :: x in r <==> x in s && x != id
    ensures Distinct(s) ==> Distinct(r)
    ensures |r| <= |s|
    ensures id !in s ==> r == s
  {
    if s == [] then []
    else if s[0] == id then RemoveId(s[1..], id)
    else
      var rest := RemoveId(s[1..], id);
      assert Distinct(s) ==> s[0] !in s[1..] by {
        if Distinct(s) {
          forall j | 0 <= j < |s[1..]| ensures s[1..][j] != s[0] {
            assert s[j + 1] != s[0];
          }
        }
      }
      [s[0]] + rest
  }

  /** Deleting a key that occurs once keeps the keys before it and the keys
      after it, each in their order. */
  lemma {:induction false} RemoveIdSplit(p: seq<string>, id: string, q: seq<string>)
    requires id !in p && id !in q
    ensures RemoveId(p + [id] + q, id) == p + q
  {
    if p == [] {
      assert p + [id] + q == [id] + q;
      RemoveIdHead([id], q, id);
    } else {
      assert p[0] != id by { assert p[0] in p; }
      var h, r := [p[0]], p[1..];
      assert p == h + r;
      ConcatAssoc(h, r, [id]);
      ConcatAssoc(h, r + [id], q);
      ConcatAssoc(h, r, q);
      RemoveIdSplit(r, id, q);
      RemoveIdHead(h, r + [id] + q, id);
    }
  }

  /** One step of `RemoveId`: the head goes when it is the key and stays
      otherwise. */
  lemma RemoveIdHead(h: seq<string>, t: seq<string>, id: string)
    requires |h| == 1
    ensures RemoveId(h + t, id) == (if h[0] == id then [] else h) + RemoveId(t, id)
  {
    assert (h + t)[0] == h[0] && (h + t)[1..] == t;
  }

  /** In an insertion order with each id once, deleting the id at position i
      leaves exactly the ids before and after it, in their order. */
  lemma RemoveIdAt(s: seq<string>, i: nat)
    requires Distinct(s) && i < |s|
    ensures RemoveId(s, s[i]) == s[..i] + s[i + 1..]
  {
    DistinctApart(s, i);
    TakeSnoc(s, i);
    assert s == s[..i + 1] + s[i + 1..];
    RemoveIdSplit(s[..i], s[i], s[i + 1..]);
  }

  /** An id that occurs once is neither before nor after its own position. */
  lemma DistinctApart(s: seq<string>, i: nat)
    requires Distinct(s) && i < |s|
    ensures s[i] !in s[..i] && s[i] !in s[i + 1..]
  {
    var before, after := s[..i], s[i + 1..];
    forall j | 0 <= j < |before| ensures before[j] != s[i] { }
    forall j | 0 <= j < |after| ensures after[j] != s[i] { assert after[j] == s[i + 1 + j]; }
  }

  /** `list.filter(b => b.until > now)` over boons and prices. */
  function LiveBoons(bs: seq<ActiveBoon>, now: real): (r: seq<ActiveBoon>)
    ensures forall b :: b in r <==> b in bs && b.until > now
  {
    if bs == [] then [] else (if bs[0].until > now then [bs[0]] else []) + LiveBoons(bs[1..], now)
  }

  function LivePrices(ps: seq<ActivePrice>, now: real): (r: seq<ActivePrice>)
    ensures forall p :: p in r <==> p in ps && p.until > now
  {
    if ps == [] then [] else (if ps[0].until > now then [ps[0]] else []) + LivePrices(ps[1..], now)
  }

  /** The idle-decay multiplier: Stillness wins over Tithed Breath; both must be
      unexpired at `now`. */
  function DecayMultiplier(bs: seq<ActiveBoon>, ps: seq<ActivePrice>, now: real): (k: real)
    ensures k == 1.6 <==> exists b :: b in LiveBoons(bs, now) && b.boon == Stillness
    ensures k == 0.7 <==> (forall b :: b in LiveBoons(bs, now) ==> b.boon != Stillness)
                          && exists p :: p in LivePrices(ps, now) && p.price == TithedBreath
    ensures k == 1.0 <==> (forall b :: b in LiveBoons(bs, now) ==> b.boon != Stillness)
                          && (forall p :: p in LivePrices(ps, now) ==> p.price != TithedBreath)
  {
    if exists i | 0 <= i < |bs| :: bs[i].boon == Stillness && bs[i].until > now then 1.6
    else if exists i | 0 <= i < |ps| :: ps[i].price == TithedBreath && ps[i].until > now then 0.7
    else 1.0
  }

  /** The idle-decay delta, always negative. */
  function DecayDelta(bs: seq<ActiveBoon>, ps: seq<ActivePrice>, now: real): (d: real)
    ensures d < 0.0
  {
    -0.01 * (1.0 / 60.0) * DecayMultiplier(bs, ps, now)
  }

  /** Which ending `checkEndings` declares, in its fixed priority order. */
  function EndingDue(stats: Stats, entropy: real, seasonCount: nat): Option<EndingKind>
  {
    if stats.awakened >= 15 && entropy < 15.0 && seasonCount >= 3 then Some(AscendantChorus)
    else if stats.starved >= 50 || (entropy >= 95.0 && seasonCount >= 2) then Some(GardenFamine)
    else None
  }

  /** AscendantChorus wins whenever its condition holds; GardenFamine is
      declared only when AscendantChorus's condition fails. */
  lemma EndingPriority(stats: Stats, entropy: real, seasonCount: nat)
    ensures EndingDue(stats, entropy, seasonCount) == Some(AscendantChorus)
        <==> stats.awakened >= 15 && entropy < 15.0 && seasonCount >= 3
    ensures EndingDue(stats, entropy, seasonCount) == Some(GardenFamine)
        <==> !(stats.awakened >= 15 && entropy < 15.0 && seasonCount >= 3)
             && (stats.starved >= 50 || (entropy >= 95.0 && seasonCount >= 2))
    ensures entropy >= 95.0 && seasonCount >= 2 ==> EndingDue(stats, entropy, seasonCount) == Some(GardenFamine)
  {
  }

  // ---- The legacy surface seeds of `tickSeeds` ----

  /** `!seed.expired && now - seed.bornAt >= seed.viableMs` */
  predicate Ripens(s: SeedNode, now: real)
  {
    !s.expired && now - s.bornAt >= s.viableMs
  }

  /** `seed.rotUntil` is truthy: present and not 0. */
  predicate RotSet(s: SeedNode)
  {
    s.rotUntil.Some? && s.rotUntil.value != 0.0
  }

  predicate RotOver(s: SeedNode, now: real)
  {
    s.expired && RotSet(s) && now >= s.rotUntil.value
  }

  predicate Bleeds(s: SeedNode, now: real)
  {
    s.expired && RotSet(s) && now < s.rotUntil.value
  }

  function NodeAfterTick(s: SeedNode, now: real): SeedNode
  {
    if Ripens(s, now) then s.(expired := true, rotUntil := Some(now + 4000.0)) else s
  }

  /** The map `tickPersistentSeeds` is building once the ids in `done` are ticked. */
  ghost predicate Ticked(u: map<string, Seed>, m: map<string, Seed>, done: seq<string>, env: TickEnv,
                         roll: string -> Draw)
  {
    && (forall k :: k in u <==> k in m)
    && (forall k :: k in m ==> u[k] == if k in done then SeedAfterTick(m[k], env, roll(k)) else m[k])
  }

  lemma TickedStep(u: map<string, Seed>, m: map<string, Seed>, done: seq<string>, env: TickEnv,
                   roll: string -> Draw, id: string)
    requires Ticked(u, m, done, env, roll) && id in m && id !in done
    ensures Ticked(u[id := SeedAfterTick(m[id], env, roll(id))], m, done + [id], env, roll)
  {
  }

  /** Once every id is ticked, the map is the ticked seeds and the store's seed
      table is kept. */
  lemma TickedAll(u: map<string, Seed>, m: map<string, Seed>, order: seq<string>, env: TickEnv,
                  roll: string -> Draw)
    requires Ticked(u, m, order, env, roll) && SeedTable(order, m)
    ensures u == map k | k in m :: SeedAfterTick(m[k], env, roll(k))
    ensures SeedTable(order, u)
  {
    forall k | k in m
      ensures 0.0 <= SeedAfterTick(m[k], env, roll(k)).food
      ensures SeedAfterTick(m[k], env, roll(k)).maturity <= 1.0
      ensures SeedAfterTick(m[k], env, roll(k)).id == k
    {
      SeedAfterTickSpec(m[k], env, roll(k));
    }
  }

  /** The legacy map after `tickSeeds(now)`. */
  function SeedsAliveAfter(m: map<string, SeedNode>, now: real): map<string, SeedNode>
  {
    map k | k in m && !RotOver(m[k], now) :: NodeAfterTick(m[k], now)
  }

  function RipeningIn(m: map<string, SeedNode>, ks: set<string>, now: real): set<string>
  {
    set k | k in ks && k in m && Ripens(m[k], now)
  }

  function BleedingIn(m: map<string, SeedNode>, ks: set<string>, now: real): set<string>
  {
    set k | k in ks && k in m && Bleeds(m[k], now)
  }

  /** The map `tickSeeds` is building once the keys outside `todo` are done. */
  ghost predicate Swept(u: map<string, SeedNode>, m: map<string, SeedNode>, todo: set<string>, now: real)
  {
    && (forall k :: k in u <==> k in m && (k in todo || !RotOver(m[k], now)))
    && (forall k :: k in u ==> u[k] == if k in todo then m[k] else NodeAfterTick(m[k], now))
  }

  /** The map after `tickSeeds` has handled key k. */
  function SweepEntry(u: map<string, SeedNode>, m: map<string, SeedNode>, k: string, now: real): map<string, SeedNode>
    requires k in m
  {
    if Ripens(m[k], now) then u[k := NodeAfterTick(m[k], now)]
    else if RotOver(m[k], now) then u - {k}
    else u
  }

  lemma SweepStep(u: map<string, SeedNode>, m: map<string, SeedNode>, todo: set<string>, k: string, now: real)
    requires Swept(u, m, todo, now) && k in todo && k in m
    ensures Swept(SweepEntry(u, m, k, now), m, todo - {k}, now)
  {
  }

  lemma SweptAll(u: map<string, SeedNode>, m: map<string, SeedNode>, now: real)
    requires Swept(u, m, {}, now)
    ensures u == SeedsAliveAfter(m, now)
  {
  }

  /** Taking one more key into account adds it to the ripening or bleeding
      count exactly when it ripens or bleeds. */
  lemma CountStep(m: map<string, SeedNode>, done: set<string>, k: string, now: real)
    requires k !in done
    ensures |RipeningIn(m, done + {k}, now)| ==
              |RipeningIn(m, done, now)| + (if k in m && Ripens(m[k], now) then 1 else 0)
    ensures |BleedingIn(m, done + {k}, now)| ==
              |BleedingIn(m, done, now)| + (if k in m && Bleeds(m[k], now) then 1 else 0)
  {
    if k in m && Ripens(m[k], now) {
      assert RipeningIn(m, done + {k}, now) == RipeningIn(m, done, now) + {k};
    } else {
      assert RipeningIn(m, done + {k}, now) == RipeningIn(m, done, now);
    }
    if k in m && Bleeds(m[k], now) {
      assert BleedingIn(m, done + {k}, now) == BleedingIn(m, done, now) + {k};
    } else {
      assert BleedingIn(m, done + {k}, now) == BleedingIn(m, done, now);
    }
  }

  function Repeat(e: Event, n: nat): (r: seq<Event>)
    ensures |r| == n && forall i :: 0 <= i < n ==> r[i] == e
  {
    if n == 0 then [] else Repeat(e, n - 1) + [e]
  }

  /** A seed ripens into rot for 4 s, rotting seeds bleed, rot that is over is
      removed, and nothing else changes; no seed is both ripening and removed. */
  lemma LegacyTickSpec(m: map<string, SeedNode>, now: real, k: string)
    requires k in m
    ensures k in SeedsAliveAfter(m, now) <==> !RotOver(m[k], now)
    ensures Ripens(m[k], now) ==>
              && k in SeedsAliveAfter(m, now)
              && SeedsAliveAfter(m, now)[k].expired && SeedsAliveAfter(m, now)[k].rotUntil == Some(now + 4000.0)
    ensures !Ripens(m[k], now) && !RotOver(m[k], now) ==> SeedsAliveAfter(m, now)[k] == m[k]
    ensures !(Ripens(m[k], now) && Bleeds(m[k], now)) && !(RotOver(m[k], now) && Bleeds(m[k], now))
  {
  }

  /** `IncrementSeed` run n times from the counters (s, a). */
  function SeedCounters(s: nat, a: nat, n: nat): (nat, nat)
  {
    if n == 0 then (s, a)
    else
      var p := SeedCounters(s, a, n - 1);
      (p.0 + 1, if (p.0 + 1) / 5 > p.0 / 5 then p.1 + 1 else p.1)
  }

  /** One awakening per five seeds: after n increments the awakened counter has
      grown by the number of multiples of 5 passed. */
  lemma {:induction false} OneAwakenedPerFiveSeeds(s: nat, a: nat, n: nat)
    ensures SeedCounters(s, a, n).0 == s + n
    ensures SeedCounters(s, a, n).1 == a + (s + n) / 5 - s / 5
  {
    if n > 0 {
      OneAwakenedPerFiveSeeds(s, a, n - 1);
      var k := s + n - 1;
      assert (k + 1) / 5 == k / 5 + (if (k + 1) % 5 == 0 then 1 else 0);
    }
  }

  class GardenStore {
    const bindings: EntropyBindings

    var entropyRaw: real
    var entropy: real
    var lastInteractionTime: real

    /** `persistentSeeds`, with its insertion order kept beside it. */
    var persistentSeeds: map<string, Seed>
    var seedOrder: seq<string>
    var persistentGods: map<string, God>

    var season: Season
    var seasonUntil: real
    var seasonCount: nat
    var stats: Stats
    var activeBoons: seq<ActiveBoon>
    var activePrices: seq<ActivePrice>
    var domainBias: Option<Domain>
    var omenCooldownUntil: real

    var runOver: bool
    var score: Option<real>
    var ending: Option<Ending>
    var lastScoreboard: seq<ScoreEntry>
    var history: seq<HistoryEntry>

    /** Legacy surface counters and maps. */
    var seeds: nat
    var awakened: nat
    var domainAlignments: Alignments
    var dominantGod: Option<Domain>
    var seedsAlive: map<string, SeedNode>
    var godsAlive: map<string, GodNode>

    /** The 4-second removal timers started for starved seeds, oldest first,
        and the number of 30-second StoneSleep timers started. */
    var pendingRemovals: seq<string>
    var stoneSleepTimers: nat

    ghost predicate Valid()
      reads this`entropyRaw, this`entropy, this`seedOrder, this`persistentSeeds
      reads this`lastScoreboard, this`domainAlignments
    {
      && Shows(entropyRaw, entropy)
      && SeedTable(seedOrder, persistentSeeds)
      && |lastScoreboard| <= ScoreboardSize
      && domainAlignments.flesh >= 0.0 && domainAlignments.stone >= 0.0
      && domainAlignments.ash >= 0.0 && domainAlignments.dream >= 0.0
    }

    /** The part of the state `modifyEntropy` works on. */
    function GaugeOf(): Gauge
      reads this`entropyRaw, this`entropy, bindings`lastEntropy
    {
      Gauge(entropyRaw, entropy, bindings.lastEntropy)
    }

    /** `calculateScore()` on the current state. */
    function CurrentScore(): (s: real)
      reads this
      ensures s >= 0.0
    {
      ScoreProperties(stats, entropy, seasonCount, 0);
      Score(stats, entropy, seasonCount)
    }

    /** `getEntropy()`: the shown value recomputed from raw. */
    function GetEntropy(): (e: real)
      reads this
      ensures 0.0 <= e <= 100.0
      ensures Valid() ==> e == entropy
    {
      Display(entropyRaw)
    }

    /** `entropyTier()` */
    function EntropyTier(): (t: Tier)
      reads this
      ensures Valid() ==> t == TierOf(entropy)
      ensures TierFloor(t) <= GetEntropy()
    {
      TierOf(GetEntropy())
    }

    /** The initial state; `clock` is the time the store is created. */
    constructor(b: EntropyBindings, clock: real)
      ensures Valid()
      ensures bindings == b
      ensures entropyRaw == 0.0 && entropy == 0.0 && lastInteractionTime == 0.0
      ensures persistentSeeds == map[] && seedOrder == [] && persistentGods == map[]
      ensures season == Spring && seasonUntil == clock + 45000.0 && seasonCount == 0
      ensures stats == Stats(0, 0, 0, 0, 0, 0) && activeBoons == [] && activePrices == []
      ensures domainBias == None && omenCooldownUntil == 0.0
      ensures !runOver && score == None && ending == None && lastScoreboard == [] && history == []
      ensures seeds == 0 && awakened == 0 && domainAlignments == Alignments(0.0, 0.0, 0.0, 0.0)
      ensures dominantGod == None && seedsAlive == map[] && godsAlive == map[]
      ensures pendingRemovals == [] && stoneSleepTimers == 0
    {
      bindings := b;
      entropyRaw, entropy, lastInteractionTime := 0.0, 0.0, 0.0;
      persistentSeeds, seedOrder, persistentGods := map[], [], map[];
      season, seasonUntil, seasonCount := Spring, clock + 45000.0, 0;
      stats := Stats(0, 0, 0, 0, 0, 0);
      activeBoons, activePrices := [], [];
      domainBias, omenCooldownUntil := None, 0.0;
      runOver, score, ending, lastScoreboard, history := false, None, None, [], [];
      seeds, awakened := 0, 0;
      domainAlignments, dominantGod := Alignments(0.0, 0.0, 0.0, 0.0), None;
      seedsAlive, godsAlive := map[], map[];
      pendingRemovals, stoneSleepTimers := [], 0;
      new;
      assert Display(0.0) == 0.0 by { DisplayExact(0); }
    }

    /** The notifications of `modifyEntropy`: the tier change, if any, then the
        binder's update with the new shown value. */
    method AnnounceEntropy(oldEntropy: real, newEntropy: real)
      modifies bindings`lastEntropy, bindings`audioLog, bindings`fxLog
      ensures bindings.lastEntropy == newEntropy
      ensures bindings.audioLog == old(bindings.audioLog) + TierChange(oldEntropy, newEntropy)
                                   + ThresholdEvents(old(bindings.lastEntropy), newEntropy)
      ensures bindings.fxLog == old(bindings.fxLog) + TierChange(oldEntropy, newEntropy)
                                + ThresholdEvents(old(bindings.lastEntropy), newEntropy)
    {
      var oldTier := TierOf(oldEntropy);
      var newTier := TierOf(newEntropy);
      ghost var a0, f0 := bindings.audioLog, bindings.fxLog;
      ghost var tc := TierChange(oldEntropy, newEntropy);
      if oldTier != newTier {
        bindings.Emit(TierExit(oldTier));
        bindings.Emit(TierEnter(newTier));
        assert [TierExit(oldTier)] + [TierEnter(newTier)] == tc;
        ConcatAssoc(a0, [TierExit(oldTier)], [TierEnter(newTier)]);
        ConcatAssoc(f0, [TierExit(oldTier)], [TierEnter(newTier)]);
      } else {
        assert a0 + tc == a0 && f0 + tc == f0;
      }
      assert bindings.audioLog == a0 + tc && bindings.fxLog == f0 + tc;
      ghost var th := ThresholdEvents(bindings.lastEntropy, newEntropy);
      bindings.UpdateEntropy(newEntropy);
      assert bindings.audioLog == a0 + tc + th;
    }

    /** `modifyEntropy(delta)`: raw moves by delta but not below 0, the shown value
        is raw rounded and clamped, the tier change (if any) is announced, then
        the binder hears the new shown value. */
    method ModifyEntropy(delta: real, clock: real)
      requires Valid()
      modifies this`entropyRaw, this`entropy, this`lastInteractionTime
      modifies bindings`lastEntropy, bindings`audioLog, bindings`fxLog
      ensures Valid()
      ensures GaugeOf() == Modify(old(GaugeOf()), delta)
      ensures bindings.audioLog == old(bindings.audioLog) + ModifyEvents(old(GaugeOf()), delta)
      ensures bindings.fxLog == old(bindings.fxLog) + ModifyEvents(old(GaugeOf()), delta)
      ensures lastInteractionTime == clock
    {
      var newRaw := Max(0.0, entropyRaw + delta);
      var newEntropy := Min(100.0, Max(0.0, Round2(newRaw)));
      assert newEntropy == Display(newRaw);
      ghost var g := GaugeOf();
      assert Modify(g, delta) == Gauge(newRaw, newEntropy, newEntropy);
      assert ModifyEvents(g, delta) == TierChange(g.shown, newEntropy) + ThresholdEvents(g.heard, newEntropy);
      ghost var a0, f0 := bindings.audioLog, bindings.fxLog;
      AnnounceEntropy(entropy, newEntropy);
      ConcatAssoc(a0, TierChange(g.shown, newEntropy), ThresholdEvents(g.heard, newEntropy));
      ConcatAssoc(f0, TierChange(g.shown, newEntropy), ThresholdEvents(g.heard, newEntropy));
      entropyRaw := newRaw;
      entropy := newEntropy;
      lastInteractionTime := clock;
    }

    /** An entropy change followed by two announcements, the tail shared by
        `feedSeed` and `attemptAwakening`. */
    method ModifyThenEmit(delta: real, clock: real, e1: Event, e2: Event)
      requires Valid()
      requires PassThrough(e1) && PassThrough(e2)
      modifies this`entropyRaw, this`entropy, this`lastInteractionTime
      modifies bindings`lastEntropy, bindings`audioLog, bindings`fxLog
      ensures Valid()
      ensures GaugeOf() == Modify(old(GaugeOf()), delta)
      ensures bindings.audioLog == old(bindings.audioLog) + ModifyEvents(old(GaugeOf()), delta) + [e1, e2]
      ensures bindings.fxLog == old(bindings.fxLog) + ModifyEvents(old(GaugeOf()), delta) + [e1, e2]
      ensures lastInteractionTime == clock
    {
      ModifyEntropy(delta, clock);
      ghost var a1, f1 := bindings.audioLog, bindings.fxLog;
      bindings.Emit(e1);
      bindings.Emit(e2);
      assert [e1] + [e2] == [e1, e2];
      ConcatAssoc(a1, [e1], [e2]);
      ConcatAssoc(f1, [e1], [e2]);
    }

    /** `spawnPersistentSeed(x, y, hint)`; `id` is the fresh id the source builds
        from the clock and a random suffix, and `riskDraw` its risk draw. */
    method SpawnPersistentSeed(x: real, y: real, hint: Option<Domain>, id: string, clock: real, riskDraw: Draw)
      returns (r: string)
      requires Valid()
      modifies this`persistentSeeds, this`seedOrder, bindings`audioLog, bindings`fxLog
      ensures Valid()
      ensures r == id
      ensures persistentSeeds == old(persistentSeeds)[id := NewSeed(id, x, y, hint, clock, riskDraw)]
      ensures seedOrder == if id in old(persistentSeeds) then old(seedOrder) else old(seedOrder) + [id]
      ensures bindings.audioLog == old(bindings.audioLog) + [SeedSpawn]
      ensures bindings.fxLog == old(bindings.fxLog) + [SeedSpawn]
    {
      var seed := NewSeed(id, x, y, hint, clock, riskDraw);
      if id !in persistentSeeds {
        seedOrder := seedOrder + [id];
      }
      persistentSeeds := persistentSeeds[id := seed];
      bindings.Emit(SeedSpawn);
      r := id;
    }

    /** The state update of `feedSeed`: only a live seed is fed and counted. */
    method FeedPersistent(id: string, now: real)
      requires Valid()
      modifies this`persistentSeeds, this`stats
      ensures Valid()
      ensures id !in old(persistentSeeds) || old(persistentSeeds)[id].IsTerminal() ==>
                persistentSeeds == old(persistentSeeds) && stats == old(stats)
      ensures id in old(persistentSeeds) && !old(persistentSeeds)[id].IsTerminal() ==>
                && persistentSeeds == old(persistentSeeds)[id := FedSeed(old(persistentSeeds)[id], now)]
                && stats == old(stats).(harvested := old(stats).harvested + 1)
    {
      if id in persistentSeeds && !persistentSeeds[id].IsTerminal() {
        persistentSeeds := persistentSeeds[id := FedSeed(persistentSeeds[id], now)];
        stats := stats.(harvested := stats.harvested + 1);
      }
    }

    /** `feedSeed(id, now)`: a live seed is fed and counted as harvested; an
        absent, STARVED or AWAKENED seed is left alone, but the entropy change
        and the two events happen in every case. */
    method FeedSeed(id: string, now: real, clock: real)
      requires Valid()
      modifies this`persistentSeeds, this`stats
      modifies this`entropyRaw, this`entropy, this`lastInteractionTime
      modifies bindings`lastEntropy, bindings`audioLog, bindings`fxLog
      ensures Valid()
      ensures id !in old(persistentSeeds) || old(persistentSeeds)[id].IsTerminal() ==>
                persistentSeeds == old(persistentSeeds) && stats == old(stats)
      ensures id in old(persistentSeeds) && !old(persistentSeeds)[id].IsTerminal() ==>
                && persistentSeeds == old(persistentSeeds)[id := FedSeed(old(persistentSeeds)[id], now)]
                && stats == old(stats).(harvested := old(stats).harvested + 1)
      ensures GaugeOf() == Modify(old(GaugeOf()), -0.03)
      ensures bindings.audioLog == old(bindings.audioLog) + ModifyEvents(old(GaugeOf()), -0.03) + [SeedClickViable, SeedFeed]
      ensures bindings.fxLog == old(bindings.fxLog) + ModifyEvents(old(GaugeOf()), -0.03) + [SeedClickViable, SeedFeed]
      ensures lastInteractionTime == clock
    {
      FeedPersistent(id, now);
      ModifyThenEmit(-0.03, clock, SeedClickViable, SeedFeed);
    }

    /** The environment one tick reads at its start. */
    function TickEnvOf(dt: real, now: real): TickEnv
      reads this
    {
      TickEnv(season, entropy, domainBias, activeBoons, dt, now)
    }

    /** A starving seed: its expiry and starvation are announced, entropy rises
        by 0.12 and a removal timer starts. */
    method StarveSeed(id: string, clock: real)
      requires Valid()
      modifies this`pendingRemovals
      modifies this`entropyRaw, this`entropy, this`lastInteractionTime
      modifies bindings`lastEntropy, bindings`audioLog, bindings`fxLog
      ensures Valid()
      ensures GaugeOf() == Modify(old(GaugeOf()), StarveEntropy)
      ensures bindings.audioLog == old(bindings.audioLog) + [SeedExpire, SeedStarve]
                                   + ModifyEvents(old(GaugeOf()), StarveEntropy)
      ensures bindings.fxLog == old(bindings.fxLog) + [SeedExpire, SeedStarve]
                                + ModifyEvents(old(GaugeOf()), StarveEntropy)
      ensures pendingRemovals == old(pendingRemovals) + [id]
      ensures lastInteractionTime == clock
    {
      ghost var a0, f0, g0 := bindings.audioLog, bindings.fxLog, GaugeOf();
      bindings.Emit(SeedExpire);
      bindings.Emit(SeedStarve);
      assert [SeedExpire] + [SeedStarve] == [SeedExpire, SeedStarve];
      ConcatAssoc(a0, [SeedExpire], [SeedStarve]);
      ConcatAssoc(f0, [SeedExpire], [SeedStarve]);
      assert GaugeOf() == g0;
      ghost var a1, f1 := bindings.audioLog, bindings.fxLog;
      ModifyEntropy(StarveEntropy, clock);
      assert bindings.audioLog == a1 + ModifyEvents(g0, StarveEntropy);
      assert bindings.fxLog == f1 + ModifyEvents(g0, StarveEntropy);
      pendingRemovals := pendingRemovals + [id];
    }

    /** One seed's turn in `tickPersistentSeeds`: `r` is its starvation draw. */
    method TickOneSeed(id: string, env: TickEnv, r: Draw, clock: real) returns (next: Seed)
      requires Valid() && id in persistentSeeds
      modifies this`pendingRemovals
      modifies this`entropyRaw, this`entropy, this`lastInteractionTime
      modifies bindings`lastEntropy, bindings`audioLog, bindings`fxLog
      ensures Valid()
      ensures next == SeedAfterTick(persistentSeeds[id], env, r)
      ensures var s := persistentSeeds[id];
              var own := SeedTickEvents(s, env, r);
              && (Starves(s, env, r) ==>
                    && GaugeOf() == Modify(old(GaugeOf()), StarveEntropy)
                    && bindings.audioLog == old(bindings.audioLog) + own + ModifyEvents(old(GaugeOf()), StarveEntropy)
                    && bindings.fxLog == old(bindings.fxLog) + own + ModifyEvents(old(GaugeOf()), StarveEntropy)
                    && pendingRemovals == old(pendingRemovals) + [id]
                    && lastInteractionTime == clock)
              && (!Starves(s, env, r) ==>
                    && GaugeOf() == old(GaugeOf())
                    && bindings.audioLog == old(bindings.audioLog) + own
                    && bindings.fxLog == old(bindings.fxLog) + own
                    && pendingRemovals == old(pendingRemovals)
                    && lastInteractionTime == old(lastInteractionTime))
    {
      var seed := persistentSeeds[id];
      ghost var own := SeedTickEvents(seed, env, r);
      ghost var a0, f0 := bindings.audioLog, bindings.fxLog;
      ghost var g0 := GaugeOf();
      var starves := Starves(seed, env, r);
      next := SeedAfterTick(seed, env, r);
      if !seed.IsTerminal() {
        ghost var ripe: seq<Event> := [];
        if NewlyMature(seed, env) {
          bindings.Emit(SeedMature);
          ripe := [SeedMature];
        }
        assert ripe == if NewlyMature(seed, env) then [SeedMature] else [];
        assert bindings.audioLog == a0 + ripe && bindings.fxLog == f0 + ripe;
        if starves {
          assert own == ripe + [SeedExpire, SeedStarve];
          assert GaugeOf() == g0;
          StarveSeed(id, clock);
          ConcatAssoc(a0, ripe, [SeedExpire, SeedStarve]);
          ConcatAssoc(f0, ripe, [SeedExpire, SeedStarve]);
        } else {
          assert own == ripe + [] == ripe;
        }
      } else {
        assert own == [] && a0 + [] == a0 && f0 + [] == f0;
      }
    }

    /** The loop of `tickPersistentSeeds` over the seeds in insertion order,
        against the environment `env` read before it; the ticked copy is
        returned and the store's own map is not yet replaced. */
    method TickLoop(env: TickEnv, roll: string -> Draw, clock: real) returns (updated: map<string, Seed>)
      requires Valid()
      modifies this`pendingRemovals
      modifies this`entropyRaw, this`entropy, this`lastInteractionTime
      modifies bindings`lastEntropy, bindings`audioLog, bindings`fxLog
      ensures Valid()
      ensures Ticked(updated, persistentSeeds, seedOrder, env, roll)
      ensures var out := TickFold(seedOrder, persistentSeeds, env, roll, old(GaugeOf()));
              && GaugeOf() == out.gauge
              && bindings.audioLog == old(bindings.audioLog) + out.events
              && bindings.fxLog == old(bindings.fxLog) + out.events
              && pendingRemovals == old(pendingRemovals) + out.starved
              && (out.starved == [] ==> lastInteractionTime == old(lastInteractionTime))
              && (out.starved != [] ==> lastInteractionTime == clock)
    {
      var seeds0 := persistentSeeds;
      updated := persistentSeeds;
      ghost var g0 := GaugeOf();
      ghost var audio0 := bindings.audioLog;
      ghost var fx0 := bindings.fxLog;
      ghost var pending0 := pendingRemovals;
      ghost var time0 := lastInteractionTime;
      var i := 0;
      while i < |seedOrder|
        invariant 0 <= i <= |seedOrder|
        invariant Valid() && persistentSeeds == seeds0
        invariant Ticked(updated, seeds0, seedOrder[..i], env, roll)
        invariant var out := TickFold(seedOrder[..i], seeds0, env, roll, g0);
                  && GaugeOf() == out.gauge
                  && bindings.audioLog == audio0 + out.events
                  && bindings.fxLog == fx0 + out.events
                  && pendingRemovals == pending0 + out.starved
                  && (out.starved == [] ==> lastInteractionTime == time0)
                  && (out.starved != [] ==> lastInteractionTime == clock)
      {
        var id := seedOrder[i];
        TakeSnoc(seedOrder, i);
        assert id !in seedOrder[..i];
        ghost var acc := TickFold(seedOrder[..i], seeds0, env, roll, g0);
        ghost var own := SeedTickEvents(seeds0[id], env, roll(id));
        ghost var out := TickFold(seedOrder[..i + 1], seeds0, env, roll, g0);
        TickFoldSnoc(seedOrder[..i], seeds0, env, roll, g0, id);
        var next := TickOneSeed(id, env, roll(id), clock);
        if Starves(seeds0[id], env, roll(id)) {
          ghost var me := ModifyEvents(acc.gauge, StarveEntropy);
          assert out == TickOutcome(acc.events + own + me, Modify(acc.gauge, StarveEntropy), acc.starved + [id]);
          ConcatAssoc(audio0, acc.events, own);
          ConcatAssoc(audio0, acc.events + own, me);
          ConcatAssoc(fx0, acc.events, own);
          ConcatAssoc(fx0, acc.events + own, me);
          ConcatAssoc(pending0, acc.starved, [id]);
        } else {
          assert out == TickOutcome(acc.events + own, acc.gauge, acc.starved);
          ConcatAssoc(audio0, acc.events, own);
          ConcatAssoc(fx0, acc.events, own);
        }
        TickedStep(updated, seeds0, seedOrder[..i], env, roll, id);
        updated := updated[id := next];
        i := i + 1;
      }
      assert seedOrder[..i] == seedOrder;
    }


    /** `tickPersistentSeeds(dt, now)`: every seed is ticked against the season,
        entropy, bias and boons read before the loop; `roll(id)` is the
        starvation draw of seed id. Each starvation raises entropy by 0.12 and
        starts a removal timer. */
    method TickPersistentSeeds(dt: real, now: real, roll: string -> Draw, clock: real)
      requires Valid()
      modifies this`persistentSeeds, this`pendingRemovals
      modifies this`entropyRaw, this`entropy, this`lastInteractionTime
      modifies bindings`lastEntropy, bindings`audioLog, bindings`fxLog
      ensures Valid()
      ensures persistentSeeds == map k | k in old(persistentSeeds) ::
                SeedAfterTick(old(persistentSeeds)[k], old(TickEnvOf(dt, now)), roll(k))
      ensures var out := TickFold(old(seedOrder), old(persistentSeeds), old(TickEnvOf(dt, now)), roll, old(GaugeOf()));
              && GaugeOf() == out.gauge
              && bindings.audioLog == old(bindings.audioLog) + out.events
              && bindings.fxLog == old(bindings.fxLog) + out.events
              && pendingRemovals == old(pendingRemovals) + out.starved
              && (out.starved == [] ==> lastInteractionTime == old(lastInteractionTime))
              && (out.starved != [] ==> lastInteractionTime == clock)
    {
      var env := TickEnvOf(dt, now);
      var updated := TickLoop(env, roll, clock);
      TickedAll(updated, persistentSeeds, seedOrder, env, roll);
      persistentSeeds := updated;
    }

    /** The awakening itself: the seed leaves the garden and its god joins it. */
    method AwakenSeed(id: string, now: real, domainDraw: Draw, favorDraw: Draw, priceDraw: Draw, godId: string)
      requires Valid() && id in persistentSeeds
      modifies this`persistentSeeds, this`seedOrder, this`persistentGods, this`stats
      ensures Valid()
      ensures persistentSeeds == old(persistentSeeds) - {id}
      ensures seedOrder == RemoveId(old(seedOrder), id)
      ensures persistentGods == old(persistentGods)[godId :=
                AwakenedGod(old(persistentSeeds)[id], godId, now, domainDraw, favorDraw, priceDraw)]
      ensures stats == old(stats).(awakened := old(stats).awakened + 1)
    {
      var seed := persistentSeeds[id];
      var god := AwakenedGod(seed, godId, now, domainDraw, favorDraw, priceDraw);
      persistentSeeds := persistentSeeds - {seed.id};
      seedOrder := RemoveId(seedOrder, seed.id);
      persistentGods := persistentGods[god.id := god];
      stats := stats.(awakened := stats.awakened + 1);
    }

    /** `attemptAwakening(now)`: one MATURE seed, picked with `pick` among the
        mature seeds in insertion order, becomes a god when `chance` is below the
        awakening probability. The entropy change and the two god events happen
        whether or not a seed awakens. */
    method AttemptAwakening(now: real, pick: Draw, chance: Draw, domainDraw: Draw, favorDraw: Draw,
                            priceDraw: Draw, godId: string, clock: real)
      requires Valid()
      modifies this`persistentSeeds, this`seedOrder, this`persistentGods, this`stats
      modifies this`entropyRaw, this`entropy, this`lastInteractionTime
      modifies bindings`lastEntropy, bindings`audioLog, bindings`fxLog
      ensures Valid()
      ensures var mature := MatureIds(old(seedOrder), old(persistentSeeds));
              var awakens := mature != [] &&
                  chance < AwakenProbability(old(domainBias), old(entropy), old(activeBoons));
              && (!awakens ==>
                    && persistentSeeds == old(persistentSeeds) && seedOrder == old(seedOrder)
                    && persistentGods == old(persistentGods) && stats == old(stats))
              && (awakens ==>
                    var id := mature[Pick(pick, |mature|)];
                    var seed := old(persistentSeeds)[id];
                    && seed.state == Mature
                    && persistentSeeds == old(persistentSeeds) - {id}
                    && seedOrder == RemoveId(old(seedOrder), id)
                    && persistentGods == old(persistentGods)[godId :=
                         AwakenedGod(seed, godId, now, domainDraw, favorDraw, priceDraw)]
                    && stats == old(stats).(awakened := old(stats).awakened + 1))
      ensures GaugeOf() == Modify(old(GaugeOf()), -0.05)
      ensures bindings.audioLog == old(bindings.audioLog) + ModifyEvents(old(GaugeOf()), -0.05) + [GodSpawn, GodAwaken]
      ensures bindings.fxLog == old(bindings.fxLog) + ModifyEvents(old(GaugeOf()), -0.05) + [GodSpawn, GodAwaken]
      ensures lastInteractionTime == clock
    {
      var mature := MatureIds(seedOrder, persistentSeeds);
      if |mature| > 0 {
        var id := mature[Pick(pick, |mature|)];
        var p := AwakenProbability(domainBias, entropy, activeBoons);
        if chance < p {
          AwakenSeed(id, now, domainDraw, favorDraw, priceDraw, godId);
        }
      }
      ModifyThenEmit(-0.05, clock, GodSpawn, GodAwaken);
    }

    /** `tickSeasons(now)`: nothing before `seasonUntil`; then the next season in
        the cycle, a new end 45 to 70 s away (`durDraw` is its draw), the season
        count bumped on the wrap to SPRING, and the season announced. */
    method TickSeasons(now: real, durDraw: Draw)
      modifies this`season, this`seasonUntil, this`seasonCount, bindings`audioLog, bindings`fxLog
      ensures now < old(seasonUntil) ==>
                && season == old(season) && seasonUntil == old(seasonUntil) && seasonCount == old(seasonCount)
                && bindings.audioLog == old(bindings.audioLog) && bindings.fxLog == old(bindings.fxLog)
      ensures now >= old(seasonUntil) ==>
                && season == NextSeason(old(season))
                && seasonCount == old(seasonCount) + (if season == Spring then 1 else 0)
                && now + 45000.0 <= seasonUntil < now + 70000.0
                && seasonUntil == SeasonEnd(now, durDraw)
                && bindings.audioLog == old(bindings.audioLog) + [SeasonEnter(season)]
                && bindings.fxLog == old(bindings.fxLog) + [SeasonEnter(season)]
    {
      if now >= seasonUntil {
        var nextIndex := (SeasonIndex(season) + 1) % |Seasons|;
        var next := Seasons[nextIndex];
        var newCount := if nextIndex == 0 then seasonCount + 1 else seasonCount;
        bindings.Emit(SeasonEnter(next));
        season := next;
        seasonUntil := now + 45000.0 + durDraw * 25000.0;
        seasonCount := newCount;
      }
    }

    /** `endRun(ending)`; the scoreboard timestamp is the clock. */
    method EndRun(e: Ending, clock: real)
      requires Valid()
      modifies this`runOver, this`score, this`ending, this`lastScoreboard, bindings`audioLog, bindings`fxLog
      ensures Valid()
      ensures runOver && ending == Some(e) && score == Some(old(CurrentScore()))
      ensures lastScoreboard == Last5(old(lastScoreboard) + [ScoreEntry(old(CurrentScore()), clock)])
      ensures bindings.audioLog == old(bindings.audioLog) + [OmenTrigger, GameEnd(e.kind)]
      ensures bindings.fxLog == old(bindings.fxLog) + [OmenTrigger, GameEnd(e.kind)]
    {
      var s := CurrentScore();
      var board := lastScoreboard;
      runOver := true;
      score := Some(s);
      ending := Some(e);
      lastScoreboard := Last5(board + [ScoreEntry(s, clock)]);
      bindings.Emit(OmenTrigger);
      bindings.Emit(GameEnd(e.kind));
    }

    /** `checkEndings(now)`: the first ending whose condition holds is declared,
        even on a run that is already over; with no seeds and no gods on a live
        run, a StoneSleep timer is started instead. */
    method CheckEndings(now: real, clock: real)
      requires Valid()
      modifies this`runOver, this`score, this`ending, this`lastScoreboard, this`stoneSleepTimers
      modifies bindings`audioLog, bindings`fxLog
      ensures Valid()
      ensures var due := EndingDue(old(stats), old(entropy), old(seasonCount));
              && (due.Some? ==>
                    && runOver && score == Some(old(CurrentScore()))
                    && ending == Some(Ending(due.value, old(CurrentScore()), now))
                    && lastScoreboard == Last5(old(lastScoreboard) + [ScoreEntry(old(CurrentScore()), clock)])
                    && bindings.audioLog == old(bindings.audioLog) + [OmenTrigger, GameEnd(due.value)]
                    && bindings.fxLog == old(bindings.fxLog) + [OmenTrigger, GameEnd(due.value)]
                    && stoneSleepTimers == old(stoneSleepTimers))
              && (due.None? ==>
                    && runOver == old(runOver) && score == old(score) && ending == old(ending)
                    && lastScoreboard == old(lastScoreboard)
                    && bindings.audioLog == old(bindings.audioLog) && bindings.fxLog == old(bindings.fxLog)
                    && stoneSleepTimers == old(stoneSleepTimers)
                         + (if |persistentSeeds| == 0 && |persistentGods| == 0 && !old(runOver) then 1 else 0))
    {
      if stats.awakened >= 15 && entropy < 15.0 && seasonCount >= 3 {
        EndRun(Ending(AscendantChorus, CurrentScore(), now), clock);
        return;
      }
      if stats.starved >= 50 || (entropy >= 95.0 && seasonCount >= 2) {
        EndRun(Ending(GardenFamine, CurrentScore(), now), clock);
        return;
      }
      if |persistentSeeds| == 0 && |persistentGods| == 0 {
        if !runOver {
          stoneSleepTimers := stoneSleepTimers + 1;
        }
      }
    }

    /** A StoneSleep timer fires 30 s after it was started: the run ends in
        StoneSleep if there are still no seeds and no gods. */
    method StoneSleepTimerFires(clock: real)
      requires Valid() && stoneSleepTimers > 0
      modifies this`runOver, this`score, this`ending, this`lastScoreboard, this`stoneSleepTimers
      modifies bindings`audioLog, bindings`fxLog
      ensures Valid()
      ensures stoneSleepTimers == old(stoneSleepTimers) - 1
      ensures |persistentSeeds| == 0 && |persistentGods| == 0 ==>
                && runOver && ending == Some(Ending(StoneSleep, old(CurrentScore()), clock))
                && lastScoreboard == Last5(old(lastScoreboard) + [ScoreEntry(old(CurrentScore()), clock)])
                && score == Some(old(CurrentScore()))
                && bindings.audioLog == old(bindings.audioLog) + [OmenTrigger, GameEnd(StoneSleep)]
                && bindings.fxLog == old(bindings.fxLog) + [OmenTrigger, GameEnd(StoneSleep)]
      ensures !(|persistentSeeds| == 0 && |persistentGods| == 0) ==>
                && runOver == old(runOver) && ending == old(ending) && score == old(score)
                && lastScoreboard == old(lastScoreboard)
                && bindings.audioLog == old(bindings.audioLog) && bindings.fxLog == old(bindings.fxLog)
    {
      stoneSleepTimers := stoneSleepTimers - 1;
      if |persistentSeeds| == 0 && |persistentGods| == 0 {
        EndRun(Ending(StoneSleep, CurrentScore(), clock), clock);
      }
    }

    /** The oldest removal timer of a starved seed fires: the seed is deleted. */
    method RemovalTimerFires()
      requires Valid() && pendingRemovals != []
      modifies this`persistentSeeds, this`seedOrder, this`pendingRemovals
      ensures Valid()
      ensures pendingRemovals == old(pendingRemovals)[1..]
      ensures persistentSeeds == old(persistentSeeds) - {old(pendingRemovals)[0]}
      ensures seedOrder == RemoveId(old(seedOrder), old(pendingRemovals)[0])
    {
      var id := pendingRemovals[0];
      pendingRemovals := pendingRemovals[1..];
      persistentSeeds := persistentSeeds - {id};
      seedOrder := RemoveId(seedOrder, id);
    }

    /** `triggerOmen()` at time `clock`: refused during the 10 s cooldown;
        otherwise it starts a new cooldown, announces the omen, logs one of the
        four omen lines (`lineDraw` picks it) and releases 0.8 entropy. */
    method TriggerOmen(clock: real, lineDraw: Draw) returns (fired: bool)
      requires Valid()
      modifies this`omenCooldownUntil, this`history
      modifies this`entropyRaw, this`entropy, this`lastInteractionTime
      modifies bindings`lastEntropy, bindings`audioLog, bindings`fxLog
      ensures Valid()
      ensures fired <==> clock >= old(omenCooldownUntil)
      ensures !fired ==>
                && omenCooldownUntil == old(omenCooldownUntil) && history == old(history)
                && GaugeOf() == old(GaugeOf()) && lastInteractionTime == old(lastInteractionTime)
                && bindings.audioLog == old(bindings.audioLog) && bindings.fxLog == old(bindings.fxLog)
      ensures fired ==>
                && omenCooldownUntil == clock + OmenCooldown
                && history == old(history) + [HistoryEntry(-1, OmenLines[Pick(lineDraw, 4)], clock)]
                && GaugeOf() == Modify(old(GaugeOf()), -0.8)
                && bindings.audioLog == old(bindings.audioLog) + [OmenTrigger] + ModifyEvents(old(GaugeOf()), -0.8)
                && bindings.fxLog == old(bindings.fxLog) + [OmenTrigger] + ModifyEvents(old(GaugeOf()), -0.8)
    {
      if clock < omenCooldownUntil {
        return false;
      }
      omenCooldownUntil := clock + OmenCooldown;
      bindings.Emit(OmenTrigger);
      history := history + [HistoryEntry(-1, OmenLines[Pick(lineDraw, |OmenLines|)], clock)];
      ModifyEntropy(-0.8, clock);
      return true;
    }

    /** `decay(now)`: after more than 3 s without an entropy change, entropy
        decays by a small amount scaled by Stillness or Tithed Breath; then the
        expired boons and prices are dropped. */
    method Decay(now: real, clock: real)
      requires Valid()
      modifies this`activeBoons, this`activePrices
      modifies this`entropyRaw, this`entropy, this`lastInteractionTime
      modifies bindings`lastEntropy, bindings`audioLog, bindings`fxLog
      ensures Valid()
      ensures activeBoons == LiveBoons(old(activeBoons), now)
      ensures activePrices == LivePrices(old(activePrices), now)
      ensures var idle := now - old(lastInteractionTime) > IdleWindow;
              var d := DecayDelta(old(activeBoons), old(activePrices), now);
              && (idle ==> GaugeOf() == Modify(old(GaugeOf()), d)
                           && bindings.audioLog == old(bindings.audioLog) + ModifyEvents(old(GaugeOf()), d)
                           && bindings.fxLog == old(bindings.fxLog) + ModifyEvents(old(GaugeOf()), d)
                           && lastInteractionTime == clock)
              && (!idle ==> GaugeOf() == old(GaugeOf()) && bindings.audioLog == old(bindings.audioLog)
                            && bindings.fxLog == old(bindings.fxLog)
                            && lastInteractionTime == old(lastInteractionTime))
    {
      if now - lastInteractionTime > IdleWindow {
        var decayDelta := DecayDelta(activeBoons, activePrices, now);
        if decayDelta < 0.0 {
          ModifyEntropy(decayDelta, clock);
        }
      }
      activeBoons := LiveBoons(activeBoons, now);
      activePrices := LivePrices(activePrices, now);
    }

    /** `incrementSeed()`: one more seed, and one more awakened whenever the seed
        count reaches a multiple of 5. */
    method IncrementSeed()
      modifies this`seeds, this`awakened
      ensures (seeds, awakened) == SeedCounters(old(seeds), old(awakened), 1)
      ensures seeds == old(seeds) + 1
      ensures awakened == old(awakened) + (if seeds % 5 == 0 then 1 else 0)
    {
      var newSeeds := seeds + 1;
      var newAwakened := if newSeeds / 5 > seeds / 5 then awakened + 1 else awakened;
      assert newSeeds / 5 == seeds / 5 + (if newSeeds % 5 == 0 then 1 else 0);
      seeds, awakened := newSeeds, newAwakened;
    }

    /** `determineDominantGod()` */
    method DetermineDominantGod()
      modifies this`dominantGod
      ensures dominantGod == DominantDomain(domainAlignments)
    {
      var total := domainAlignments.Total();
      if total == 0.0 {
        dominantGod := None;
        return;
      }
      dominantGod := FirstWithShare(domainAlignments, DomainOrder);
    }

    /** `updateDomainAlignment(domain, delta)`: the alignment moves by delta but
        not below 0, and the dominant god is recomputed. */
    method UpdateDomainAlignment(d: Domain, delta: real)
      requires Valid()
      modifies this`domainAlignments, this`dominantGod
      ensures Valid()
      ensures domainAlignments.Get(d) == Max(0.0, old(domainAlignments).Get(d) + delta)
      ensures forall e :: e != d ==> domainAlignments.Get(e) == old(domainAlignments).Get(e)
      ensures dominantGod == DominantDomain(domainAlignments)
    {
      domainAlignments := domainAlignments.Set(d, Max(0.0, domainAlignments.Get(d) + delta));
      assert domainAlignments.Get(Flesh) >= 0.0 && domainAlignments.Get(Stone) >= 0.0;
      assert domainAlignments.Get(Ash) >= 0.0 && domainAlignments.Get(Dream) >= 0.0;
      DetermineDominantGod();
    }

    /** `clickGod(id, now)` on a legacy god: ignored when absent or cooling down;
        otherwise a 12 s cooldown starts and the awaken flag and god spawn are
        announced. */
    method ClickGod(id: string, now: real)
      modifies this`godsAlive, bindings`audioLog, bindings`fxLog
      ensures id !in old(godsAlive) || now < old(godsAlive)[id].cooldownUntil ==>
                godsAlive == old(godsAlive)
                && bindings.audioLog == old(bindings.audioLog) && bindings.fxLog == old(bindings.fxLog)
      ensures id in old(godsAlive) && now >= old(godsAlive)[id].cooldownUntil ==>
                && godsAlive == old(godsAlive)[id := old(godsAlive)[id].(cooldownUntil := now + GodClickCooldown)]
                && bindings.audioLog == old(bindings.audioLog) + [AwakenFlag, GodSpawn]
                && bindings.fxLog == old(bindings.fxLog) + [AwakenFlag, GodSpawn]
    {
      if id !in godsAlive || now < godsAlive[id].cooldownUntil {
        return;
      }
      var god := godsAlive[id];
      godsAlive := godsAlive[id := god.(cooldownUntil := now + GodClickCooldown)];
      bindings.Emit(AwakenFlag);
      bindings.Emit(GodSpawn);
    }

    /** One entry of the `tickSeeds` loop: a ripening seed turns to rot and is
        announced, rot that is over is dropped, a rotting seed adds its bleed. */
    method SweepOne(u: map<string, SeedNode>, k: string, seed: SeedNode, now: real, delta: real)
      returns (u': map<string, SeedNode>, delta': real)
      modifies bindings`audioLog, bindings`fxLog
      ensures u' == SweepEntry(u, map[k := seed], k, now)
      ensures delta' == delta + (if Bleeds(seed, now) then RotBleed else 0.0)
      ensures bindings.audioLog == old(bindings.audioLog) + (if Ripens(seed, now) then [SeedExpire] else [])
      ensures bindings.fxLog == old(bindings.fxLog) + (if Ripens(seed, now) then [SeedExpire] else [])
    {
      u', delta' := u, delta;
      if !seed.expired && now - seed.bornAt >= seed.viableMs {
        u' := u[k := seed.(expired := true, rotUntil := Some(now + 4000.0))];
        bindings.Emit(SeedExpire);
      } else if seed.expired && RotSet(seed) && now >= seed.rotUntil.value {
        u' := u - {k};
      } else if seed.expired && RotSet(seed) {
        delta' := delta + RotBleed;
      } else {
        assert bindings.audioLog + [] == bindings.audioLog;
      }
    }

    /** What the `tickSeeds` loop has built once the keys in `done` are
        visited: the map, the bleed so far, and one expire event per ripening
        seed visited. */
    ghost predicate SweepInv(m0: map<string, SeedNode>, now: real, updated: map<string, SeedNode>,
                             entropyDelta: real, todo: set<string>, done: set<string>,
                             audio0: seq<Event>, fx0: seq<Event>)
      reads this, bindings
    {
      && todo + done == m0.Keys && todo !! done
      && Swept(updated, m0, todo, now)
      && bindings.audioLog == audio0 + Repeat(SeedExpire, |RipeningIn(m0, done, now)|)
      && bindings.fxLog == fx0 + Repeat(SeedExpire, |RipeningIn(m0, done, now)|)
      && entropyDelta == |BleedingIn(m0, done, now)| as real * RotBleed
    }

    /** One pass of the `tickSeeds` loop, on key k. */
    method SweepVisit(m0: map<string, SeedNode>, now: real, updated: map<string, SeedNode>, entropyDelta: real,
                      todo: set<string>, ghost done: set<string>, ghost audio0: seq<Event>, ghost fx0: seq<Event>,
                      k: string)
      returns (updated': map<string, SeedNode>, entropyDelta': real)
      requires k in todo && SweepInv(m0, now, updated, entropyDelta, todo, done, audio0, fx0)
      modifies bindings`audioLog, bindings`fxLog
      ensures SweepInv(m0, now, updated', entropyDelta', todo - {k}, done + {k}, audio0, fx0)
    {
      var seed := m0[k];
      ghost var ripe := |RipeningIn(m0, done, now)|;
      CountStep(m0, done, k, now);
      SweepStep(updated, m0, todo, k, now);
      ghost var r := if Ripens(seed, now) then [SeedExpire] else [];
      updated', entropyDelta' := SweepOne(updated, k, seed, now, entropyDelta);
      ConcatAssoc(audio0, Repeat(SeedExpire, ripe), r);
      ConcatAssoc(fx0, Repeat(SeedExpire, ripe), r);
      if !Ripens(seed, now) {
        assert Repeat(SeedExpire, ripe) + r == Repeat(SeedExpire, ripe);
      }
      MoveKey(todo, done, k);
    }

    /** The loop of `tickSeeds(now)` over the entries of `m0`, in any order:
        the new map, the summed bleed, and one expire event per ripening seed. */
    method SweepSeeds(m0: map<string, SeedNode>, now: real) returns (updated: map<string, SeedNode>, entropyDelta: real)
      modifies bindings`audioLog, bindings`fxLog
      ensures updated == SeedsAliveAfter(m0, now)
      ensures entropyDelta == |BleedingIn(m0, m0.Keys, now)| as real * RotBleed
      ensures bindings.audioLog == old(bindings.audioLog) + Repeat(SeedExpire, |RipeningIn(m0, m0.Keys, now)|)
      ensures bindings.fxLog == old(bindings.fxLog) + Repeat(SeedExpire, |RipeningIn(m0, m0.Keys, now)|)
    {
      updated := m0;
      entropyDelta := 0.0;
      var todo := m0.Keys;
      ghost var done: set<string> := {};
      ghost var audio0 := bindings.audioLog;
      ghost var fx0 := bindings.fxLog;
      assert RipeningIn(m0, done, now) == {} && BleedingIn(m0, done, now) == {};
      assert bindings.audioLog == audio0 + Repeat(SeedExpire, 0);
      while todo != {}
        invariant SweepInv(m0, now, updated, entropyDelta, todo, done, audio0, fx0)
        decreases todo
      {
        var k :| k in todo;
        updated, entropyDelta := SweepVisit(m0, now, updated, entropyDelta, todo, done, audio0, fx0, k);
        todo := todo - {k};
        done := done + {k};
      }
      assert done == m0.Keys;
      SweptAll(updated, m0, now);
    }

    /** `tickSeeds(now)` over the legacy surface seeds: each seed that ripens
        becomes rot for 4 s with one expire event, rot that is over is removed,
        every rotting seed bleeds a little entropy, added in one change at the end. */
    method TickSeeds(now: real, clock: real)
      requires Valid()
      modifies this`seedsAlive
      modifies this`entropyRaw, this`entropy, this`lastInteractionTime
      modifies bindings`lastEntropy, bindings`audioLog, bindings`fxLog
      ensures Valid()
      ensures seedsAlive == SeedsAliveAfter(old(seedsAlive), now)
      ensures var ripe := |RipeningIn(old(seedsAlive), old(seedsAlive).Keys, now)|;
              var bleeding := |BleedingIn(old(seedsAlive), old(seedsAlive).Keys, now)|;
              && (bleeding == 0 ==>
                    && GaugeOf() == old(GaugeOf()) && lastInteractionTime == old(lastInteractionTime)
                    && bindings.audioLog == old(bindings.audioLog) + Repeat(SeedExpire, ripe)
                    && bindings.fxLog == old(bindings.fxLog) + Repeat(SeedExpire, ripe))
              && (bleeding > 0 ==>
                    && GaugeOf() == Modify(old(GaugeOf()), bleeding as real * RotBleed)
                    && lastInteractionTime == clock
                    && bindings.audioLog == old(bindings.audioLog) + Repeat(SeedExpire, ripe)
                         + ModifyEvents(old(GaugeOf()), bleeding as real * RotBleed)
                    && bindings.fxLog == old(bindings.fxLog) + Repeat(SeedExpire, ripe)
                         + ModifyEvents(old(GaugeOf()), bleeding as real * RotBleed))
    {
      var updated, entropyDelta := SweepSeeds(seedsAlive, now);
      if entropyDelta > 0.0 {
        ModifyEntropy(entropyDelta, clock);
      }
      seedsAlive := updated;
    }

    method ApplyBoon(b: Boon, until: real)
      modifies this`activeBoons, bindings`audioLog, bindings`fxLog
      ensures activeBoons == old(activeBoons) + [ActiveBoon(b, until)]
      ensures bindings.audioLog == old(bindings.audioLog) + [BoonApplied(b)]
      ensures bindings.fxLog == old(bindings.fxLog) + [BoonApplied(b)]
    {
      activeBoons := activeBoons + [ActiveBoon(b, until)];
      bindings.Emit(BoonApplied(b));
    }

    method ApplyPrice(p: Price, until: real)
      modifies this`activePrices, bindings`audioLog, bindings`fxLog
      ensures activePrices == old(activePrices) + [ActivePrice(p, until)]
      ensures bindings.audioLog == old(bindings.audioLog) + [PriceApplied(p)]
      ensures bindings.fxLog == old(bindings.fxLog) + [PriceApplied(p)]
    {
      activePrices := activePrices + [ActivePrice(p, until)];
      bindings.Emit(PriceApplied(p));
    }

    method SetDomainBias(d: Option<Domain>)
      modifies this`domainBias
      ensures domainBias == d
    {
      domainBias := d;
    }
  }

  /** `checkEndings` starts a fresh StoneSleep timer on every call while a live
      run has no seeds and no gods; nothing checks for one already pending. */
  method EmptyGardenStacksTimers(g: GardenStore, now: real, clock: real)
    requires g.Valid() && !g.runOver && |g.persistentSeeds| == 0 && |g.persistentGods| == 0
    requires EndingDue(g.stats, g.entropy, g.seasonCount).None?
    modifies g, g.bindings
    ensures g.stoneSleepTimers == old(g.stoneSleepTimers) + 2
  {
    g.CheckEndings(now, clock);
    g.CheckEndings(now, clock);
  }
}
