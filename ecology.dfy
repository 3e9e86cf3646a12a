/** The pure rules of the persistent ecology in src/lib/store.ts: how one tick
    changes one seed, the starvation and awakening probabilities, the season
    cycle and the score. The store class applies them. */
module Ecology {
  import opened Common
  import opened GameTypes
  import opened Events
  import opened Entropy

  const BaseDecay: real := 0.02
  const GrowthRate: real := 0.015
  const FedWindow: real := 2500.0
  const StarveFood: real := 0.05
  const StarveEntropy: real := 0.12

  /** `seasonMults[season]` */
  function SeasonMultiplier(s: Season): real
  {
    match s
    case Spring => 0.8
    case Summer => 1.0
    case Autumn => 1.2
    case Winter => 1.35
  }

  /** The season term of the starvation probability. */
  function SeasonStarveBias(s: Season): real
  {
    match s
    case Spring => -0.03
    case Summer => 0.02
    case Autumn => 0.05
    case Winter => 0.08
  }

  /** What one `tickPersistentSeeds(dt, now)` reads once, before its loop. */
  datatype TickEnv = TickEnv(
    season: Season,
    entropy: real,
    domainBias: Option<Domain>,
    boons: seq<ActiveBoon>,
    dt: real,
    now: real)

  predicate HasBoon(boons: seq<ActiveBoon>, b: Boon)
  {
    exists i | 0 <= i < |boons| :: boons[i].boon == b
  }

  /** `0.02 * seasonMult * (1 + entropy / 100 * 0.8)` */
  function FoodDecayRate(env: TickEnv): real
  {
    BaseDecay * SeasonMultiplier(env.season) * (1.0 + (env.entropy / 100.0) * 0.8)
  }

  /** `seed.lastFedAt && now - seed.lastFedAt < 2500`: a time of 0 is falsy. */
  predicate FedRecently(s: Seed, now: real)
  {
    s.lastFedAt.Some? && s.lastFedAt.value != 0.0 && now - s.lastFedAt.value < FedWindow
  }

  function MaturityDelta(s: Seed, env: TickEnv): real
  {
    GrowthRate * (1.0 + (if FedRecently(s, env.now) then 0.4 else 0.0))
      * (1.0 + (if env.domainBias.Some? then 0.35 else 0.0)) * env.dt
  }

  /** Food decay and growth of a live seed, and its move to MATURE. */
  function Grown(s: Seed, env: TickEnv): Seed
  {
    var food := Max(0.0, s.food - FoodDecayRate(env) * env.dt);
    var maturity := Min(1.0, s.maturity + MaturityDelta(s, env));
    s.(food := food, maturity := maturity,
       state := if maturity >= 1.0 && s.state != Mature then Mature else s.state)
  }

  predicate NewlyMature(s: Seed, env: TickEnv)
  {
    Min(1.0, s.maturity + MaturityDelta(s, env)) >= 1.0 && s.state != Mature
  }

  /** `Math.max(0.02, Math.min(0.7, risk + 0.15 * entropy/100 + seasonBias - 0.05 * veil))`.
      Veil or Stillness counts whatever its expiry time. */
  function StarveProbability(s: Seed, env: TickEnv): (p: real)
    ensures 0.02 <= p <= 0.7
  {
    Clamp(s.starveRisk + 0.15 * (env.entropy / 100.0) + SeasonStarveBias(env.season)
          - 0.05 * (if HasBoon(env.boons, Veil) || HasBoon(env.boons, Stillness) then 1.0 else 0.0),
          0.02, 0.7)
  }

  /** The starvation draw is made only for a grown seed at or below 0.05 food
      whose state is not STARVED. */
  predicate RollsStarvation(s: Seed, env: TickEnv)
  {
    Grown(s, env).food <= StarveFood && Grown(s, env).state != Starved
  }

  predicate Starves(s: Seed, env: TickEnv, roll: Draw)
  {
    !s.IsTerminal() && RollsStarvation(s, env) && roll < StarveProbability(s, env)
  }

  /** A newly planted seed; `riskDraw` is the draw behind its starvation risk. */
  function NewSeed(id: string, x: real, y: real, hint: Option<Domain>, bornAt: real, riskDraw: Draw): (s: Seed)
    ensures s.id == id && s.state == Planted && !s.IsTerminal()
    ensures s.food == 0.35 && s.maturity == 0.0 && s.lastFedAt == None
    ensures 0.10 <= s.starveRisk < 0.22
  {
    Seed(id, x, y, bornAt, Planted, 0.35, 0.0, hint, None, 0.10 + riskDraw * 0.12)
  }

  /** A live seed after `feedSeed(id, now)`. */
  function FedSeed(s: Seed, now: real): Seed
  {
    s.(food := Min(1.0, s.food + 0.25), lastFedAt := Some(now),
       state := if s.state == Planted then Growing else s.state)
  }

  /** Feeding adds a quarter of food up to 1, stamps the feeding time, turns
      PLANTED into GROWING and keeps every other state, and leaves maturity,
      risk and position alone. */
  lemma FedSeedSpec(s: Seed, now: real)
    ensures var t := FedSeed(s, now);
            && (s.food <= 0.75 ==> t.food == s.food + 0.25)
            && (s.food > 0.75 ==> t.food == 1.0)
            && t.food <= 1.0 && (s.food <= 1.0 ==> t.food >= s.food)
            && t.lastFedAt == Some(now) && FedRecently(t, now) == (now != 0.0)
            && (s.state == Planted ==> t.state == Growing)
            && (s.state != Planted ==> t.state == s.state)
            && t.maturity == s.maturity && t.id == s.id && t.starveRisk == s.starveRisk
  {
  }

  /** One seed after one tick; `roll` is its starvation draw. */
  function SeedAfterTick(s: Seed, env: TickEnv, roll: Draw): Seed
  {
    if s.IsTerminal() then s
    else if Starves(s, env, roll) then Grown(s, env).(state := Starved)
    else Grown(s, env)
  }

  /** The seed's own events in the tick, before the entropy change of a starvation. */
  function SeedTickEvents(s: Seed, env: TickEnv, roll: Draw): seq<Event>
  {
    if s.IsTerminal() then []
    else (if NewlyMature(s, env) then [SeedMature] else [])
         + (if Starves(s, env, roll) then [SeedExpire, SeedStarve] else [])
  }

  /** Terminal seeds are untouched; every other seed keeps its identity and
      position, keeps food >= 0 and maturity <= 1, and with dt >= 0 never loses
      maturity. */
  lemma SeedAfterTickSpec(s: Seed, env: TickEnv, roll: Draw)
    ensures s.IsTerminal() ==> SeedAfterTick(s, env, roll) == s && SeedTickEvents(s, env, roll) == []
    ensures var t := SeedAfterTick(s, env, roll);
            && t.id == s.id && t.x == s.x && t.y == s.y && t.bornAt == s.bornAt
            && t.domainHint == s.domainHint && t.lastFedAt == s.lastFedAt && t.starveRisk == s.starveRisk
    ensures s.food >= 0.0 ==> SeedAfterTick(s, env, roll).food >= 0.0
    ensures s.maturity <= 1.0 ==> SeedAfterTick(s, env, roll).maturity <= 1.0
    ensures env.dt >= 0.0 && s.maturity <= 1.0 ==> SeedAfterTick(s, env, roll).maturity >= s.maturity
  {
    if env.dt >= 0.0 && !s.IsTerminal() {
      assert MaturityDelta(s, env) >= 0.0;
    }
  }

  /** `seed.mature` fires exactly when a live seed reaches maturity 1 without
      already being MATURE; a seed is then MATURE unless it starves in the same
      tick. */
  lemma MatureTransition(s: Seed, env: TickEnv, roll: Draw)
    ensures SeedMature in SeedTickEvents(s, env, roll)
        <==> !s.IsTerminal() && Grown(s, env).maturity >= 1.0 && s.state != Mature
    ensures !s.IsTerminal() && !Starves(s, env, roll) && Grown(s, env).maturity >= 1.0 ==>
              SeedAfterTick(s, env, roll).state == Mature
  {
  }

  /** A tick leaves a live seed STARVED exactly when its food is at most 0.05 and
      the draw is below the clamped probability; it then fires expire and starve. */
  lemma StarvationRule(s: Seed, env: TickEnv, roll: Draw)
    requires !s.IsTerminal()
    ensures SeedAfterTick(s, env, roll).state == Starved
        <==> Grown(s, env).food <= StarveFood && roll < StarveProbability(s, env)
    ensures Starves(s, env, roll) ==>
              SeedTickEvents(s, env, roll)[|SeedTickEvents(s, env, roll)| - 2..] == [SeedExpire, SeedStarve]
  {
  }

  /** The starvation check excludes only STARVED, so a MATURE seed starves too. */
  lemma MatureSeedCanStarve()
    ensures var s := Seed("s", 0.0, 0.0, 0.0, Mature, 0.0, 1.0, None, None, 0.1);
            var env := TickEnv(Spring, 0.0, None, [], 1.0, 0.0);
            SeedAfterTick(s, env, 0.0).state == Starved
  {
    var s := Seed("s", 0.0, 0.0, 0.0, Mature, 0.0, 1.0, None, None, 0.1);
    var env := TickEnv(Spring, 0.0, None, [], 1.0, 0.0);
    assert Grown(s, env).food == 0.0;
    assert StarveProbability(s, env) == 0.07;
  }

  /** The running result of the tick loop: the events emitted so far, the
      entropy gauge after the starvations so far, and the starved seed ids
      whose 4-second removal timers were started. */
  datatype TickOutcome = TickOutcome(events: seq<Event>, gauge: Gauge, starved: seq<string>)

  /** The tick loop over the seed ids in insertion order `ids`: each starvation
      adds 0.12 entropy, whose events follow that seed's own events. */
  function TickFold(ids: seq<string>, seeds: map<string, Seed>, env: TickEnv,
                    roll: string -> Draw, g: Gauge): TickOutcome
    decreases |ids|
  {
    if ids == [] then TickOutcome([], g, [])
    else
      var acc := TickFold(ids[..|ids| - 1], seeds, env, roll, g);
      var id := ids[|ids| - 1];
      if id !in seeds then acc
      else
        var s := seeds[id];
        if Starves(s, env, roll(id)) then
          TickOutcome(acc.events + SeedTickEvents(s, env, roll(id)) + ModifyEvents(acc.gauge, StarveEntropy),
                      Modify(acc.gauge, StarveEntropy), acc.starved + [id])
        else
          TickOutcome(acc.events + SeedTickEvents(s, env, roll(id)), acc.gauge, acc.starved)
  }

  /** One more id at the end of the loop order: the fold takes one step. */
  lemma TickFoldSnoc(ids: seq<string>, seeds: map<string, Seed>, env: TickEnv,
                     roll: string -> Draw, g: Gauge, id: string)
    requires id in seeds
    ensures var acc := TickFold(ids, seeds, env, roll, g);
            var s := seeds[id];
            TickFold(ids + [id], seeds, env, roll, g) ==
              if Starves(s, env, roll(id)) then
                TickOutcome(acc.events + SeedTickEvents(s, env, roll(id)) + ModifyEvents(acc.gauge, StarveEntropy),
                            Modify(acc.gauge, StarveEntropy), acc.starved + [id])
              else TickOutcome(acc.events + SeedTickEvents(s, env, roll(id)), acc.gauge, acc.starved)
  {
    assert (ids + [id])[..|ids + [id]| - 1] == ids;
  }

  /** The ids, in order, of the seeds that starve on this tick. */
  function StarvedIds(ids: seq<string>, seeds: map<string, Seed>, env: TickEnv, roll: string -> Draw): seq<string>
  {
    if ids == [] then []
    else (if ids[0] in seeds && Starves(seeds[ids[0]], env, roll(ids[0])) then [ids[0]] else [])
         + StarvedIds(ids[1..], seeds, env, roll)
  }

  /** One more id at the end adds it exactly when that seed starves. */
  lemma {:induction false} StarvedIdsSnoc(ids: seq<string>, seeds: map<string, Seed>, env: TickEnv,
                                          roll: string -> Draw, id: string)
    ensures StarvedIds(ids + [id], seeds, env, roll) ==
              StarvedIds(ids, seeds, env, roll)
              + (if id in seeds && Starves(seeds[id], env, roll(id)) then [id] else [])
    decreases |ids|
  {
    var last := if id in seeds && Starves(seeds[id], env, roll(id)) then [id] else [];
    if ids == [] {
      assert ids + [id] == [id] && [id][1..] == [];
    } else {
      var head := if ids[0] in seeds && Starves(seeds[ids[0]], env, roll(ids[0])) then [ids[0]] else [];
      StarvedIdsSnoc(ids[1..], seeds, env, roll, id);
      assert (ids + [id])[0] == ids[0] && (ids + [id])[1..] == ids[1..] + [id];
      ConcatAssoc(head, StarvedIds(ids[1..], seeds, env, roll), last);
    }
  }

  /** Exactly the seeds that starve start a removal timer, once each and in
      loop order. */
  lemma {:induction false} TickFoldStarved(ids: seq<string>, seeds: map<string, Seed>, env: TickEnv,
                                           roll: string -> Draw, g: Gauge)
    ensures TickFold(ids, seeds, env, roll, g).starved == StarvedIds(ids, seeds, env, roll)
    ensures forall id :: id in TickFold(ids, seeds, env, roll, g).starved <==>
              id in ids && id in seeds && Starves(seeds[id], env, roll(id))
    decreases |ids|
  {
    if ids != [] {
      var front := ids[..|ids| - 1];
      TickFoldStarved(front, seeds, env, roll, g);
      assert ids == front + [ids[|ids| - 1]];
      StarvedIdsSnoc(front, seeds, env, roll, ids[|ids| - 1]);
    }
  }

  /** With no starvation the entropy gauge is left as it was. */
  lemma {:induction false} TickFoldNoStarvation(ids: seq<string>, seeds: map<string, Seed>, env: TickEnv,
                                                roll: string -> Draw, g: Gauge)
    requires forall id :: id in ids && id in seeds ==> !Starves(seeds[id], env, roll(id))
    ensures TickFold(ids, seeds, env, roll, g).gauge == g
    ensures TickFold(ids, seeds, env, roll, g).starved == []
    decreases |ids|
  {
    if ids != [] {
      TickFoldNoStarvation(ids[..|ids| - 1], seeds, env, roll, g);
    }
  }

  // ---- Awakening ----

  /** `Object.values(persistentSeeds).filter(s => s.state === 'MATURE')`, as ids. */
  function MatureIds(ids: seq<string>, seeds: map<string, Seed>): (r: seq<string>)
    ensures forall id :: id in r <==> id in ids && id in seeds && seeds[id].state == Mature
    ensures |r| <= |ids|
    ensures |ids| == 1 ==> r == (if ids[0] in seeds && seeds[ids[0]].state == Mature then ids else [])
  {
    if ids == [] then []
    else (if ids[0] in seeds && seeds[ids[0]].state == Mature then [ids[0]] else [])
         + MatureIds(ids[1..], seeds)
  }

  /** The filter keeps insertion order: the candidates of two runs of ids are
      those of the first run followed by those of the second. */
  lemma {:induction false} MatureIdsAppend(p: seq<string>, q: seq<string>, seeds: map<string, Seed>)
    ensures MatureIds(p + q, seeds) == MatureIds(p, seeds) + MatureIds(q, seeds)
    decreases |p|
  {
    if p == [] {
      assert p + q == q;
    } else {
      var head := if p[0] in seeds && seeds[p[0]].state == Mature then [p[0]] else [];
      MatureIdsAppend(p[1..], q, seeds);
      assert (p + q)[0] == p[0] && (p + q)[1..] == p[1..] + q;
      ConcatAssoc(head, MatureIds(p[1..], seeds), MatureIds(q, seeds));
    }
  }

  /** The awakening chance, clamped to [0.02, 0.85]. Harvest and Echo count
      whatever their expiry time. */
  function AwakenProbability(domainBias: Option<Domain>, entropy: real, boons: seq<ActiveBoon>): (p: real)
    ensures 0.02 <= p <= 0.85
  {
    var p := 0.25
      + 0.10 * (if domainBias.Some? then 1.0 else 0.0)
      + 0.12 * 0.5
      - 0.15 * (if entropy >= 70.0 then 1.0 else 0.0)
      + (if HasBoon(boons, Harvest) then 0.08 else 0.0)
      + (if HasBoon(boons, Echo) then 0.05 else 0.0);
    Clamp(p, 0.02, 0.85)
  }

  /** Below 70 entropy and without boons the chance is 0.31, or 0.41 with a
      domain bias; the entropy blocker takes 0.15 off. */
  lemma AwakenProbabilityValues(entropy: real)
    ensures entropy < 70.0 ==> AwakenProbability(None, entropy, []) == 0.31
    ensures entropy < 70.0 ==> AwakenProbability(Some(Ash), entropy, []) == 0.41
    ensures entropy >= 70.0 ==> AwakenProbability(None, entropy, []) == 0.16
    ensures AwakenProbability(Some(Ash), 0.0, [ActiveBoon(Harvest, 0.0), ActiveBoon(Echo, 0.0)]) == 0.54
  {
    var bs := [ActiveBoon(Harvest, 0.0), ActiveBoon(Echo, 0.0)];
    assert bs[0].boon == Harvest && bs[1].boon == Echo;
  }

  const Favors: seq<Boon> := [Harvest, Stillness, Veil, Echo, GraveMercy]
  const Prices: seq<Price> := [TithedBreath, StoneDue, AshTax, DreamDebt, GnawMemory]

  /** The god an awakened seed becomes; the domain is the seed's hint, or drawn. */
  function AwakenedGod(s: Seed, godId: string, now: real, domainDraw: Draw, favorDraw: Draw, priceDraw: Draw): (g: God)
    ensures g.id == godId && g.x == s.x && g.y == s.y && g.bornFromSeedId == s.id
    ensures g.cooldownUntil == now + 8000.0
    ensures s.domainHint.Some? ==> g.domain == s.domainHint.value
    ensures g.favor in Favors && g.price in Prices
  {
    God(godId, s.x, s.y,
        if s.domainHint.Some? then s.domainHint.value else DomainOrder[Pick(domainDraw, 4)],
        s.id, Favors[Pick(favorDraw, 5)], Prices[Pick(priceDraw, 5)], now + 8000.0)
  }

  // ---- Seasons ----

  function SeasonIndex(s: Season): nat
  {
    match s
    case Spring => 0
    case Summer => 1
    case Autumn => 2
    case Winter => 3
  }

  const Seasons: seq<Season> := [Spring, Summer, Autumn, Winter]

  /** `seasons[(seasons.indexOf(season) + 1) % 4]` */
  function NextSeason(s: Season): (n: Season)
    ensures SeasonIndex(n) == (SeasonIndex(s) + 1) % 4
  {
    Seasons[(SeasonIndex(s) + 1) % 4]
  }

  /** Four steps bring every season back; only WINTER wraps to SPRING. */
  lemma SeasonCycle(s: Season)
    ensures NextSeason(NextSeason(NextSeason(NextSeason(s)))) == s
    ensures NextSeason(s) == Spring <==> s == Winter
    ensures NextSeason(s) != s
  {
  }

  /** `now + 45000 + Math.random() * 25000` */
  function SeasonEnd(now: real, d: Draw): (u: real)
    ensures now + 45000.0 <= u < now + 70000.0
  {
    now + 45000.0 + d * 25000.0
  }

  // ---- Score ----

  /** `calculateScore()` */
  function Score(stats: Stats, entropy: real, seasonCount: nat): real
  {
    var base := 100.0 * stats.awakened as real + 25.0 * seasonCount as real + 8.0 * stats.harvested as real;
    var penalty := 5.0 * stats.starved as real + 2.0 * stats.falseChoicesTaken as real;
    var discipline := Max(0.0, 120.0 - 4.0 * entropy);
    var omen := 60.0 - 10.0 * (if stats.omenCount < 6 then stats.omenCount else 6) as real;
    Max(0.0, base - penalty + discipline + omen)
  }

  /** The score is never negative and never drops when awakenings, seasons or
      harvests grow with everything else fixed. */
  lemma ScoreProperties(stats: Stats, entropy: real, seasonCount: nat, more: nat)
    ensures Score(stats, entropy, seasonCount) >= 0.0
    ensures Score(stats, entropy, seasonCount) <= Score(stats.(awakened := stats.awakened + more), entropy, seasonCount)
    ensures Score(stats, entropy, seasonCount) <= Score(stats.(harvested := stats.harvested + more), entropy, seasonCount)
    ensures Score(stats, entropy, seasonCount) <= Score(stats, entropy, seasonCount + more)
  {
  }

  /** A fresh run at entropy 0 scores the discipline bonus 120 plus the omen
      bonus 60; higher entropy never raises the score. */
  lemma ScoreValues(stats: Stats, e1: real, e2: real, seasonCount: nat)
    ensures Score(Stats(0, 0, 0, 0, 0, 0), 0.0, 0) == 180.0
    ensures e1 <= e2 ==> Score(stats, e2, seasonCount) <= Score(stats, e1, seasonCount)
  {
  }
}
