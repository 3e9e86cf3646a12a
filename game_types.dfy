/** The entities of the simulation (src/lib/types.ts) as values. */
module GameTypes {
  import opened Common

  datatype Domain = Flesh | Stone | Ash | Dream

  datatype Boon = Harvest | Stillness | Veil | Echo | GraveMercy

  datatype Price = TithedBreath | StoneDue | AshTax | DreamDebt | GnawMemory

  datatype Season = Spring | Summer | Autumn | Winter

  datatype SeedState = Planted | Growing | Mature | Starved | Awakened

  datatype Tier = Dormant | Breath | Pulse | Fever | Famine | Seizure

  datatype EndingKind = AscendantChorus | GardenFamine | StoneSleep

  /** A persistent seed. `lastFedAt` is absent until the first feed. */
  datatype Seed = Seed(
    id: string,
    x: real,
    y: real,
    bornAt: real,
    state: SeedState,
    food: real,
    maturity: real,
    domainHint: Option<Domain>,
    lastFedAt: Option<real>,
    starveRisk: real)
  {
    /** STARVED and AWAKENED are terminal: no tick and no feed touches them. */
    predicate IsTerminal() { state == Starved || state == Awakened }
  }

  datatype God = God(
    id: string,
    x: real,
    y: real,
    domain: Domain,
    bornFromSeedId: string,
    favor: Boon,
    price: Price,
    cooldownUntil: real)

  datatype Stats = Stats(
    awakened: nat,
    starved: nat,
    harvested: nat,
    omenCount: nat,
    choicesMade: nat,
    falseChoicesTaken: nat)

  datatype Ending = Ending(kind: EndingKind, score: real, timestamp: real)

  datatype ScoreEntry = ScoreEntry(score: real, timestamp: real)

  datatype ActiveBoon = ActiveBoon(boon: Boon, until: real)

  datatype ActivePrice = ActivePrice(price: Price, until: real)

  /** A legacy surface seed (`SeedNode`); `rotUntil` is set when it expires. */
  datatype SeedNode = SeedNode(
    id: string,
    x: real,
    y: real,
    bornAt: real,
    viableMs: real,
    expired: bool,
    rotUntil: Option<real>)

  /** A legacy surface god (`GodNode`). */
  datatype GodNode = GodNode(id: string, x: real, y: real, domain: Domain, cooldownUntil: real)

  datatype HistoryEntry = HistoryEntry(id: int, text: string, ts: real)

  /** The four domain alignments, in the key order of the store's record:
      FLESH, STONE, ASH, DREAM. */
  datatype Alignments = Alignments(flesh: real, stone: real, ash: real, dream: real)
  {
    function Get(d: Domain): real {
      match d
      case Flesh => flesh
      case Stone => stone
      case Ash => ash
      case Dream => dream
    }

    function Set(d: Domain, v: real): (r: Alignments)
      ensures r.Get(d) == v
      ensures forall e :: e != d ==> r.Get(e) == Get(e)
    {
      match d
      case Flesh => this.(flesh := v)
      case Stone => this.(stone := v)
      case Ash => this.(ash := v)
      case Dream => this.(dream := v)
    }

    function Total(): real { flesh + stone + ash + dream }
  }

  /** Domains in the order `Object.entries` lists them. */
  const DomainOrder: seq<Domain> := [Flesh, Stone, Ash, Dream]
}
