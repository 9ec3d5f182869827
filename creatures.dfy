/** Creatures: trait cache, perception, the valid-action list, actions, reproduction and upkeep
    (`creature.py`). */
module Creatures {
  import opened Basics
  import opened Config
  import opened Resources
  import opened Genetics
  import opened Learning
  import opened Worlds

  /** The class-level `Creature.next_id` counter, shared by every construction. */
  class IdCounter {
    var next: nat

    constructor ()
      ensures next == 0
    {
      next := 0;
    }
  }

  /** `self.id = Creature.next_id; Creature.next_id += 1`: the counter's value, which then moves on
      by one. */
  method TakeId(ids: IdCounter) returns (id: nat)
    modifies ids
    ensures id == old(ids.next) && ids.next == old(ids.next) + 1
  {
    id := ids.next;
    ids.next := ids.next + 1;
  }

  /** The trait values `_update_traits` caches on a creature. */
  datatype Traits = Traits(
    size: int, speed: real, visionRange: int, metabolism: real, energyEfficiency: real,
    foodPreference: real, plantPreference: real, sunlightEfficiency: real,
    reproductionThreshold: real, offspringEnergy: real, color: (int, int, int))

  /** The trait values `_update_traits` derives from gene values: `size`, `vision_range` and the
      colour channels through `int` (truncation), the other traits as stored. Each cached value lies
      in its gene's bounds. */
  function TraitsFrom(v: map<Trait, real>): (t: Traits)
    requires InRanges(v)
    ensures 1 <= t.size <= 5 && 2 <= t.visionRange <= 10
    ensures 0.1 <= t.speed <= 3.0 && 0.1 <= t.metabolism <= 1.0 && 0.3 <= t.energyEfficiency <= 1.0
    ensures 0.0 <= t.foodPreference <= 1.0 && 0.0 <= t.plantPreference <= 1.0
    ensures 0.0 <= t.sunlightEfficiency <= 1.0
    ensures 50.0 <= t.reproductionThreshold <= 100.0 && 20.0 <= t.offspringEnergy <= 60.0
    ensures 50 <= t.color.0 <= 255 && 50 <= t.color.1 <= 255 && 50 <= t.color.2 <= 255
  {
    Traits(Trunc(v[Size]), v[Speed], Trunc(v[VisionRange]), v[Metabolism], v[EnergyEfficiency],
           v[FoodPreference], v[PlantPreference], v[SunlightEfficiency],
           v[ReproductionThreshold], v[OffspringEnergy],
           (Trunc(v[ColorR]), Trunc(v[ColorG]), Trunc(v[ColorB])))
  }

  /** `_update_traits`: the cache is read from the genes with `get_value`. */
  function TraitsOf(c: Chromosome): (t: Traits)
    reads c, c.Repr
    requires c.Valid()
    ensures InRanges(c.values) && t == TraitsFrom(c.values)
  {
    Traits(Trunc(c.GetValue(Size)), c.GetValue(Speed), Trunc(c.GetValue(VisionRange)),
           c.GetValue(Metabolism), c.GetValue(EnergyEfficiency), c.GetValue(FoodPreference),
           c.GetValue(PlantPreference), c.GetValue(SunlightEfficiency),
           c.GetValue(ReproductionThreshold), c.GetValue(OffspringEnergy),
           (Trunc(c.GetValue(ColorR)), Trunc(c.GetValue(ColorG)), Trunc(c.GetValue(ColorB))))
  }

  /** The computation of the trait cache at construction. */
  method CacheTraits(c: Chromosome) returns (t: Traits)
    requires c.Valid()
    ensures InRanges(c.values) && t == TraitsFrom(c.values)
  {
    t := TraitsOf(c);
  }

  /** The offset (dx, dy) is scanned by `perceive` for a vision range `r`: inside the square loop
      bounds, not the creature's own cell, and within the disc dx^2 + dy^2 <= r^2. */
  predicate InSight(dx: int, dy: int, r: int)
  {
    -r <= dx <= r && -r <= dy <= r && (dx != 0 || dy != 0) && dx * dx + dy * dy <= r * r
  }

  /** Some in-sight, in-bounds cell around (cx, cy) carries the tag `kind`. */
  ghost predicate Sees(w: World<Creature>, cx: int, cy: int, r: int, kind: CellType)
    reads w.grid
    requires w.Shaped()
  {
    exists dx, dy :: InSight(dx, dy, r) && w.InBounds(cx + dx, cy + dy) && w.grid[cy + dy, cx + dx] == kind
  }

  /** The `vision_data` flags `perceive` computes. */
  ghost function VisionOf(w: World<Creature>, cx: int, cy: int, r: int): Vision
    reads w.grid
    requires w.Shaped()
  {
    Vision(Sees(w, cx, cy, r, Food), Sees(w, cx, cy, r, Plant), Sees(w, cx, cy, r, Wall),
           Sees(w, cx, cy, r, CellType.Creature))
  }

  /** The cell at offset (dx, dy) is scanned and carries the tag `kind`. */
  ghost predicate Hit(w: World<Creature>, cx: int, cy: int, r: int, kind: CellType, dx: int, dy: int)
    reads w.grid
    requires w.Shaped()
  {
    InSight(dx, dy, r) && w.InBounds(cx + dx, cy + dy) && w.grid[cy + dy, cx + dx] == kind
  }

  /** Some offset scanned before (dxAt, dyAt) in the loop order (dx outer, dy inner) is a hit. */
  ghost predicate SeenBefore(w: World<Creature>, cx: int, cy: int, r: int, kind: CellType, dxAt: int, dyAt: int)
    reads w.grid
    requires w.Shaped()
  {
    exists dx, dy :: (dx < dxAt || (dx == dxAt && dy < dyAt)) && Hit(w, cx, cy, r, kind, dx, dy)
  }

  /** The four flags after the offsets before (dxAt, dyAt) have been scanned. */
  ghost function VisionBefore(w: World<Creature>, cx: int, cy: int, r: int, dxAt: int, dyAt: int): Vision
    reads w.grid
    requires w.Shaped()
  {
    Vision(SeenBefore(w, cx, cy, r, Food, dxAt, dyAt), SeenBefore(w, cx, cy, r, Plant, dxAt, dyAt),
           SeenBefore(w, cx, cy, r, Wall, dxAt, dyAt), SeenBefore(w, cx, cy, r, CellType.Creature, dxAt, dyAt))
  }

  /** Scanning offset (dx, dy) adds exactly that cell to what has been seen. */
  lemma SeenStep(w: World<Creature>, cx: int, cy: int, r: int, kind: CellType, dx: int, dy: int)
    requires w.Shaped()
    ensures SeenBefore(w, cx, cy, r, kind, dx, dy + 1) <==>
              SeenBefore(w, cx, cy, r, kind, dx, dy) || Hit(w, cx, cy, r, kind, dx, dy)
  {
    if SeenBefore(w, cx, cy, r, kind, dx, dy + 1) {
      var dx', dy' :| (dx' < dx || (dx' == dx && dy' < dy + 1)) && Hit(w, cx, cy, r, kind, dx', dy');
      if dx' == dx && dy' == dy {
      } else {
        assert SeenBefore(w, cx, cy, r, kind, dx, dy);
      }
    }
  }

  /** Past the end of column dx the scan goes on at the top of column dx + 1. */
  lemma SeenColumnEnd(w: World<Creature>, cx: int, cy: int, r: int, kind: CellType, dx: int)
    requires w.Shaped()
    ensures SeenBefore(w, cx, cy, r, kind, dx, r + 1) <==> SeenBefore(w, cx, cy, r, kind, dx + 1, -r)
  {
    if SeenBefore(w, cx, cy, r, kind, dx + 1, -r) {
      var dx', dy' :| (dx' < dx + 1 || (dx' == dx + 1 && dy' < -r)) && Hit(w, cx, cy, r, kind, dx', dy');
    }
  }

  /** Before the first offset nothing has been seen. */
  lemma SeenNothingYet(w: World<Creature>, cx: int, cy: int, r: int, kind: CellType)
    requires w.Shaped()
    ensures !SeenBefore(w, cx, cy, r, kind, -r, -r)
  {
  }

  /** After the last column the scan has seen exactly what is in sight. */
  lemma SeenAll(w: World<Creature>, cx: int, cy: int, r: int, kind: CellType)
    requires w.Shaped()
    ensures SeenBefore(w, cx, cy, r, kind, r + 1, -r) <==> Sees(w, cx, cy, r, kind)
  {
    if Sees(w, cx, cy, r, kind) {
      var dx, dy :| InSight(dx, dy, r) && w.InBounds(cx + dx, cy + dy) && w.grid[cy + dy, cx + dx] == kind;
      assert Hit(w, cx, cy, r, kind, dx, dy);
    }
  }

  /** The candidate cells of `reproduce`: up, down, left, right. */
  function Neighbours(x: int, y: int): seq<Pos>
  {
    [(x, y - 1), (x, y + 1), (x - 1, y), (x + 1, y)]
  }

  /** `random.shuffle` of the four candidates, as the permutation `order` says. */
  function Shuffled(cands: seq<Pos>, order: seq<nat>): (r: seq<Pos>)
    requires |cands| == 4 && IsPermutation(order, 4)
    ensures |r| == 4 && forall i :: 0 <= i < 4 ==> r[i] == cands[order[i]]
  {
    [cands[order[0]], cands[order[1]], cands[order[2]], cands[order[3]]]
  }

  /** The index of the first candidate that is in bounds and EMPTY, or |cands| when there is none. */
  function FirstFree(w: World<Creature>, cands: seq<Pos>): (k: nat)
    reads w.grid
    requires w.Shaped()
    ensures k <= |cands|
    ensures k < |cands| ==> w.IsEmpty(cands[k].0, cands[k].1)
    ensures forall j :: 0 <= j < k ==> !w.IsEmpty(cands[j].0, cands[j].1)
  {
    if cands == [] then 0
    else if w.IsEmpty(cands[0].0, cands[0].1) then 0
    else 1 + FirstFree(w, cands[1..])
  }

  /** The facts `_get_valid_actions` tests: which neighbours are walkable, whether the creature's own
      cell is tagged FOOD or PLANT, whether it can reproduce and whether its sunlight efficiency
      exceeds 0.3. */
  datatype Options = Options(up: bool, down: bool, left: bool, right: bool,
                             eat: bool, reproduce: bool, photosynthesize: bool)

  function OptionsAt(w: World<Creature>, cx: int, cy: int, canReproduce: bool, sunlight: real): Options
    reads w.grid
    requires w.Shaped()
  {
    Options(w.IsWalkable(cx, cy - 1), w.IsWalkable(cx, cy + 1), w.IsWalkable(cx - 1, cy), w.IsWalkable(cx + 1, cy),
            w.GetCellType(cx, cy) in {Food, Plant}, canReproduce, sunlight > 0.3)
  }

  /** Whether `a` is offered under `o`; STAY always is. */
  predicate Offered(o: Options, a: Action)
  {
    match a
    case MoveUp => o.up
    case MoveDown => o.down
    case MoveLeft => o.left
    case MoveRight => o.right
    case Eat => o.eat
    case Reproduce => o.reproduce
    case Photosynthesize => o.photosynthesize
    case Stay => true
  }

  /** `[a]` when `b` holds, else the empty list. */
  function Opt(b: bool, a: Action): seq<Action>
  {
    if b then [a] else []
  }

  /** The list `_get_valid_actions` builds, in the order of its appends. */
  function ValidList(o: Options): seq<Action>
  {
    Opt(o.up, MoveUp) + Opt(o.down, MoveDown) + Opt(o.left, MoveLeft) + Opt(o.right, MoveRight)
    + Opt(o.eat, Eat) + Opt(o.reproduce, Reproduce) + Opt(o.photosynthesize, Photosynthesize) + [Stay]
  }

  /** The actions of `v` are numbered in strictly increasing order. */
  predicate Increasing(v: seq<Action>)
  {
    forall i, j :: 0 <= i < j < |v| ==> v[i].Index() < v[j].Index()
  }

  /** Appending an optional action numbered above everything so far keeps the list increasing,
      and bounds every number by that action's. */
  lemma Grow(v: seq<Action>, b: bool, a: Action) returns (w: seq<Action>)
    requires Increasing(v) && forall x :: x in v ==> x.Index() < a.Index()
    ensures w == v + Opt(b, a)
    ensures Increasing(w) && forall x :: x in w ==> x.Index() <= a.Index()
  {
    w := v + Opt(b, a);
    forall i, j | 0 <= i < j < |w| ensures w[i].Index() < w[j].Index() {
      if j < |v| {
      } else {
        assert w[i] in v;
      }
    }
  }

  /** The valid-action list is never empty, ends with STAY, lists actions in increasing number (so
      without repetition) and holds exactly the offered actions. */
  lemma ValidListShape(o: Options)
    ensures var v := ValidList(o);
      && |v| > 0 && v[|v| - 1] == Stay
      && Increasing(v)
      && (forall a: Action :: a in v <==> Offered(o, a))
  {
    ValidListOrdered(o);
    ValidListMembers(o);
  }

  /** The valid-action list numbers its actions in strictly increasing order. */
  lemma ValidListOrdered(o: Options)
    ensures Increasing(ValidList(o))
  {
    var p1 := Grow([], o.up, MoveUp);
    var p2 := Grow(p1, o.down, MoveDown);
    var p3 := Grow(p2, o.left, MoveLeft);
    var p4 := Grow(p3, o.right, MoveRight);
    var p5 := Grow(p4, o.eat, Eat);
    var p6 := Grow(p5, o.reproduce, Reproduce);
    var p7 := Grow(p6, o.photosynthesize, Photosynthesize);
    var p8 := Grow(p7, true, Stay);
    assert [] + Opt(o.up, MoveUp) == Opt(o.up, MoveUp);
    assert ValidList(o) == p8;
  }

  /** An action is in the valid-action list exactly when it is offered. */
  lemma ValidListMembers(o: Options)
    ensures forall a: Action :: a in ValidList(o) <==> Offered(o, a)
  {
    var p1 := Opt(o.up, MoveUp);
    var p2 := Join(p1, o.down, MoveDown);
    var p3 := Join(p2, o.left, MoveLeft);
    var p4 := Join(p3, o.right, MoveRight);
    var p5 := Join(p4, o.eat, Eat);
    var p6 := Join(p5, o.reproduce, Reproduce);
    var p7 := Join(p6, o.photosynthesize, Photosynthesize);
    var p8 := Join(p7, true, Stay);
    assert ValidList(o) == p8;
    forall a: Action ensures a in p8 <==> Offered(o, a) {
      assert a in p1 <==> o.up && a == MoveUp;
    }
  }

  /** Appending an optional action adds exactly that action, when it is there, to the members. */
  lemma Join(v: seq<Action>, b: bool, a: Action) returns (w: seq<Action>)
    ensures w == v + Opt(b, a)
    ensures forall x :: x in w <==> x in v || (b && x == a)
  {
    w := v + Opt(b, a);
  }

  /** The moves are the first four actions. */
  predicate IsMove(a: Action)
  {
    a.MoveUp? || a.MoveDown? || a.MoveLeft? || a.MoveRight?
  }

  /** The cell a move targets from (x, y); y grows downwards. */
  function Target(a: Action, x: int, y: int): Pos
    requires IsMove(a)
  {
    match a
    case MoveUp => (x, y - 1)
    case MoveDown => (x, y + 1)
    case MoveLeft => (x - 1, y)
    case MoveRight => (x + 1, y)
  }

  /** What `reproduce` draws: the shuffle of the four candidate cells, one `random.random()` and one
      Gaussian value per gene for the child's mutation, and the noise added to each Q-table row. */
  datatype Draws = Draws(order: seq<nat>, mutationDraws: seq<real>, mutationZs: seq<real>, noise: State -> QVector)

  predicate DrawsFit(d: Draws)
  {
    IsPermutation(d.order, 4) && |d.mutationDraws| == 13 && |d.mutationZs| == 13
  }

  /** The chromosome a new creature gets: the given one, or `Chromosome()` drawn from `draws`. */
  method ChromosomeOr(given: Option<Chromosome>, draws: seq<real>) returns (c: Chromosome)
    requires given.Some? ==> given.value.Valid()
    requires given.None? ==> |draws| == 13 && forall i :: 0 <= i < 13 ==> 0.0 <= draws[i] < 1.0
    ensures c.Valid()
    ensures given.Some? ==> c == given.value
    ensures given.None? ==>
              && fresh(c) && fresh(c.Repr)
              && c.values == InitialValues(draws)
  {
    if given.Some? {
      c := given.value;
    } else {
      c := new Chromosome.Init(draws);
    }
  }

  /** The brain a new creature gets: the given one, or an empty one with the configured rates. */
  method BrainOr(given: Option<Brain>, cfg: Config) returns (b: Brain)
    ensures given.Some? ==> b == given.value
    ensures given.None? ==>
              && fresh(b) && b.qTable == map[]
              && b.learningRate == cfg.learningRate && b.discountFactor == cfg.discountFactor
              && b.explorationRate == cfg.explorationRate
  {
    if given.Some? {
      b := given.value;
    } else {
      b := new Brain(cfg.learningRate, cfg.discountFactor, cfg.explorationRate);
    }
  }

  /** What one scanned cell of tag `t` does to the flags: the `elif` chain of `perceive`. */
  function Look(v: Vision, t: CellType): Vision
  {
    if t == Food then v.(foodNearby := true)
    else if t == Plant then v.(plantNearby := true)
    else if t == Wall then v.(wallNearby := true)
    else if t == CellType.Creature then v.(creatureNearby := true)
    else v
  }

  /** Scanning offset (dx, dy) updates the flags exactly by that cell, when it is in sight and in bounds. */
  lemma VisionStep(w: World<Creature>, cx: int, cy: int, r: int, dx: int, dy: int)
    requires w.Shaped() && -r <= dx <= r && -r <= dy <= r
    ensures VisionBefore(w, cx, cy, r, dx, dy + 1) ==
              if (dx != 0 || dy != 0) && dx * dx + dy * dy <= r * r && w.InBounds(cx + dx, cy + dy)
              then Look(VisionBefore(w, cx, cy, r, dx, dy), w.grid[cy + dy, cx + dx])
              else VisionBefore(w, cx, cy, r, dx, dy)
  {
    SeenStep(w, cx, cy, r, Food, dx, dy);
    SeenStep(w, cx, cy, r, Plant, dx, dy);
    SeenStep(w, cx, cy, r, Wall, dx, dy);
    SeenStep(w, cx, cy, r, CellType.Creature, dx, dy);
  }

  /** The end of one column of the scan is the start of the next. */
  lemma VisionColumnEnd(w: World<Creature>, cx: int, cy: int, r: int, dx: int)
    requires w.Shaped()
    ensures VisionBefore(w, cx, cy, r, dx, r + 1) == VisionBefore(w, cx, cy, r, dx + 1, -r)
  {
    SeenColumnEnd(w, cx, cy, r, Food, dx);
    SeenColumnEnd(w, cx, cy, r, Plant, dx);
    SeenColumnEnd(w, cx, cy, r, Wall, dx);
    SeenColumnEnd(w, cx, cy, r, CellType.Creature, dx);
  }

  /** Before the scan nothing is seen; after it the flags are exactly what is in sight. */
  lemma VisionBounds(w: World<Creature>, cx: int, cy: int, r: int)
    requires w.Shaped()
    ensures VisionBefore(w, cx, cy, r, -r, -r) == Vision(false, false, false, false)
    ensures VisionBefore(w, cx, cy, r, r + 1, -r) == VisionOf(w, cx, cy, r)
  {
    SeenNothingYet(w, cx, cy, r, Food);
    SeenNothingYet(w, cx, cy, r, Plant);
    SeenNothingYet(w, cx, cy, r, Wall);
    SeenNothingYet(w, cx, cy, r, CellType.Creature);
    SeenAll(w, cx, cy, r, Food);
    SeenAll(w, cx, cy, r, Plant);
    SeenAll(w, cx, cy, r, Wall);
    SeenAll(w, cx, cy, r, CellType.Creature);
  }

  /** `Creature(x, y, chromosome, brain, energy)`: a missing chromosome is drawn afresh from
      `geneDraws`, a missing brain starts empty with the configured rates, and a missing energy is
      half the maximum. The id is the counter's value, which then moves on by one. */
  method NewCreature(x: int, y: int, chromosome: Option<Chromosome>, brain: Option<Brain>, energy: Option<real>,
                     geneDraws: seq<real>, ids: IdCounter, cfg: Config) returns (c: Creature)
    requires chromosome.Some? ==> chromosome.value.Valid()
    requires chromosome.None? ==> |geneDraws| == 13 && forall i :: 0 <= i < 13 ==> 0.0 <= geneDraws[i] < 1.0
    modifies ids
    ensures fresh(c) && c.Valid()
    ensures c.id == old(ids.next) && ids.next == old(ids.next) + 1
    ensures c.x == x && c.y == y && c.alive
    ensures c.age == 0 && c.generation == 0 && c.offspringCount == 0 && c.foodEaten == 0
    ensures c.energy == if energy.Some? then energy.value else cfg.maxEnergy * 0.5
    ensures chromosome.Some? ==> c.chromosome == chromosome.value
    ensures chromosome.None? ==>
              && fresh(c.chromosome) && fresh(c.chromosome.Repr)
              && c.chromosome.values == InitialValues(geneDraws)
    ensures brain.Some? ==> c.brain == brain.value
    ensures brain.None? ==>
              && fresh(c.brain) && c.brain.qTable == map[]
              && c.brain.learningRate == cfg.learningRate && c.brain.discountFactor == cfg.discountFactor
              && c.brain.explorationRate == cfg.explorationRate
  {
    var ch := ChromosomeOr(chromosome, geneDraws);
    var b := BrainOr(brain, cfg);
    var e := if energy.Some? then energy.value else cfg.maxEnergy * 0.5;
    var id := TakeId(ids);
    c := new Creature(id, x, y, ch, b, e, 0);
  }

  /** `o` is a creature as `reproduce` leaves it at `cell`: well formed, of generation `gen`, with
      `energy`, no age and no history, genes holding `values` and a brain with `table` and `rates`
      (learning, discount, exploration). */
  ghost predicate Born(o: Creature, cell: Pos, gen: nat, energy: real, values: map<Trait, real>,
                       table: map<State, QVector>, rates: (real, real, real))
    reads o, o.chromosome, o.chromosome.Repr, o.brain
  {
    && o.Valid() && (o.x, o.y) == cell
    && o.alive && o.age == 0 && o.generation == gen && o.energy == energy
    && o.offspringCount == 0 && o.foodEaten == 0
    && o.chromosome.values == values && o.brain.qTable == table
    && (o.brain.learningRate, o.brain.discountFactor, o.brain.explorationRate) == rates
  }

  class Creature {
    const id: nat
    var x: int
    var y: int
    var alive: bool
    const chromosome: Chromosome
    const brain: Brain
    var energy: real
    var age: nat
    var generation: nat
    var offspringCount: nat
    var foodEaten: nat
    /** The cached trait values; the chromosome is never changed after construction. */
    const traits: Traits

    /** The chromosome is well formed and the cache agrees with it. */
    ghost predicate Valid()
      reads chromosome, chromosome.Repr
    {
      chromosome.Valid() && InRanges(chromosome.values) && traits == TraitsFrom(chromosome.values)
    }

    /** The field initialisation of `Creature(...)` once the defaults are resolved and the id is
        drawn from the counter (see `NewCreature`). */
    constructor (id: nat, x: int, y: int, c: Chromosome, b: Brain, e: real, gen: nat)
      requires c.Valid()
      ensures Valid()
      ensures this.id == id && this.x == x && this.y == y && alive
      ensures age == 0 && generation == gen && offspringCount == 0 && foodEaten == 0
      ensures energy == e && chromosome == c && brain == b
    {
      var t := CacheTraits(c);
      this.id := id;
      this.x, this.y, alive := x, y, true;
      this.chromosome := c;
      this.brain := b;
      this.energy := e;
      age, generation, offspringCount, foodEaten := 0, gen, 0, 0;
      traits := t;
    }

    /** `perceive`: the four flags say exactly whether some in-bounds cell within the vision disc
        (but not the creature's own cell) carries that tag; `can_reproduce` compares the energy with
        the reproduction threshold. */
    method Perceive(world: World<Creature>) returns (vision: Vision, internal: Internal)
      requires world.Shaped()
      ensures vision == VisionOf(world, x, y, traits.visionRange)
      ensures internal == Internal(energy, energy >= traits.reproductionThreshold)
    {
      var r := traits.visionRange;
      VisionBounds(world, x, y, r);
      vision := Vision(false, false, false, false);
      var dx := -r;
      while dx <= r
        invariant -r <= dx <= r + 1 || (r < 0 && dx == -r)
        invariant vision == VisionBefore(world, x, y, r, dx, -r)
      {
        vision := ScanColumn(world, dx, vision);
        VisionColumnEnd(world, x, y, r, dx);
        dx := dx + 1;
      }
      if r < 0 {
        VisionEmpty(world, x, y, r);
      }
      internal := Internal(energy, energy >= traits.reproductionThreshold);
    }

    /** The inner loop of `perceive`, over dy for one dx. */
    method ScanColumn(world: World<Creature>, dx: int, v: Vision) returns (vision: Vision)
      requires world.Shaped() && -traits.visionRange <= dx <= traits.visionRange
      requires v == VisionBefore(world, x, y, traits.visionRange, dx, -traits.visionRange)
      ensures vision == VisionBefore(world, x, y, traits.visionRange, dx, traits.visionRange + 1)
    {
      var r := traits.visionRange;
      vision := v;
      var dy := -r;
      while dy <= r
        invariant -r <= dy <= r + 1
        invariant vision == VisionBefore(world, x, y, r, dx, dy)
      {
        VisionStep(world, x, y, r, dx, dy);
        if !(dx == 0 && dy == 0) && dx * dx + dy * dy <= r * r && world.InBounds(x + dx, y + dy) {
          var cellType := world.GetCellType(x + dx, y + dy);
          if cellType == Food {
            vision := vision.(foodNearby := true);
          } else if cellType == Plant {
            vision := vision.(plantNearby := true);
          } else if cellType == Wall {
            vision := vision.(wallNearby := true);
          } else if cellType == CellType.Creature {
            vision := vision.(creatureNearby := true);
          }
        }
        dy := dy + 1;
      }
    }

    /** `_get_valid_actions`, built by appending in the program's order. */
    method GetValidActions(world: World<Creature>, internal: Internal) returns (valid: seq<Action>)
      requires world.Shaped()
      ensures valid == ValidList(OptionsAt(world, x, y, internal.canReproduce, traits.sunlightEfficiency))
    {
      ghost var o := OptionsAt(world, x, y, internal.canReproduce, traits.sunlightEfficiency);
      valid := [];
      if world.IsWalkable(x, y - 1) {
        valid := valid + [MoveUp];
      }
      assert valid == Opt(o.up, MoveUp);
      ghost var v1 := valid;
      if world.IsWalkable(x, y + 1) {
        valid := valid + [MoveDown];
      }
      assert valid == v1 + Opt(o.down, MoveDown);
      ghost var v2 := valid;
      if world.IsWalkable(x - 1, y) {
        valid := valid + [MoveLeft];
      }
      assert valid == v2 + Opt(o.left, MoveLeft);
      ghost var v3 := valid;
      if world.IsWalkable(x + 1, y) {
        valid := valid + [MoveRight];
      }
      assert valid == v3 + Opt(o.right, MoveRight);
      ghost var v4 := valid;
      var cellType := world.GetCellType(x, y);
      if cellType in {Food, Plant} {
        valid := valid + [Eat];
      }
      assert valid == v4 + Opt(o.eat, Eat);
      ghost var v5 := valid;
      if internal.canReproduce {
        valid := valid + [Action.Reproduce];
      }
      assert valid == v5 + Opt(o.reproduce, Action.Reproduce);
      ghost var v6 := valid;
      if traits.sunlightEfficiency > 0.3 {
        valid := valid + [Photosynthesize];
      }
      assert valid == v6 + Opt(o.photosynthesize, Photosynthesize);
      valid := valid + [Stay];
    }

    /** `decide_action`, with the draws of `choose_action`: the state is the bucketed perception, and
        the action is one of the valid actions, taken at `pick` when exploring and otherwise the first
        best one by the brain's table (which then holds a row for the state). */
    method DecideAction(world: World<Creature>, u: real, pick: nat) returns (action: Action, state: State)
      requires world.Shaped()
      modifies brain`qTable
      ensures state == GetStateRepresentation(VisionOf(world, x, y, traits.visionRange),
                                              Internal(energy, energy >= traits.reproductionThreshold))
      ensures var valid := ValidList(OptionsAt(world, x, y, energy >= traits.reproductionThreshold, traits.sunlightEfficiency));
        && action in valid
        && (u < brain.explorationRate ==> action == valid[pick % |valid|] && brain.qTable == old(brain.qTable))
        && (u >= brain.explorationRate ==>
              && brain.qTable == Materialize(old(brain.qTable), state)
              && forall j :: 0 <= j < |valid| ==> brain.qTable[state][valid[j].Index()] <= brain.qTable[state][action.Index()])
    {
      var vision, internal := Perceive(world);
      state := GetStateRepresentation(vision, internal);
      var valid := GetValidActions(world, internal);
      ValidListShape(OptionsAt(world, x, y, internal.canReproduce, traits.sunlightEfficiency));
      action := brain.ChooseAction(state, Some(valid), u, pick);
    }


    /** The successful branch of `reproduce`: the child is built at `cell` and the parent pays the
        reproduction cost (no step of the child's construction reads the parent's energy, so the
        payment is made first). */
    method Breed(cell: Pos, d: Draws, ids: IdCounter, cfg: Config) returns (o: Creature)
      requires chromosome.Valid() && DrawsFit(d)
      modifies this`energy, ids
      ensures energy == old(energy) - cfg.reproductionCost
      ensures fresh(o) && fresh(o.chromosome) && fresh(o.chromosome.Repr) && fresh(o.brain)
      ensures Born(o, cell, generation + 1, traits.offspringEnergy,
                   MutatedValues(chromosome.values, cfg.mutationRate, d.mutationDraws, d.mutationZs),
                   NoisyTable(brain.qTable, d.noise), (brain.learningRate, brain.discountFactor, brain.explorationRate))
      ensures o.id == old(ids.next) && ids.next == old(ids.next) + 1
    {
      energy := energy - cfg.reproductionCost;
      o := Offspring(chromosome, brain, cell, generation + 1, traits.offspringEnergy, d, ids, cfg);
    }

    /** The search loop of `reproduce`: the position of the first candidate that is EMPTY and in
        bounds, or the number of candidates when there is none. */
    static method FindFree(world: World<Creature>, cands: seq<Pos>) returns (i: nat)
      requires world.Shaped()
      ensures i == FirstFree(world, cands)
    {
      i := 0;
      while i < |cands| && !(world.IsEmpty(cands[i].0, cands[i].1) && world.InBounds(cands[i].0, cands[i].1))
        invariant 0 <= i <= |cands|
        invariant forall j :: 0 <= j < i ==> !world.IsEmpty(cands[j].0, cands[j].1)
      {
        i := i + 1;
      }
      FirstFreeIsFirst(world, cands, i);
    }

    /** `reproduce`: nothing happens below the reproduction threshold or when no shuffled neighbour
        is in bounds and EMPTY. Otherwise the first such neighbour receives a child (see `Born`) with the mutated genes and noisy brain of its parent,
        with the next id, and the parent pays the reproduction cost. The world is not touched: the
        child is returned, not placed. */
    method Reproduce(world: World<Creature>, d: Draws, ids: IdCounter, cfg: Config) returns (offspring: Option<Creature>)
      requires chromosome.Valid() && world.Shaped() && DrawsFit(d)
      modifies this`energy, ids
      ensures var k := FirstFree(world, Shuffled(Neighbours(x, y), d.order));
        && (old(energy) < traits.reproductionThreshold || k == 4 <==> offspring == None)
        && (offspring == None ==> energy == old(energy) && ids.next == old(ids.next))
        && (offspring.Some? ==>
              && fresh(offspring.value)
              && Born(offspring.value, Shuffled(Neighbours(x, y), d.order)[k], generation + 1, traits.offspringEnergy,
                      MutatedValues(chromosome.values, cfg.mutationRate, d.mutationDraws, d.mutationZs),
                      NoisyTable(brain.qTable, d.noise), (brain.learningRate, brain.discountFactor, brain.explorationRate))
              && offspring.value.id == old(ids.next) && ids.next == old(ids.next) + 1
              && energy == old(energy) - cfg.reproductionCost)
    {
      if energy < traits.reproductionThreshold {
        return None;
      }
      var cands := Shuffled(Neighbours(x, y), d.order);
      var i := FindFree(world, cands);
      if i == 4 {
        return None;
      }
      var o := Breed(cands[i], d, ids, cfg);
      return Some(o);
    }

    /** The effect of a move action: the target is tried with `move_creature`; on success the
        creature stands there and pays `MOVEMENT_COST * size` on top of the base reward -0.1, on
        failure it stays and gets the base reward. Resources, energy and counters do not change. The
        grid changes as `move_creature` changes it: the target is tagged CREATURE and an indexed old
        cell becomes EMPTY, every other cell is kept. */
    twostate predicate MoveEffect(action: Action, world: World<Creature>, ids: IdCounter, reward: real, cfg: Config)
      requires IsMove(action) && world.Shaped()
      reads this, world, world.grid, ids
    {
      var target := Target(action, old(x), old(y));
      var ok := old(world.IsWalkable(target.0, target.1));
      && energy == old(energy) && foodEaten == old(foodEaten) && offspringCount == old(offspringCount)
      && ids.next == old(ids.next)
      && world.resources == old(world.resources) && world.allCreatures == old(world.allCreatures)
      && (ok ==> && (x, y) == target && reward == -0.1 - cfg.movementCost * traits.size as real
                 && world.creatures == (old(world.creatures) - {(old(x), old(y))})[target := this])
      && (!ok ==> && x == old(x) && y == old(y) && reward == -0.1 && world.creatures == old(world.creatures))
      && (ok ==> && world.GetCellType(target.0, target.1) == CellType.Creature
                 && ((old(x), old(y)) in old(world.creatures) ==> world.GetCellType(old(x), old(y)) == Empty)
                 && world.GridKeptExcept(if (old(x), old(y)) in old(world.creatures)
                                         then {(old(x), old(y)), target} else {target}))
      && (!ok ==> world.GridKeptExcept({}))
    }

    /** The effect of EAT: `consume_resource` at the creature's cell; a positive gain feeds the
        creature `gain * energy_efficiency`, counts one meal, adds the gain to the base reward and
        tags the cell CREATURE; every other cell is kept. */
    twostate predicate EatEffect(world: World<Creature>, ids: IdCounter, reward: real)
      requires world.Shaped()
      reads this, world, world.grid, world.resources.Values, ids
    {
      var p := (old(x), old(y));
      var gain := if p in old(world.resources)
                  then Gain(old(world.resources[p].kind), old(world.resources[p].energyValue),
                            traits.foodPreference, traits.plantPreference)
                  else 0.0;
      && x == old(x) && y == old(y) && offspringCount == old(offspringCount) && ids.next == old(ids.next)
      && world.creatures == old(world.creatures) && world.allCreatures == old(world.allCreatures)
      && (gain > 0.0 ==> && energy == old(energy) + gain * traits.energyEfficiency
                         && foodEaten == old(foodEaten) + 1 && reward == -0.1 + gain
                         && world.resources == old(world.resources) - {p})
      && (gain <= 0.0 ==> && energy == old(energy) && foodEaten == old(foodEaten) && reward == -0.1
                          && world.resources == old(world.resources))
      && (gain > 0.0 ==> world.GetCellType(p.0, p.1) == CellType.Creature && world.GridKeptExcept({p}))
      && (gain <= 0.0 ==> world.GridKeptExcept({}))
    }

    /** The effect of REPRODUCE: a child is produced exactly when `reproduce` finds one (and is then
        dropped); that costs the parent the reproduction cost, counts one offspring and earns 20. */
    twostate predicate ReproduceEffect(world: World<Creature>, d: Draws, ids: IdCounter, reward: real, cfg: Config)
      requires world.Shaped() && DrawsFit(d)
      reads this, world, world.grid, ids
    {
      var born := old(energy) >= traits.reproductionThreshold
                  && FirstFree(world, Shuffled(Neighbours(x, y), d.order)) < 4;
      && x == old(x) && y == old(y) && foodEaten == old(foodEaten)
      && unchanged(world, world.grid)
      && (born ==> && energy == old(energy) - cfg.reproductionCost
                   && offspringCount == old(offspringCount) + 1 && reward == -0.1 + 20.0
                   && ids.next == old(ids.next) + 1)
      && (!born ==> && energy == old(energy) && offspringCount == old(offspringCount) && reward == -0.1
                    && ids.next == old(ids.next))
    }

    /** The effect of PHOTOSYNTHESIZE: e = SUNLIGHT_INTENSITY * sunlight_efficiency * 0.1 is gained,
        earning e / 2 on top of the base reward. */
    twostate predicate PhotosynthesisEffect(world: World<Creature>, ids: IdCounter, reward: real, cfg: Config)
      reads this, world, world.grid, ids
    {
      var e := cfg.sunlightIntensity * traits.sunlightEfficiency * 0.1;
      && x == old(x) && y == old(y) && foodEaten == old(foodEaten) && offspringCount == old(offspringCount)
      && energy == old(energy) + e && reward == -0.1 + e * 0.5
      && ids.next == old(ids.next) && unchanged(world, world.grid)
    }

    /** The effect of STAY: reward -0.05 and no change at all. */
    twostate predicate StayEffect(world: World<Creature>, ids: IdCounter, reward: real)
      reads this, world, world.grid, ids
    {
      && x == old(x) && y == old(y) && foodEaten == old(foodEaten) && offspringCount == old(offspringCount)
      && energy == old(energy) && reward == -0.05
      && ids.next == old(ids.next) && unchanged(world, world.grid)
    }

    /** The move branches of `execute_action`. */
    method MoveAction(action: Action, world: World<Creature>, ids: IdCounter, cfg: Config) returns (reward: real)
      requires IsMove(action) && world.Valid()
      modifies this`x, this`y, world, world.grid
      ensures world.Valid()
      ensures MoveEffect(action, world, ids, reward, cfg)
    {
      reward := -0.1;
      var target := Target(action, x, y);
      var ok := world.MoveCreature(this, x, y, target.0, target.1);
      if ok {
        x, y := target.0, target.1;
        reward := reward - cfg.movementCost * traits.size as real;
      }
    }

    /** The EAT branch of `execute_action`. */
    method EatAction(world: World<Creature>, ids: IdCounter) returns (reward: real)
      requires world.Valid()
      modifies this`energy, this`foodEaten, world, world.grid
      ensures world.Valid()
      ensures EatEffect(world, ids, reward)
    {
      var energyGained := world.ConsumeResource(x, y, traits.foodPreference, traits.plantPreference);
      reward := Feed(energyGained);
    }

    /** What EAT does with the gain `consume_resource` returned: a positive gain feeds the creature
        `gain * energy_efficiency`, counts one meal and adds the gain to the base reward of -0.1. */
    method Feed(energyGained: real) returns (reward: real)
      modifies this`energy, this`foodEaten
      ensures energyGained > 0.0 ==> && energy == old(energy) + energyGained * traits.energyEfficiency
                                     && foodEaten == old(foodEaten) + 1 && reward == -0.1 + energyGained
      ensures energyGained <= 0.0 ==> energy == old(energy) && foodEaten == old(foodEaten) && reward == -0.1
    {
      reward := -0.1;
      if energyGained > 0.0 {
        energy, foodEaten := energy + energyGained * traits.energyEfficiency, foodEaten + 1;
        reward := reward + energyGained;
      }
    }

    /** The call of `reproduce` in `execute_action`: only whether a child came back is used, and the
        child itself is dropped. */
    method ReproduceAndDrop(world: World<Creature>, d: Draws, ids: IdCounter, cfg: Config) returns (born: bool)
      requires chromosome.Valid() && world.Shaped() && DrawsFit(d)
      modifies this`energy, ids
      ensures born <==> old(energy) >= traits.reproductionThreshold
                        && FirstFree(world, Shuffled(Neighbours(x, y), d.order)) < 4
      ensures born ==> energy == old(energy) - cfg.reproductionCost && ids.next == old(ids.next) + 1
      ensures !born ==> energy == old(energy) && ids.next == old(ids.next)
    {
      var offspring := Reproduce(world, d, ids, cfg);
      born := offspring.Some?;
    }

    /** The REPRODUCE branch of `execute_action`. */
    method ReproduceAction(world: World<Creature>, d: Draws, ids: IdCounter, cfg: Config) returns (reward: real)
      requires chromosome.Valid() && world.Shaped() && DrawsFit(d)
      modifies this`energy, this`offspringCount, ids
      ensures ReproduceEffect(world, d, ids, reward, cfg)
    {
      reward := -0.1;
      var born := ReproduceAndDrop(world, d, ids, cfg);
      if born {
        reward := reward + 20.0;
        offspringCount := offspringCount + 1;
      }
    }

    /** The PHOTOSYNTHESIZE branch of `execute_action`. */
    method PhotosynthesizeAction(world: World<Creature>, ids: IdCounter, cfg: Config) returns (reward: real)
      modifies this`energy
      ensures PhotosynthesisEffect(world, ids, reward, cfg)
    {
      reward := -0.1;
      var energyGained := cfg.sunlightIntensity * traits.sunlightEfficiency * 0.1;
      energy := energy + energyGained;
      reward := reward + energyGained * 0.5;
    }

    /** The STAY branch of `execute_action`. */
    method StayAction(world: World<Creature>, ids: IdCounter) returns (reward: real)
      ensures StayEffect(world, ids, reward)
    {
      reward := -0.1;
      reward := reward + 0.05;
    }

    /** The effect of `action`, as one of the predicates above states it. */
    twostate predicate ActionEffect(action: Action, world: World<Creature>, d: Draws, ids: IdCounter, reward: real, cfg: Config)
      requires world.Shaped() && DrawsFit(d)
      reads this, world, world.grid, world.resources.Values, ids
    {
      match action
      case MoveUp | MoveDown | MoveLeft | MoveRight => MoveEffect(action, world, ids, reward, cfg)
      case Eat => EatEffect(world, ids, reward)
      case Reproduce => ReproduceEffect(world, d, ids, reward, cfg)
      case Photosynthesize => PhotosynthesisEffect(world, ids, reward, cfg)
      case Stay => StayEffect(world, ids, reward)
    }

    /** `execute_action`: every action starts from the base reward -0.1; the effect of each action
        is stated by its predicate above. */
    method ExecuteAction(action: Action, world: World<Creature>, d: Draws, ids: IdCounter, cfg: Config)
      returns (reward: real)
      requires chromosome.Valid() && world.Valid() && DrawsFit(d)
      modifies this`x, this`y, this`energy, this`foodEaten, this`offspringCount, world, world.grid, ids
      ensures world.Valid()
      ensures ActionEffect(action, world, d, ids, reward, cfg)
    {
      match action
      case MoveUp | MoveDown | MoveLeft | MoveRight =>
        reward := MoveAction(action, world, ids, cfg);
      case Eat =>
        reward := EatAction(world, ids);
      case Reproduce =>
        reward := ReproduceAction(world, d, ids, cfg);
      case Photosynthesize =>
        reward := PhotosynthesizeAction(world, ids, cfg);
      case Stay =>
        reward := StayAction(world, ids);
    }

    /** `update`: one tick older; the upkeep `CREATURE_ENERGY_DECAY * metabolism * size` is paid; the
        creature dies when that leaves it with no energy (and never comes back to life); the energy is
        then capped at the maximum. */
    method Update(cfg: Config)
      modifies this`age, this`energy, this`alive
      ensures age == old(age) + 1
      ensures var e := old(energy) - cfg.energyDecay * traits.metabolism * traits.size as real;
        && energy == (if e > cfg.maxEnergy then cfg.maxEnergy else e)
        && (alive <==> old(alive) && e > 0.0)
      ensures energy <= cfg.maxEnergy
    {
      age := age + 1;
      var energyCost := cfg.energyDecay * traits.metabolism * traits.size as real;
      energy := energy - energyCost;
      if energy <= 0.0 {
        alive := false;
      }
      if energy > cfg.maxEnergy {
        energy := cfg.maxEnergy;
      }
    }
  }

  /** `self.chromosome.copy()` followed by `mutate(MUTATION_RATE)` on the copy. */
  method ChildChromosome(parent: Chromosome, d: Draws, cfg: Config) returns (c: Chromosome)
    requires parent.Valid() && DrawsFit(d)
    ensures fresh(c) && fresh(c.Repr) && c.Valid()
    ensures c.values == MutatedValues(parent.values, cfg.mutationRate, d.mutationDraws, d.mutationZs)
  {
    c := parent.Copy();
    var _ := c.Mutate(cfg.mutationRate, d.mutationDraws, d.mutationZs);
  }

  /** The child `reproduce` builds at `cell` from a parent's genes and brain: mutated copies of both,
      with the given generation and energy and the next id. */
  method Offspring(parentGenes: Chromosome, parentBrain: Brain, cell: Pos, gen: nat, e: real,
                   d: Draws, ids: IdCounter, cfg: Config) returns (o: Creature)
    requires parentGenes.Valid() && DrawsFit(d)
    modifies ids
    ensures fresh(o) && fresh(o.chromosome) && fresh(o.chromosome.Repr) && fresh(o.brain)
    ensures Born(o, cell, gen, e,
                 MutatedValues(parentGenes.values, cfg.mutationRate, d.mutationDraws, d.mutationZs),
                 NoisyTable(parentBrain.qTable, d.noise),
                 (parentBrain.learningRate, parentBrain.discountFactor, parentBrain.explorationRate))
    ensures o.id == old(ids.next) && ids.next == old(ids.next) + 1
  {
    var c, b := ChildParts(parentGenes, parentBrain, d, cfg);
    var id := TakeId(ids);
    o := new Creature(id, cell.0, cell.1, c, b, e, gen);
  }

  /** The mutated gene copy and the noisy brain copy of a child. */
  method ChildParts(parentGenes: Chromosome, parentBrain: Brain, d: Draws, cfg: Config) returns (c: Chromosome, b: Brain)
    requires parentGenes.Valid() && DrawsFit(d)
    ensures fresh(c) && fresh(c.Repr) && fresh(b) && c.Valid()
    ensures c.values == MutatedValues(parentGenes.values, cfg.mutationRate, d.mutationDraws, d.mutationZs)
    ensures b.qTable == NoisyTable(parentBrain.qTable, d.noise)
    ensures (b.learningRate, b.discountFactor, b.explorationRate) ==
            (parentBrain.learningRate, parentBrain.discountFactor, parentBrain.explorationRate)
  {
    c := ChildChromosome(parentGenes, d, cfg);
    b := parentBrain.Copy(d.noise);
  }

  /** With a negative range nothing is in sight. */
  lemma VisionEmpty(w: World<Creature>, cx: int, cy: int, r: int)
    requires w.Shaped() && r < 0
    ensures VisionBefore(w, cx, cy, r, -r, -r) == VisionOf(w, cx, cy, r)
  {
    VisionBounds(w, cx, cy, r);
  }

  /** The search loop of `reproduce` stops at `FirstFree`. */
  lemma {:induction false} FirstFreeIsFirst(w: World<Creature>, cands: seq<Pos>, i: nat)
    requires w.Shaped() && i <= |cands|
    requires forall j :: 0 <= j < i ==> !w.IsEmpty(cands[j].0, cands[j].1)
    requires i < |cands| ==> w.IsEmpty(cands[i].0, cands[i].1)
    ensures FirstFree(w, cands) == i
  {
    if i > 0 {
      FirstFreeIsFirst(w, cands[1..], i - 1);
    }
  }
}
