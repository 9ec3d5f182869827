/** Population statistics (`statistics.py`): the counters and aggregates of `update`, without the
    wall-clock timing. */
module Stats {
  import opened Worlds
  import opened Creatures

  /** What `update` reads from one creature. */
  datatype Record = Record(generation: nat, size: int, speed: real, visionRange: int, energy: real, age: nat)

  /** The keys of `average_traits` ('size', 'speed', 'vision_range', 'energy', 'age'). */
  datatype Tracked = TrackSize | TrackSpeed | TrackVisionRange | TrackEnergy | TrackAge

  /** The value a record adds to the sum kept under `k`. */
  function Value(r: Record, k: Tracked): real
  {
    match k
    case TrackSize => r.size as real
    case TrackSpeed => r.speed
    case TrackVisionRange => r.visionRange as real
    case TrackEnergy => r.energy
    case TrackAge => r.age as real
  }

  /** The record of a creature: its generation, cached size, speed and vision range, energy and age. */
  ghost function RecordOf(c: Creature): Record
    reads c
  {
    Record(c.generation, c.traits.size, c.traits.speed, c.traits.visionRange, c.energy, c.age)
  }

  /** The records of a creature list, in list order. */
  ghost function Records(cs: seq<Creature>): (rs: seq<Record>)
    reads cs
    ensures |rs| == |cs|
  {
    if cs == [] then [] else [RecordOf(cs[0])] + Records(cs[1..])
  }

  /** The record at position `i` is that of the creature at position `i`. */
  lemma {:induction false} RecordsAt(cs: seq<Creature>, i: nat)
    requires i < |cs|
    ensures Records(cs)[i] == RecordOf(cs[i])
  {
    if i > 0 {
      RecordsAt(cs[1..], i - 1);
    }
  }

  /** A `defaultdict(int)` lookup. */
  function Count(h: map<nat, nat>, g: nat): nat
  {
    if g in h then h[g] else 0
  }

  /** The generation distribution of the first `n` records, built one record at a time. */
  function Histogram(rs: seq<Record>, n: nat): map<nat, nat>
    requires n <= |rs|
  {
    if n == 0 then map[]
    else
      var h := Histogram(rs, n - 1);
      h[rs[n - 1].generation := Count(h, rs[n - 1].generation) + 1]
  }

  /** How many of the first `n` records have generation `g`. */
  function Occurrences(rs: seq<Record>, n: nat, g: nat): nat
    requires n <= |rs|
  {
    if n == 0 then 0 else Occurrences(rs, n - 1, g) + (if rs[n - 1].generation == g then 1 else 0)
  }

  /** The sum of the generations of the first `n` records. */
  function GenerationSum(rs: seq<Record>, n: nat): nat
    requires n <= |rs|
  {
    if n == 0 then 0 else GenerationSum(rs, n - 1) + rs[n - 1].generation
  }

  /** The running maximum of `update`, which starts from 0. */
  function MaxGeneration(rs: seq<Record>, n: nat): nat
    requires n <= |rs|
  {
    if n == 0 then 0
    else if MaxGeneration(rs, n - 1) < rs[n - 1].generation then rs[n - 1].generation
    else MaxGeneration(rs, n - 1)
  }

  /** The sum kept under `k` over the first `n` records. */
  function TrackedSum(rs: seq<Record>, n: nat, k: Tracked): real
    requires n <= |rs|
  {
    if n == 0 then 0.0 else TrackedSum(rs, n - 1, k) + Value(rs[n - 1], k)
  }

  /** The counts a distribution holds for the generations below `m`, added up. */
  function TotalBelow(h: map<nat, nat>, m: nat): nat
  {
    if m == 0 then 0 else TotalBelow(h, m - 1) + Count(h, m - 1)
  }

  /** Each count in the distribution is the number of records with that generation. */
  lemma {:induction false} HistogramCounts(rs: seq<Record>, n: nat, g: nat)
    requires n <= |rs|
    ensures Count(Histogram(rs, n), g) == Occurrences(rs, n, g)
  {
    if n > 0 {
      HistogramCounts(rs, n - 1, g);
    }
  }

  /** The distribution's keys are exactly the generations that occur. */
  lemma {:induction false} HistogramKeys(rs: seq<Record>, n: nat, g: nat)
    requires n <= |rs|
    ensures g in Histogram(rs, n) <==> exists i :: 0 <= i < n && rs[i].generation == g
  {
    if n > 0 {
      HistogramKeys(rs, n - 1, g);
      if g in Histogram(rs, n - 1) {
        var i :| 0 <= i < n - 1 && rs[i].generation == g;
        assert 0 <= i < n && rs[i].generation == g;
      }
    }
  }

  /** The running maximum bounds every generation and, unless there are no records, is one of them. */
  lemma {:induction false} MaxGenerationIsMax(rs: seq<Record>, n: nat)
    requires n <= |rs|
    ensures forall i :: 0 <= i < n ==> rs[i].generation <= MaxGeneration(rs, n)
    ensures n > 0 ==> exists i :: 0 <= i < n && rs[i].generation == MaxGeneration(rs, n)
  {
    if n > 0 {
      MaxGenerationIsMax(rs, n - 1);
      if MaxGeneration(rs, n - 1) >= rs[n - 1].generation && n > 1 {
        var i :| 0 <= i < n - 1 && rs[i].generation == MaxGeneration(rs, n - 1);
        assert 0 <= i < n && rs[i].generation == MaxGeneration(rs, n);
      }
    }
  }

  /** Counting one more record of generation `g` raises the total below `m` by one when `g < m`. */
  lemma {:induction false} TotalBelowBump(h: map<nat, nat>, g: nat, m: nat)
    ensures TotalBelow(h[g := Count(h, g) + 1], m) == TotalBelow(h, m) + (if g < m then 1 else 0)
  {
    if m > 0 {
      TotalBelowBump(h, g, m - 1);
    }
  }

  /** Raising the bound past every key adds nothing. */
  lemma {:induction false} TotalBelowBeyond(h: map<nat, nat>, m: nat, m': nat)
    requires m <= m' && forall g :: g in h ==> g < m
    ensures TotalBelow(h, m') == TotalBelow(h, m)
  {
    if m < m' {
      TotalBelowBeyond(h, m, m' - 1);
    }
  }

  /** The distribution's counts, over all generations up to the maximum, add up to the number of
      records. */
  lemma {:induction false} HistogramTotal(rs: seq<Record>, n: nat)
    requires n <= |rs|
    ensures forall g :: g in Histogram(rs, n) ==> g <= MaxGeneration(rs, n)
    ensures TotalBelow(Histogram(rs, n), MaxGeneration(rs, n) + 1) == n
  {
    if n > 0 {
      HistogramTotal(rs, n - 1);
      var h, m, g := Histogram(rs, n - 1), MaxGeneration(rs, n - 1), rs[n - 1].generation;
      TotalBelowBeyond(h, m + 1, MaxGeneration(rs, n) + 1);
      TotalBelowBump(h, g, MaxGeneration(rs, n) + 1);
    }
  }

  class Statistics {
    var ticks: nat
    var creatureCount: nat
    var peakPopulation: nat
    var totalBirths: nat
    var totalDeaths: nat
    var generationDistribution: map<nat, nat>
    var averageGeneration: real
    var maxGeneration: nat
    var averageTraits: map<Tracked, real>

    /** `Statistics()`: every counter and aggregate starts at zero or empty. */
    constructor ()
      ensures ticks == 0 && creatureCount == 0 && peakPopulation == 0 && totalBirths == 0 && totalDeaths == 0
      ensures generationDistribution == map[] && averageGeneration == 0.0 && maxGeneration == 0
      ensures averageTraits == map[]
    {
      ticks, creatureCount, peakPopulation, totalBirths, totalDeaths := 0, 0, 0, 0, 0;
      generationDistribution, averageGeneration, maxGeneration := map[], 0.0, 0;
      averageTraits := map[];
    }

    /** `update`: one more tick, the current population and its peak; with a non-empty population the
        generation distribution, its maximum and mean, and the five trait means are recomputed over
        `all_creatures`, and with an empty one they keep their previous values. The birth and death
        counters are not touched. */
    method Update(world: World<Creature>)
      modifies this
      ensures ticks == old(ticks) + 1 && creatureCount == |world.allCreatures|
      ensures peakPopulation == (if creatureCount > old(peakPopulation) then creatureCount else old(peakPopulation))
      ensures totalBirths == old(totalBirths) && totalDeaths == old(totalDeaths)
      ensures var rs, n := old(Records(world.allCreatures)), |world.allCreatures|;
        n > 0 ==> && generationDistribution == Histogram(rs, n)
                  && maxGeneration == MaxGeneration(rs, n)
                  && averageGeneration == Mean(GenerationSum(rs, n) as real, n)
                  && forall k :: k in averageTraits && averageTraits[k] == Mean(TrackedSum(rs, n, k), n)
      ensures |world.allCreatures| == 0 ==>
                && generationDistribution == old(generationDistribution) && maxGeneration == old(maxGeneration)
                && averageGeneration == old(averageGeneration) && averageTraits == old(averageTraits)
    {
      var cs := world.allCreatures;
      ghost var rs := Records(cs);
      ticks := ticks + 1;
      creatureCount := |cs|;
      if creatureCount > peakPopulation {
        peakPopulation := creatureCount;
      }
      if creatureCount > 0 {
        Summarise(cs, rs);
      }
    }

    /** The block of `update` run when there are creatures: the distribution is cleared and refilled,
        the maximum restarts from 0, and the means divide the totals by the population. */
    method Summarise(cs: seq<Creature>, ghost rs: seq<Record>)
      requires |cs| > 0 && rs == Records(cs)
      modifies this`generationDistribution, this`maxGeneration, this`averageGeneration, this`averageTraits
      ensures generationDistribution == Histogram(rs, |cs|) && maxGeneration == MaxGeneration(rs, |cs|)
      ensures averageGeneration == Mean(GenerationSum(rs, |cs|) as real, |cs|)
      ensures forall k :: k in averageTraits && averageTraits[k] == Mean(TrackedSum(rs, |cs|, k), |cs|)
    {
      var distribution, totalGeneration, maxSeen, traitSums := Tally(cs, rs);
      generationDistribution, maxGeneration := distribution, maxSeen;
      averageGeneration := Mean(totalGeneration as real, |cs|);
      AveragedAt(averageTraits, traitSums, |cs|);
      averageTraits := Averaged(averageTraits, traitSums, |cs|);
    }

    /** The loop of `update` over `all_creatures`: the generation distribution, the generation total,
        the running maximum from 0, and the five trait sums (absent keys before the first creature). */
    static method Tally(cs: seq<Creature>, ghost rs: seq<Record>)
      returns (distribution: map<nat, nat>, totalGeneration: nat, maxSeen: nat, traitSums: map<Tracked, real>)
      requires rs == Records(cs)
      ensures && distribution == Histogram(rs, |cs|) && totalGeneration == GenerationSum(rs, |cs|)
        && maxSeen == MaxGeneration(rs, |cs|)
        && (|cs| > 0 ==> forall k :: k in traitSums && traitSums[k] == TrackedSum(rs, |cs|, k))
    {
      distribution, totalGeneration, maxSeen, traitSums := map[], 0, 0, map[];
      for i := 0 to |cs|
        invariant distribution == Histogram(rs, i)
        invariant totalGeneration == GenerationSum(rs, i) && maxSeen == MaxGeneration(rs, i)
        invariant i == 0 ==> traitSums == map[]
        invariant i > 0 ==> forall k :: k in traitSums && traitSums[k] == TrackedSum(rs, i, k)
      {
        var c := cs[i];
        var r := Record(c.generation, c.traits.size, c.traits.speed, c.traits.visionRange, c.energy, c.age);
        RecordsAt(cs, i);
        distribution := distribution[r.generation := Count(distribution, r.generation) + 1];
        totalGeneration := totalGeneration + r.generation;
        if r.generation > maxSeen {
          maxSeen := r.generation;
        }
        AddTraitsSums(traitSums, r);
        traitSums := AddTraits(traitSums, r);
      }
    }
  }

  /** A total divided by a positive count (Python's true division). */
  function Mean(total: real, count: nat): real
    requires count > 0
  {
    total / count as real
  }

  /** The loop of `update` over `trait_sums.items()`: each sum divided by the population is stored
      under its key, other keys of `average_traits` are kept. */
  function Averaged(averages: map<Tracked, real>, sums: map<Tracked, real>, count: nat): map<Tracked, real>
    requires count > 0
  {
    averages + map k | k in sums :: Mean(sums[k], count)
  }

  /** `Averaged` keeps the keys of both maps, stores each sum's mean and keeps every other average. */
  lemma AveragedAt(averages: map<Tracked, real>, sums: map<Tracked, real>, count: nat)
    requires count > 0
    ensures forall k :: k in Averaged(averages, sums, count) <==> k in averages || k in sums
    ensures forall k :: k in sums ==> Averaged(averages, sums, count)[k] == Mean(sums[k], count)
    ensures forall k :: k !in sums && k in averages ==> Averaged(averages, sums, count)[k] == averages[k]
  {
  }

  /** A `defaultdict(float)` lookup. */
  function Sum(m: map<Tracked, real>, k: Tracked): real
  {
    if k in m then m[k] else 0.0
  }

  /** The five `trait_sums[...] +=` of one loop round. */
  function AddTraits(m: map<Tracked, real>, r: Record): map<Tracked, real>
  {
    m[TrackSize := Sum(m, TrackSize) + r.size as real][TrackSpeed := Sum(m, TrackSpeed) + r.speed]
     [TrackVisionRange := Sum(m, TrackVisionRange) + r.visionRange as real][TrackEnergy := Sum(m, TrackEnergy) + r.energy]
     [TrackAge := Sum(m, TrackAge) + r.age as real]
  }

  /** After one round every key is present and has grown by the record's value. */
  lemma AddTraitsSums(m: map<Tracked, real>, r: Record)
    ensures forall k :: k in AddTraits(m, r) && AddTraits(m, r)[k] == Sum(m, k) + Value(r, k)
  {
    forall k
      ensures k in AddTraits(m, r) && AddTraits(m, r)[k] == Sum(m, k) + Value(r, k)
    {
      match k
      case TrackSize =>
      case TrackSpeed =>
      case TrackVisionRange =>
      case TrackEnergy =>
      case TrackAge =>
    }
  }
}
