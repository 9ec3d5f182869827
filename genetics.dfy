/** Genes, chromosomes, mutation and crossover. */
module Genetics {
  import opened Basics

  /** The thirteen trait names a chromosome carries. */
  datatype Trait =
    | Size | Speed | VisionRange | Metabolism | EnergyEfficiency
    | FoodPreference | PlantPreference | SunlightEfficiency
    | ReproductionThreshold | OffspringEnergy | ColorR | ColorG | ColorB

  /** The order in which `_initialize_genes` inserts the genes, which is also the order in which
      every chromosome's dictionary is iterated. */
  const TraitOrder: seq<Trait> :=
    [Size, Speed, VisionRange, Metabolism, EnergyEfficiency, FoodPreference, PlantPreference,
     SunlightEfficiency, ReproductionThreshold, OffspringEnergy, ColorR, ColorG, ColorB]

  /** Where a trait stands in `TraitOrder`. */
  function TraitIndex(t: Trait): (i: nat)
    ensures i < 13
  {
    match t
    case Size => 0 case Speed => 1 case VisionRange => 2 case Metabolism => 3
    case EnergyEfficiency => 4 case FoodPreference => 5 case PlantPreference => 6
    case SunlightEfficiency => 7 case ReproductionThreshold => 8 case OffspringEnergy => 9
    case ColorR => 10 case ColorG => 11 case ColorB => 12
  }

  /** The trait at position `i` of `TraitOrder`. */
  function TraitAt(i: nat): (t: Trait)
    requires i < 13
    ensures TraitIndex(t) == i
  {
    if i == 0 then Size else if i == 1 then Speed else if i == 2 then VisionRange
    else if i == 3 then Metabolism else if i == 4 then EnergyEfficiency
    else if i == 5 then FoodPreference else if i == 6 then PlantPreference
    else if i == 7 then SunlightEfficiency else if i == 8 then ReproductionThreshold
    else if i == 9 then OffspringEnergy else if i == 10 then ColorR
    else if i == 11 then ColorG else ColorB
  }

  /** `TraitOrder` lists each of the thirteen traits exactly once. */
  lemma TraitOrderIsEnumeration()
    ensures |TraitOrder| == 13 && Distinct(TraitOrder)
    ensures forall i :: 0 <= i < 13 ==> TraitAt(i) == TraitOrder[i]
    ensures forall t: Trait :: TraitOrder[TraitIndex(t)] == t
  {
  }

  /** How `_initialize_genes` draws a trait's initial value from one draw `u` of `random.random()`. */
  datatype InitRule =
    | UniformIn(lo: real, hi: real)   // random.uniform(lo, hi)
    | UnitDraw                        // random.random()
    | IntIn(first: int, last: int)    // random.randint(first, last)

  /** A trait's initial draw and the bounds its gene keeps. */
  datatype GeneRange = GeneRange(init: InitRule, minVal: real, maxVal: real)

  function RangeOf(t: Trait): GeneRange
  {
    match t
    case Size => GeneRange(UniformIn(1.0, 3.0), 1.0, 5.0)
    case Speed => GeneRange(UniformIn(0.5, 2.0), 0.1, 3.0)
    case VisionRange => GeneRange(UniformIn(3.0, 7.0), 2.0, 10.0)
    case Metabolism => GeneRange(UniformIn(0.3, 0.7), 0.1, 1.0)
    case EnergyEfficiency => GeneRange(UniformIn(0.5, 0.9), 0.3, 1.0)
    case FoodPreference => GeneRange(UnitDraw, 0.0, 1.0)
    case PlantPreference => GeneRange(UnitDraw, 0.0, 1.0)
    case SunlightEfficiency => GeneRange(UnitDraw, 0.0, 1.0)
    case ReproductionThreshold => GeneRange(UniformIn(60.0, 90.0), 50.0, 100.0)
    case OffspringEnergy => GeneRange(UniformIn(30.0, 50.0), 20.0, 60.0)
    case ColorR => GeneRange(IntIn(50, 255), 50.0, 255.0)
    case ColorG => GeneRange(IntIn(50, 255), 50.0, 255.0)
    case ColorB => GeneRange(IntIn(50, 255), 50.0, 255.0)
  }

  /** The initial value drawn by `rule`; `randint(first, last)` is written as
      first + floor((last - first + 1) * u), an integer uniformly distributed over first..last. */
  function InitialValue(rule: InitRule, u: real): real
  {
    match rule
    case UniformIn(lo, hi) => Uniform(lo, hi, u)
    case UnitDraw => u
    case IntIn(first, last) => (first + ((last - first + 1) as real * u).Floor) as real
  }

  /** Every trait starts inside the bounds its gene keeps, and the bounds are ordered. */
  lemma InitialValueInRange(t: Trait, u: real)
    requires 0.0 <= u < 1.0
    ensures RangeOf(t).minVal <= RangeOf(t).maxVal
    ensures RangeOf(t).minVal <= InitialValue(RangeOf(t).init, u) <= RangeOf(t).maxVal
  {
    match RangeOf(t).init
    case UniformIn(lo, hi) =>
    case UnitDraw =>
    case IntIn(first, last) =>
      var k := ((last - first + 1) as real * u).Floor;
      ScaleWithin((last - first + 1) as real, u);
      assert 0 <= k <= last - first;
  }

  /** `np.clip(v, lo, hi)`, that is `min(max(v, lo), hi)`. */
  function Clip(v: real, lo: real, hi: real): (r: real)
    ensures lo <= hi ==> lo <= r <= hi
    ensures lo <= v <= hi ==> r == v
    ensures r == v || r == lo || r == hi
  {
    var m := if v < lo then lo else v;
    if m > hi then hi else m
  }

  /** The value a mutation produces from the standard-normal draw `z`: a Gaussian step of standard
      deviation 0.1 * (max - min), clipped back into [min, max]. */
  function MutatedValue(value: real, minVal: real, maxVal: real, z: real): (r: real)
    ensures minVal <= maxVal ==> minVal <= r <= maxVal
  {
    Clip(value + z * ((maxVal - minVal) * 0.1), minVal, maxVal)
  }

  /** Whether a gene mutates: the draw of `random.random()` falls below the rate. A rate of 0 never
      mutates and a rate of at least 1 always does, since draws lie in [0, 1). */
  predicate Mutates(rate: real, draw: real)
    ensures 0.0 <= draw < 1.0 && rate <= 0.0 ==> !Mutates(rate, draw)
    ensures 0.0 <= draw < 1.0 && rate >= 1.0 ==> Mutates(rate, draw)
  {
    draw < rate
  }

  class Gene {
    const name: Trait
    var value: real
    const minVal: real
    const maxVal: real

    constructor (name: Trait, value: real, minVal: real, maxVal: real)
      ensures this.name == name && this.value == value && this.minVal == minVal && this.maxVal == maxVal
    {
      this.name, this.value, this.minVal, this.maxVal := name, value, minVal, maxVal;
    }

    /** `mutate`: with the draw `draw` of `random.random()` and the standard-normal draw `z`. */
    method Mutate(rate: real, draw: real, z: real) returns (mutated: bool)
      modifies this`value
      ensures mutated == Mutates(rate, draw)
      ensures value == if mutated then MutatedValue(old(value), minVal, maxVal, z) else old(value)
      ensures minVal <= old(value) <= maxVal ==> minVal <= value <= maxVal
    {
      if draw < rate {
        var mutation := z * ((maxVal - minVal) * 0.1);
        value := Clip(value + mutation, minVal, maxVal);
        return true;
      }
      return false;
    }

    /** `copy`: a distinct gene with the same name, value and bounds. */
    method Copy() returns (g: Gene)
      ensures fresh(g)
      ensures g.name == name && g.value == value && g.minVal == minVal && g.maxVal == maxVal
    {
      g := new Gene(name, value, minVal, maxVal);
    }
  }

  /** `Gene(t, <initial draw>, min, max)` as one line of `_initialize_genes` writes it. */
  method NewGene(t: Trait, u: real) returns (g: Gene)
    ensures fresh(g)
    ensures g.name == t && g.minVal == RangeOf(t).minVal && g.maxVal == RangeOf(t).maxVal
    ensures g.value == InitialValue(RangeOf(t).init, u)
  {
    var r := RangeOf(t);
    g := new Gene(t, InitialValue(r.init, u), r.minVal, r.maxVal);
  }

  /** `g` is the gene of trait `t`: it carries the trait's name and bounds and a value inside them. */
  ghost predicate GeneFits(t: Trait, g: Gene)
    reads g
  {
    g.name == t && g.minVal == RangeOf(t).minVal && g.maxVal == RangeOf(t).maxVal
    && g.minVal <= g.value <= g.maxVal
  }

  /** Every trait has a value, inside its bounds. */
  predicate InRanges(v: map<Trait, real>)
  {
    forall t: Trait :: t in v && RangeOf(t).minVal <= v[t] <= RangeOf(t).maxVal
  }

  /** One gene value after `Gene.mutate` with the draws `draw` and `z`. */
  function MutateOne(value: real, t: Trait, rate: real, draw: real, z: real): real
  {
    if Mutates(rate, draw) then MutatedValue(value, RangeOf(t).minVal, RangeOf(t).maxVal, z) else value
  }

  /** The gene values `Chromosome()` draws: trait `t` takes its initial value from draw `TraitIndex(t)`. */
  function InitialValues(draws: seq<real>): map<Trait, real>
    requires |draws| == 13
  {
    map t: Trait :: InitialValue(RangeOf(t).init, draws[TraitIndex(t)])
  }

  /** The gene values after `mutate` has visited the first `i` traits of `TraitOrder`: the `i`-th
      visit mutates trait `TraitAt(i)` with draw and normal deviate number `i`. */
  function MutatedPrefix(values: map<Trait, real>, rate: real, draws: seq<real>, zs: seq<real>, i: nat): (m: map<Trait, real>)
    requires forall t: Trait :: t in values
    requires |draws| == 13 && |zs| == 13 && i <= 13
    ensures forall t: Trait :: t in m
  {
    if i == 0 then values
    else
      var p := MutatedPrefix(values, rate, draws, zs, i - 1);
      var t := TraitAt(i - 1);
      p[t := MutateOne(p[t], t, rate, draws[i - 1], zs[i - 1])]
  }

  /** The gene values after `mutate`. */
  function MutatedValues(values: map<Trait, real>, rate: real, draws: seq<real>, zs: seq<real>): (m: map<Trait, real>)
    requires forall t: Trait :: t in values
    requires |draws| == 13 && |zs| == 13
    ensures forall t: Trait :: t in m
  {
    MutatedPrefix(values, rate, draws, zs, 13)
  }

  /** `TraitAt` inverts `TraitIndex`. */
  lemma TraitAtIndex(t: Trait)
    ensures TraitAt(TraitIndex(t)) == t
  {
  }

  /** After `i` visits, exactly the traits among the first `i` of `TraitOrder` have mutated, each
      once, with the draws of its own position. */
  lemma {:induction false} MutatedPrefixAt(values: map<Trait, real>, rate: real, draws: seq<real>, zs: seq<real>, i: nat, t: Trait)
    requires forall u: Trait :: u in values
    requires |draws| == 13 && |zs| == 13 && i <= 13
    ensures MutatedPrefix(values, rate, draws, zs, i)[t] ==
              if TraitIndex(t) < i then MutateOne(values[t], t, rate, draws[TraitIndex(t)], zs[TraitIndex(t)])
              else values[t]
  {
    if i > 0 {
      MutatedPrefixAt(values, rate, draws, zs, i - 1, t);
      TraitAtIndex(t);
    }
  }

  /** `mutate` treats every trait independently: its new value depends only on its old value and
      the draws at its position in `TraitOrder`. */
  lemma MutatedValuesAt(values: map<Trait, real>, rate: real, draws: seq<real>, zs: seq<real>, t: Trait)
    requires forall u: Trait :: u in values
    requires |draws| == 13 && |zs| == 13
    ensures MutatedValues(values, rate, draws, zs)[t] ==
              MutateOne(values[t], t, rate, draws[TraitIndex(t)], zs[TraitIndex(t)])
  {
    MutatedPrefixAt(values, rate, draws, zs, 13, t);
  }

  /** Mutation keeps every gene value inside its trait's bounds. */
  lemma MutationKeepsRanges(values: map<Trait, real>, rate: real, draws: seq<real>, zs: seq<real>)
    requires InRanges(values)
    requires |draws| == 13 && |zs| == 13
    ensures InRanges(MutatedValues(values, rate, draws, zs))
  {
    forall t: Trait
      ensures RangeOf(t).minVal <= MutatedValues(values, rate, draws, zs)[t] <= RangeOf(t).maxVal
    {
      MutatedValuesAt(values, rate, draws, zs, t);
    }
  }

  /** With a rate of 0 nothing mutates. */
  lemma NoMutationAtRateZero(values: map<Trait, real>, draws: seq<real>, zs: seq<real>)
    requires forall u: Trait :: u in values
    requires |draws| == 13 && |zs| == 13 && forall i :: 0 <= i < 13 ==> 0.0 <= draws[i] < 1.0
    ensures MutatedValues(values, 0.0, draws, zs) == values
  {
    forall t: Trait
      ensures MutatedValues(values, 0.0, draws, zs)[t] == values[t]
    {
      MutatedValuesAt(values, 0.0, draws, zs, t);
    }
  }

  /** The gene values `crossover` picks: this parent's where the trait's draw is below 0.5, the
      other parent's elsewhere. */
  function CrossedValues(mine: map<Trait, real>, theirs: map<Trait, real>, draws: seq<real>): map<Trait, real>
    requires forall t: Trait :: t in mine && t in theirs
    requires |draws| == 13
  {
    map t: Trait :: if draws[TraitIndex(t)] < 0.5 then mine[t] else theirs[t]
  }

  class Chromosome {
    var genes: map<Trait, Gene>
    /** The gene objects this chromosome owns. */
    ghost var Repr: set<Gene>
    /** The value of each gene, kept alongside the gene objects for use in specifications. */
    ghost var values: map<Trait, real>

    /** Every trait has its own gene object, named after the trait (so no two traits share one),
        with the bounds of the trait and its value inside those bounds; `values` mirrors the values. */
    ghost predicate Valid()
      reads this, Repr
    {
      forall t: Trait :: t in genes && genes[t] in Repr && GeneFits(t, genes[t]) && t in values && values[t] == genes[t].value
    }

    /** While a dictionary is being filled in `TraitOrder`: exactly the first `i` traits are present,
        each with its own fitting gene whose value is the one `target` gives. */
    ghost predicate FilledUpTo(i: nat, target: map<Trait, real>)
      reads this, Repr
      requires forall t: Trait :: t in target
    {
      && (forall t: Trait :: t in genes <==> TraitIndex(t) < i)
      && (forall t :: t in genes ==> genes[t] in Repr && GeneFits(t, genes[t]) && genes[t].value == target[t])
    }

    /** The (name, value, min, max) record of each gene. */
    ghost function Records(): (m: map<Trait, (Trait, real, real, real)>)
      reads this, Repr
      requires Valid()
      ensures forall t: Trait :: t in m && m[t] == (t, values[t], RangeOf(t).minVal, RangeOf(t).maxVal)
    {
      map t: Trait | t in genes :: (genes[t].name, genes[t].value, genes[t].minVal, genes[t].maxVal)
    }

    /** A filled dictionary whose mirror holds the target values is a valid chromosome. */
    lemma Filled(target: map<Trait, real>)
      requires forall t: Trait :: t in target
      requires FilledUpTo(13, target) && values == target
      ensures Valid()
    {
    }

    /** An empty gene dictionary, which `copy` and `crossover` then fill. */
    constructor Blank()
      ensures genes == map[] && Repr == {}
    {
      genes := map[];
      Repr := {};
    }

    /** One insertion `genes[name] = gene` while filling in `TraitOrder`. */
    method Insert(g: Gene, ghost i: nat, ghost target: map<Trait, real>)
      requires forall t: Trait :: t in target
      requires FilledUpTo(i, target) && i < 13 && g.name == TraitAt(i)
      requires g !in Repr && GeneFits(g.name, g) && g.value == target[g.name]
      modifies this
      ensures genes == old(genes)[g.name := g] && Repr == old(Repr) + {g}
      ensures FilledUpTo(i + 1, target)
    {
      genes := genes[g.name := g];
      Repr := Repr + {g};
    }

    /** `Chromosome()`: `_initialize_genes` with one draw of `random.random()` per trait, in `TraitOrder`. */
    constructor Init(draws: seq<real>)
      requires |draws| == 13 && forall i :: 0 <= i < 13 ==> 0.0 <= draws[i] < 1.0
      ensures Valid() && fresh(Repr)
      ensures values == InitialValues(draws)
    {
      genes := map[];
      Repr := {};
      new;
      ghost var target := InitialValues(draws);
      var i := 0;
      while i < 13
        invariant 0 <= i <= 13
        invariant fresh(Repr)
        invariant FilledUpTo(i, target)
      {
        var t := TraitAt(i);
        InitialValueInRange(t, draws[i]);
        var g := NewGene(t, draws[i]);
        Insert(g, i, target);
        i := i + 1;
      }
      values := target;
      Filled(target);
    }

    /** `get_value`. */
    function GetValue(t: Trait): (v: real)
      reads this, Repr
      requires Valid()
      ensures v == values[t]
      ensures RangeOf(t).minVal <= v <= RangeOf(t).maxVal
    {
      genes[t].value
    }

    /** `genes[t].mutate(...)` as one step of `mutate`: only gene `t` changes. */
    method MutateGene(t: Trait, rate: real, draw: real, z: real) returns (m: bool)
      requires Valid()
      modifies this, genes[t]
      ensures Valid() && genes == old(genes) && Repr == old(Repr)
      ensures m == Mutates(rate, draw)
      ensures values == old(values)[t := MutateOne(old(values[t]), t, rate, draw, z)]
    {
      label L:
      m := genes[t].Mutate(rate, draw, z);
      values := values[t := genes[t].value];
      forall u: Trait | u != t
        ensures genes[u].value == old@L(genes[u].value)
      {
        assert old@L(genes[u].name) != old@L(genes[t].name);
      }
    }

    /** `mutate`: each gene in turn mutates with its own draws; the result is how many did. */
    method Mutate(rate: real, draws: seq<real>, zs: seq<real>) returns (mutations: nat)
      requires Valid()
      requires |draws| == 13 && |zs| == 13
      modifies this, Repr
      ensures Valid() && Repr == old(Repr) && genes == old(genes)
      ensures mutations == CountBelow(draws, rate)
      ensures values == MutatedValues(old(values), rate, draws, zs)
    {
      ghost var v0 := values;
      assert MutatedPrefix(v0, rate, draws, zs, 0) == v0;
      mutations := 0;
      var i := 0;
      while i < 13
        invariant 0 <= i <= 13
        invariant Valid() && Repr == old(Repr) && genes == old(genes)
        invariant mutations == CountBelow(draws[..i], rate)
        invariant values == MutatedPrefix(v0, rate, draws, zs, i)
      {
        var m := MutateGene(TraitAt(i), rate, draws[i], zs[i]);
        CountBelowPrefix(draws, i, rate);
        if m {
          mutations := mutations + 1;
        }
        i := i + 1;
      }
      assert draws[..13] == draws;
    }

    /** The dictionary-filling loop of `copy` and `crossover`: a copy of `sources[t]` is stored under
        each trait `t`, in `TraitOrder`. */
    method FillFrom(sources: map<Trait, Gene>)
      requires forall t: Trait :: t in sources && GeneFits(t, sources[t])
      requires genes == map[] && Repr == {}
      modifies this
      ensures Valid() && fresh(Repr)
      ensures forall t: Trait :: values[t] == sources[t].value
    {
      ghost var target := map t: Trait :: sources[t].value;
      var i := 0;
      while i < 13
        invariant 0 <= i <= 13
        invariant fresh(Repr)
        invariant FilledUpTo(i, target)
      {
        var g := sources[TraitAt(i)].Copy();
        Insert(g, i, target);
        i := i + 1;
      }
      values := target;
      Filled(target);
    }

    /** `copy`: a chromosome of fresh gene objects with the same records. */
    method Copy() returns (c: Chromosome)
      requires Valid()
      ensures fresh(c) && c.Valid() && fresh(c.Repr)
      ensures c.values == values && c.Records() == Records()
    {
      c := new Chromosome.Blank();
      c.FillFrom(genes);
      assert forall t: Trait :: c.values[t] == values[t];
      assert forall t: Trait :: c.Records()[t] == Records()[t];
    }

    /** `crossover`: for each trait, a copy of this chromosome's gene when the trait's draw is below
        0.5 and of `other`'s otherwise. */
    method Crossover(other: Chromosome, draws: seq<real>) returns (c: Chromosome)
      requires Valid() && other.Valid()
      requires |draws| == 13
      ensures fresh(c) && c.Valid() && fresh(c.Repr)
      ensures c.values == CrossedValues(values, other.values, draws)
    {
      var sources := map t: Trait :: if draws[TraitIndex(t)] < 0.5 then genes[t] else other.genes[t];
      c := new Chromosome.Blank();
      c.FillFrom(sources);
      assert forall t: Trait :: c.values[t] == CrossedValues(values, other.values, draws)[t];
    }
  }

  /** Extending a prefix of the draws by one draw counts that draw once more. */
  lemma CountBelowPrefix(s: seq<real>, i: nat, rate: real)
    requires i < |s|
    ensures CountBelow(s[..i + 1], rate) == CountBelow(s[..i], rate) + (if s[i] < rate then 1 else 0)
  {
    assert s[..i + 1] == s[..i] + [s[i]];
    CountBelowSnoc(s[..i], s[i], rate);
  }

  /** Appending one draw counts it once more when it falls below the rate. */
  lemma CountBelowSnoc(s: seq<real>, d: real, rate: real)
    ensures CountBelow(s + [d], rate) == CountBelow(s, rate) + (if d < rate then 1 else 0)
  {
    if s != [] {
      assert (s + [d])[1..] == s[1..] + [d];
      CountBelowSnoc(s[1..], d, rate);
    }
  }
}
