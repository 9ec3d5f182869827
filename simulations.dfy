/** The per-tick scheduler (`simulation.py`): initial spawning, the shuffled visit of every live
    creature, the sweep of the dead and the age-ordered cap on the population. */
module Simulations {
  import opened Basics
  import opened Config
  import opened Genetics
  import opened Learning
  import opened Worlds
  import opened Creatures
  import opened Stats
  import opened Ordering

  /** The draws one visited creature uses: the exploration draw and the random pick of
      `decide_action`, and those of `execute_action` (used by REPRODUCE). */
  datatype TurnDraws = TurnDraws(u: real, pick: nat, act: Draws)

  /** The draws of one tick: those of `update_resources` (a draw, a sampled cell and an energy draw,
      for food and for plants), the shuffle of the creature list as a permutation of its positions,
      and one `TurnDraws` per position of the shuffled list. */
  datatype TickDraws = TickDraws(food: real, foodAt: Pos, foodEnergy: real,
                                 plant: real, plantAt: Pos, plantEnergy: real,
                                 order: seq<nat>, turns: seq<TurnDraws>)

  /** The draws fit a world with `n` creatures: cells are sampled from the interior when a placement
      is tried, the shuffle is a permutation and every turn has a shuffle of the four neighbours
      and 13 mutation draws. */
  predicate TickDrawsFit(d: TickDraws, n: nat, width: nat, height: nat, cfg: Config)
  {
    && (d.food < cfg.foodRespawnRate ==> 1 <= d.foodAt.0 <= width - 2 && 1 <= d.foodAt.1 <= height - 2)
    && (d.plant < cfg.plantGrowthRate ==> 1 <= d.plantAt.0 <= width - 2 && 1 <= d.plantAt.1 <= height - 2)
    && IsPermutation(d.order, n) && |d.turns| == n
    && forall k :: 0 <= k < n ==> DrawsFit(d.turns[k].act)
  }

  /** `random.shuffle` of a list, given the permutation it applies. */
  function Permute<T>(s: seq<T>, order: seq<nat>): (r: seq<T>)
    requires IsPermutation(order, |s|)
    ensures |r| == |s| && forall k :: 0 <= k < |s| ==> r[k] == s[order[k]]
  {
    seq(|order|, k requires 0 <= k < |order| => s[order[k]])
  }

  /** A permutation of a list without repetitions has none either. */
  lemma PermuteDistinct<T>(s: seq<T>, order: seq<nat>)
    requires IsPermutation(order, |s|) && Distinct(s)
    ensures Distinct(Permute(s, order))
  {
    var r := Permute(s, order);
    forall i, j | 0 <= i < j < |r|
      ensures r[i] != r[j]
    {
      assert order[i] != order[j];
    }
  }

  /** Every entry of the list has a place in the shuffled list. */
  lemma PermuteCovers<T>(s: seq<T>, order: seq<nat>)
    requires IsPermutation(order, |s|)
    ensures forall x :: x in s ==> x in Permute(s, order)
  {
    var r := Permute(s, order);
    PermutationOnto(order, |s|);
    forall x | x in s ensures x in r {
      var j: nat :| j < |s| && s[j] == x;
      assert j in order;
      var k :| 0 <= k < |s| && order[k] == j;
      assert r[k] == x;
    }
  }

  /** The age and the liveness of each creature of a list. */
  ghost function Vitals(cs: seq<Creature>): (v: seq<(nat, bool)>)
    reads cs
    ensures |v| == |cs| && forall j :: 0 <= j < |cs| ==> v[j] == (cs[j].age, cs[j].alive)
  {
    seq(|cs|, j reads cs requires 0 <= j < |cs| => (cs[j].age, cs[j].alive))
  }

  /** Ages and liveness of the queue after the turns of its first `k` creatures, against `was`
      before any: each of those is one tick older exactly when it was alive, and may have died;
      the others are as they were. */
  ghost predicate Progress(queue: seq<Creature>, was: seq<(nat, bool)>, k: nat)
    reads queue
  {
    && |was| == |queue|
    && forall j :: 0 <= j < |queue| ==>
         && queue[j].age == was[j].0 + (if j < k && was[j].1 then 1 else 0)
         && (if j < k then queue[j].alive ==> was[j].1 else queue[j].alive == was[j].1)
  }

  /** The brains of a creature list. */
  ghost function Brains(cs: seq<Creature>): set<Brain>
  {
    set c | c in cs :: c.brain
  }

  /** The objects a creature list's well-formedness depends on: the chromosomes and their genes. */
  ghost function Genomes(cs: seq<Creature>): set<object>
    reads set c | c in cs :: c.chromosome
  {
    (set c | c in cs :: c.chromosome as object) + (set c: Creature, g: Gene | c in cs && g in c.chromosome.Repr :: g as object)
  }

  /** Every creature of the list has a well-formed chromosome (which `reproduce` copies). */
  ghost predicate AllValid(cs: seq<Creature>)
    reads Genomes(cs)
  {
    forall c :: c in cs ==> c.chromosome.Valid()
  }

  /** A list of creatures with well-formed chromosomes stays so when one more such creature joins it. */
  lemma AllValidAppend(cs: seq<Creature>, c: Creature)
    requires AllValid(cs) && c.chromosome.Valid()
    ensures AllValid(cs + [c])
  {
    forall d | d in cs + [c] ensures d.chromosome.Valid() {
      if d != c { assert d in cs; }
    }
  }

  /** Where each listed creature stands. */
  ghost function Positions(cs: seq<Creature>): (pos: map<Creature, Pos>)
    reads cs
    ensures forall d :: d in cs ==> d in pos && pos[d] == (d.x, d.y)
  {
    map d | d in cs :: (d.x, d.y)
  }

  /** A list without repetitions, an index and the positions describe the same creatures: each
      listed creature is indexed at its position, and each indexed creature is listed and stands
      where it is indexed. */
  ghost predicate Indexed(cs: seq<Creature>, index: map<Pos, Creature>, pos: map<Creature, Pos>)
  {
    && Distinct(cs)
    && (forall d :: d in cs ==> d in pos && pos[d] in index && index[pos[d]] == d)
    && (forall p :: p in index ==> index[p] in cs && index[p] in pos && pos[index[p]] == p)
  }

  /** Moving one listed creature to a cell nobody is indexed at, re-indexing it there, keeps the
      list, the index and the positions in step. */
  lemma IndexedMove(cs: seq<Creature>, index: map<Pos, Creature>, pos: map<Creature, Pos>,
                    pos': map<Creature, Pos>, c: Creature, to: Pos)
    requires Indexed(cs, index, pos) && c in cs && to !in index
    requires forall d :: d in cs ==> d in pos' && pos'[d] == if d == c then to else pos[d]
    ensures Indexed(cs, (index - {pos[c]})[to := c], pos')
  {
    var index' := (index - {pos[c]})[to := c];
    forall d | d in cs ensures pos'[d] in index' && index'[pos'[d]] == d {
      if d != c {
        assert pos[d] != pos[c];
      }
    }
  }

  /** When every listed creature stays where it was, the list and the index stay in step. */
  lemma IndexedStay(cs: seq<Creature>, index: map<Pos, Creature>, pos: map<Creature, Pos>, pos': map<Creature, Pos>)
    requires Indexed(cs, index, pos)
    requires forall d :: d in cs ==> d in pos' && pos'[d] == pos[d]
    ensures Indexed(cs, index, pos')
  {
  }

  /** The creature list and the creature index of the world describe the same creatures. */
  ghost predicate Synced(w: World<Creature>)
    reads w, w.allCreatures
  {
    Indexed(w.allCreatures, w.creatures, Positions(w.allCreatures))
  }

  /** After one listed creature has moved from `at` (or stayed), with the index following it and
      every other creature where it was, the world is in step again. */
  lemma SyncedAfterTurn(w: World<Creature>, index: map<Pos, Creature>, pos: map<Creature, Pos>, c: Creature, at: Pos)
    requires Indexed(w.allCreatures, index, pos) && c in w.allCreatures && pos[c] == at
    requires forall d :: d in w.allCreatures && d != c ==> (d.x, d.y) == pos[d]
    requires w.creatures == if (c.x, c.y) == at then index else (index - {at})[(c.x, c.y) := c]
    requires (c.x, c.y) != at ==> (c.x, c.y) !in index
    ensures Synced(w)
  {
    var pos' := Positions(w.allCreatures);
    if (c.x, c.y) != at {
      IndexedMove(w.allCreatures, index, pos, pos', c, (c.x, c.y));
    } else {
      IndexedStay(w.allCreatures, index, pos, pos');
    }
  }

  /** Under `Synced`, a creature's own cell is tagged CREATURE, so EAT (offered only on a FOOD or
      PLANT tag) is never among its valid actions. */
  lemma EatNeverOffered(w: World<Creature>, c: Creature, canReproduce: bool, sunlight: real)
    requires w.Valid() && Synced(w) && c in w.allCreatures
    ensures !OptionsAt(w, c.x, c.y, canReproduce, sunlight).eat
    ensures Eat !in ValidList(OptionsAt(w, c.x, c.y, canReproduce, sunlight))
  {
    var o := OptionsAt(w, c.x, c.y, canReproduce, sunlight);
    assert Positions(w.allCreatures)[c] in w.creatures;
    ValidListShape(o);
  }

  /** `[c for c in cs if not c.alive]`. */
  function Dead(cs: seq<Creature>): (r: seq<Creature>)
    reads cs
    ensures forall i :: 0 <= i < |r| ==> r[i] in cs && !r[i].alive
    ensures forall i :: 0 <= i < |cs| && !cs[i].alive ==> cs[i] in r
    ensures Distinct(cs) ==> Distinct(r)
  {
    if cs == [] then []
    else
      assert Distinct(cs) ==> cs[0] !in cs[1..];
      (if cs[0].alive then [] else [cs[0]]) + Dead(cs[1..])
  }

  /** The entries of a list that are not in `gone`, in list order. */
  function Keep(cs: seq<Creature>, gone: set<Creature>): (r: seq<Creature>)
    ensures |r| <= |cs|
    ensures forall i :: 0 <= i < |r| ==> r[i] in cs && r[i] !in gone
    ensures forall i :: 0 <= i < |cs| && cs[i] !in gone ==> cs[i] in r
  {
    if cs == [] then [] else (if cs[0] in gone then [] else [cs[0]]) + Keep(cs[1..], gone)
  }

  /** The first `n` entries of a list, as a set. */
  function Members(s: seq<Creature>, n: nat): set<Creature>
    requires n <= |s|
  {
    if n == 0 then {} else Members(s, n - 1) + {s[n - 1]}
  }

  /** `Members` holds exactly the entries of the prefix. */
  lemma {:induction false} MembersSpan(s: seq<Creature>, n: nat)
    requires n <= |s|
    ensures forall x :: x in Members(s, n) <==> x in s[..n]
  {
    if n > 0 {
      MembersSpan(s, n - 1);
      assert s[..n] == s[..n - 1] + [s[n - 1]];
    }
  }

  /** In a list without repetitions, the entry at `i` is not among the first `n <= i`. */
  lemma {:induction false} MembersBefore(s: seq<Creature>, n: nat, i: nat)
    requires Distinct(s) && n <= i < |s|
    ensures s[i] !in Members(s, n)
  {
    if n > 0 {
      MembersBefore(s, n - 1, i);
      assert s[n - 1] != s[i];
    }
  }

  /** Keeping everything keeps the whole list. */
  lemma {:induction false} KeepAll(cs: seq<Creature>)
    ensures Keep(cs, {}) == cs
  {
    if cs != [] {
      KeepAll(cs[1..]);
      assert cs == [cs[0]] + cs[1..];
    }
  }

  /** Adding to `gone` something the list does not hold keeps the same entries. */
  lemma {:induction false} KeepAbsent(cs: seq<Creature>, gone: set<Creature>, x: Creature)
    requires x !in cs
    ensures Keep(cs, gone + {x}) == Keep(cs, gone)
  {
    if cs != [] {
      KeepAbsent(cs[1..], gone, x);
    }
  }

  /** In a list without repetitions, `list.remove(x)` of an entry that is kept is what keeping one
      entry fewer gives. */
  lemma {:induction false} KeepRemove(cs: seq<Creature>, gone: set<Creature>, x: Creature)
    requires Distinct(cs) && x in cs && x !in gone
    ensures x in Keep(cs, gone) && RemoveFirst(Keep(cs, gone), x) == Keep(cs, gone + {x})
  {
    var tail := cs[1..];
    assert cs == [cs[0]] + tail;
    assert Distinct(tail) by {
      forall i, j | 0 <= i < j < |tail| ensures tail[i] != tail[j] {
        assert tail[i] == cs[i + 1] && tail[j] == cs[j + 1];
      }
    }
    if cs[0] == x {
      assert x !in tail;
      var t := Keep(tail, gone);
      assert Keep(cs, gone) == [x] + t;
      assert RemoveFirst([x] + t, x) == t by {
        assert ([x] + t)[1..] == t;
      }
      assert Keep(cs, gone + {x}) == Keep(tail, gone + {x});
      KeepAbsent(tail, gone, x);
    } else {
      assert x in tail;
      KeepRemove(tail, gone, x);
      var t := Keep(tail, gone);
      assert Keep(cs, gone + {x}) == (if cs[0] in gone then [] else [cs[0]]) + Keep(tail, gone + {x});
      if cs[0] in gone {
        assert Keep(cs, gone) == t;
      } else {
        var k := [cs[0]] + t;
        assert Keep(cs, gone) == k;
        assert k[0] == cs[0] && k[1..] == t;
        assert RemoveFirst(k, x) == [cs[0]] + RemoveFirst(t, x);
      }
    }
  }

  /** After a listed creature has been removed from the list and unindexed, with nobody moving,
      the world is in step again. */
  lemma SyncedAfterRemove(w: World<Creature>, cs: seq<Creature>, index: map<Pos, Creature>, pos: map<Creature, Pos>, c: Creature)
    requires Indexed(cs, index, pos) && c in cs
    requires w.allCreatures == RemoveFirst(cs, c) && w.creatures == index - {pos[c]}
    requires forall d :: d in w.allCreatures ==> (d.x, d.y) == pos[d]
    ensures Synced(w)
  {
    var r := RemoveFirst(cs, c);
    forall p | p in w.creatures ensures index[p] in r {
      var i :| 0 <= i < |cs| && cs[i] == index[p];
    }
    assert Indexed(r, w.creatures, pos);
    IndexedStay(r, w.creatures, pos, Positions(r));
  }

  /** How far a population of `n` exceeds the cap. */
  function Excess(n: nat, cap: nat): nat
  {
    if n > cap then n - cap else 0
  }

  /** Each creature of a list keyed by its age, in list order. */
  function AgeKeyed(cs: seq<Creature>): (p: seq<(nat, Creature)>)
    reads cs
    ensures |p| == |cs| && forall i :: 0 <= i < |cs| ==> p[i] == (cs[i].age, cs[i])
  {
    seq(|cs|, i reads cs requires 0 <= i < |cs| => (cs[i].age, cs[i]))
  }

  /** The creatures of keyed entries. */
  function Unkeyed(p: seq<(nat, Creature)>): (cs: seq<Creature>)
    ensures |cs| == |p| && forall i :: 0 <= i < |p| ==> cs[i] == p[i].1
  {
    seq(|p|, i requires 0 <= i < |p| => p[i].1)
  }

  /** `sorted(cs, key=lambda c: c.age, reverse=True)[:n]`: the `n` oldest creatures, ties going
      to the one earlier in the list. */
  function Oldest(cs: seq<Creature>, n: nat): (r: seq<Creature>)
    reads cs
    requires n <= |cs|
    ensures |r| == n
  {
    Unkeyed(SortDescending(AgeKeyed(cs))[..n])
  }

  /** The sorted entries of a list without repetitions are its creatures keyed by their ages, once
      each. */
  lemma SortedAges(cs: seq<Creature>)
    requires Distinct(cs)
    ensures var r := SortDescending(AgeKeyed(cs));
            && Descending(r) && multiset(r) == multiset(AgeKeyed(cs))
            && (forall k :: 0 <= k < |r| ==> r[k].1 in cs && r[k].0 == r[k].1.age)
            && Distinct(Unkeyed(r))
  {
    var p := AgeKeyed(cs);
    var r := SortDescending(p);
    assert Distinct(p) by {
      forall i, j | 0 <= i < j < |p| ensures p[i] != p[j] {
        assert p[i].1 == cs[i] && p[j].1 == cs[j];
      }
    }
    SortOrdered(p);
    SortPermutes(p);
    SortDistinct(p);
    forall k | 0 <= k < |r| ensures r[k].1 in cs && r[k].0 == r[k].1.age {
      assert r[k] in multiset(p);
    }
    var u := Unkeyed(r);
    forall i, j | 0 <= i < j < |u| ensures u[i] != u[j] {
      assert r[i] != r[j];
    }
  }

  /** The `n` oldest creatures of a list without repetitions are distinct members of it, and none
      is younger than any creature left when they are taken out. */
  lemma OldestFacts(cs: seq<Creature>, n: nat)
    requires Distinct(cs) && n <= |cs|
    ensures var gone := Oldest(cs, n);
            && Distinct(gone) && (forall i :: 0 <= i < n ==> gone[i] in cs)
            && forall i, d :: 0 <= i < n && d in Keep(cs, Members(gone, n)) ==> gone[i].age >= d.age
  {
    var r := SortDescending(AgeKeyed(cs));
    var gone := Oldest(cs, n);
    SortedAges(cs);
    assert Unkeyed(r)[..n] == gone;
    assert forall k :: 0 <= k < n ==> gone[k] == r[k].1;
    MembersSpan(gone, n);
    assert gone[..n] == gone;
    forall i, d | 0 <= i < n && d in Keep(cs, Members(gone, n)) ensures gone[i].age >= d.age {
      assert d !in gone;
      var j :| 0 <= j < |cs| && cs[j] == d;
      assert AgeKeyed(cs)[j] == (d.age, d);
      assert (d.age, d) in multiset(r);
      var q :| 0 <= q < |r| && r[q] == (d.age, d);
      assert q >= n;
      assert r[i].0 >= r[q].0;
    }
  }

  /** The draws of `_spawn_initial_creatures`: for each of the `INITIAL_CREATURE_COUNT` slots, the
      100 cells it may try, each sampled from [2, size-3] on both axes, and the 13 gene draws of
      the creature it would create. */
  predicate SpawnDrawsFit(spots: seq<seq<Pos>>, genes: seq<seq<real>>, width: nat, height: nat, cfg: Config)
  {
    && |spots| == cfg.initialCreatureCount && |genes| == |spots|
    && (forall i :: 0 <= i < |spots| ==> AttemptsFit(spots[i], width, height))
    && (forall i :: 0 <= i < |genes| ==> GeneDrawsFit(genes[i]))
  }

  /** One slot's 100 tries, each inside [2, size-3]. */
  predicate AttemptsFit(attempts: seq<Pos>, width: nat, height: nat)
  {
    |attempts| == 100 &&
    forall j :: 0 <= j < |attempts| ==> 2 <= attempts[j].0 <= width - 3 && 2 <= attempts[j].1 <= height - 3
  }

  /** The 13 uniform draws a fresh random chromosome takes. */
  predicate GeneDrawsFit(g: seq<real>)
  {
    |g| == 13 && forall i :: 0 <= i < 13 ==> 0.0 <= g[i] < 1.0
  }

  /** Appending a creature that is not listed, at a cell nobody is indexed at, and indexing it
      there, keeps the list and the index in step. */
  lemma SyncedAfterAdd(w: World<Creature>, cs: seq<Creature>, index: map<Pos, Creature>, pos: map<Creature, Pos>, c: Creature)
    requires Indexed(cs, index, pos) && c !in cs && (c.x, c.y) !in index
    requires w.allCreatures == cs + [c] && w.creatures == index[(c.x, c.y) := c]
    requires forall d :: d in cs ==> (d.x, d.y) == pos[d]
    ensures Synced(w)
  {
    var pos' := Positions(w.allCreatures);
    assert Distinct(w.allCreatures) by {
      forall i, j | 0 <= i < j < |w.allCreatures| ensures w.allCreatures[i] != w.allCreatures[j] {
        if j == |cs| { assert w.allCreatures[i] in cs; } else { DistinctAt(cs, i, j); }
      }
    }
    forall d | d in w.allCreatures ensures pos'[d] in w.creatures && w.creatures[pos'[d]] == d {
      if d != c { assert d in cs; }
    }
  }

  /** `c` is as a new creature placed at `at`: alive, aged 0, in generation 0. */
  ghost predicate Fresh(c: Creature, at: Pos)
    reads c
  {
    c.alive && c.age == 0 && c.generation == 0 && (c.x, c.y) == at
  }

  /** `Creature(x, y)` with every default, as `_spawn_initial_creatures` calls it: a new, well-formed
      creature with random genes, the next id, alive, aged 0 and in generation 0. */
  method Newcomer(x: int, y: int, genes: seq<real>, ids: IdCounter, cfg: Config) returns (c: Creature)
    requires GeneDrawsFit(genes)
    modifies ids
    ensures fresh(c) && c.chromosome.Valid() && Fresh(c, (x, y))
    ensures c.id == old(ids.next) && ids.next == old(ids.next) + 1
  {
    c := NewCreature(x, y, None, None, None, genes, ids, cfg);
  }

  /** A creature as `_spawn_initial_creatures` makes it: alive, aged 0, in generation 0 and inside
      [2, size-3]. */
  ghost predicate Newborn(c: Creature, width: nat, height: nat)
    reads c
  {
    c.alive && c.age == 0 && c.generation == 0 && 2 <= c.x <= width - 3 && 2 <= c.y <= height - 3
  }

  /** From index `from` on, the list holds new creatures, each standing on one of `cells`. */
  ghost predicate Settled(cs: seq<Creature>, from: nat, cells: set<Pos>, width: nat, height: nat)
    reads set c | c in cs
  {
    forall k :: from <= k < |cs| ==> Newborn(cs[k], width, height) && (cs[k].x, cs[k].y) in cells
  }

  /** A list that grew by one new creature, standing on one of the cells, behind a settled tail and
      a kept prefix, still has both. */
  lemma {:induction false} SettledGrown(before: seq<Creature>, after: seq<Creature>, start: seq<Creature>,
                                        cells: set<Pos>, width: nat, height: nat)
    requires |start| <= |before| && before[..|start|] == start && Settled(before, |start|, cells, width, height)
    requires |after| == |before| + 1 && after[..|before|] == before
    requires Newborn(after[|before|], width, height) && (after[|before|].x, after[|before|].y) in cells
    ensures after[..|start|] == start && Settled(after, |start|, cells, width, height)
  {
    forall k | |start| <= k < |after| ensures Newborn(after[k], width, height) && (after[k].x, after[k].y) in cells {
      if k < |before| { assert after[k] == before[k]; }
    }
    assert after[..|start|] == before[..|before|][..|start|];
  }

  class Simulation {
    const world: World<Creature>
    const statistics: Statistics
    var running: bool

    /** `Simulation(world, statistics)`: the simulation runs, and `_spawn_initial_creatures` has
        placed a creature for every slot one of whose tries hit an EMPTY cell, each counted as a
        birth, without touching anything already there. */
    constructor (world: World<Creature>, statistics: Statistics, spots: seq<seq<Pos>>, genes: seq<seq<real>>,
                 ids: IdCounter, cfg: Config)
      requires world.Valid() && Synced(world) && AllValid(world.allCreatures)
      requires SpawnDrawsFit(spots, genes, world.width, world.height, cfg)
      modifies world, world.grid, statistics`totalBirths, ids
      ensures this.world == world && this.statistics == statistics && running && Valid()
      ensures world.resources == old(world.resources)
      ensures |old(world.allCreatures)| <= |world.allCreatures| <= |old(world.allCreatures)| + cfg.initialCreatureCount
      ensures world.allCreatures[..|old(world.allCreatures)|] == old(world.allCreatures)
      ensures statistics.totalBirths == old(statistics.totalBirths) + (|world.allCreatures| - |old(world.allCreatures)|)
    {
      this.world, this.statistics, running := world, statistics, true;
      new;
      Spawn(spots, genes, ids, cfg);
    }

    /** `_spawn_initial_creatures`: slot after slot, `Try` places at most one creature. The old
        creatures stay first in the list; every added one is new, alive, aged 0, in generation 0,
        inside [2, size-3] and on a cell that was EMPTY before; the cells left EMPTY were EMPTY
        before; one birth and one id per added creature. */
    method Spawn(spots: seq<seq<Pos>>, genes: seq<seq<real>>, ids: IdCounter, cfg: Config)
      requires Valid() && SpawnDrawsFit(spots, genes, world.width, world.height, cfg)
      modifies world, world.grid, statistics`totalBirths, ids
      ensures Valid() && world.resources == old(world.resources)
      ensures |old(world.allCreatures)| <= |world.allCreatures| <= |old(world.allCreatures)| + |spots|
      ensures world.allCreatures[..|old(world.allCreatures)|] == old(world.allCreatures)
      ensures statistics.totalBirths == old(statistics.totalBirths) + (|world.allCreatures| - |old(world.allCreatures)|)
      ensures ids.next == old(ids.next) + (|world.allCreatures| - |old(world.allCreatures)|)
      ensures Settled(world.allCreatures, |old(world.allCreatures)|, old(EmptyCells()), world.width, world.height)
      ensures EmptyCells() <= old(EmptyCells())
    {
      ghost var start, empty := world.allCreatures, EmptyCells();
      var i := 0;
      while i < |spots|
        invariant 0 <= i <= |spots| && Valid() && world.resources == old(world.resources)
        invariant |start| <= |world.allCreatures| <= |start| + i
        invariant world.allCreatures[..|start|] == start
        invariant statistics.totalBirths == old(statistics.totalBirths) + (|world.allCreatures| - |start|)
        invariant ids.next == old(ids.next) + (|world.allCreatures| - |start|)
        invariant Settled(world.allCreatures, |start|, empty, world.width, world.height)
        invariant EmptyCells() <= empty
      {
        ghost var before := world.allCreatures;
        var placed := Try(spots[i], genes[i], ids, cfg);
        if placed {
          SettledGrown(before, world.allCreatures, start, empty, world.width, world.height);
        }
        i := i + 1;
      }
    }

    /** The creature at index `k` of the list is a new one standing at `at`. */
    ghost predicate Added(at: Pos, k: nat)
      reads this, world, world.allCreatures
    {
      k < |world.allCreatures| && (world.allCreatures[k].x, world.allCreatures[k].y) == at
      && Newborn(world.allCreatures[k], world.width, world.height)
    }

    /** The EMPTY cells of the grid. */
    ghost function EmptyCells(): (r: set<Pos>)
      reads world.grid
      requires world.Shaped()
      ensures forall x, y :: world.IsEmpty(x, y) <==> (x, y) in r
    {
      set x, y | 0 <= x < world.width && 0 <= y < world.height && world.IsEmpty(x, y) :: (x, y)
    }


    /** The first of `attempts`, from index `from` on, that names an EMPTY cell, or `|attempts|`
        when none does. */
    function FirstEmpty(attempts: seq<Pos>, from: nat): (k: nat)
      reads world.grid
      requires world.Shaped() && from <= |attempts|
      ensures from <= k <= |attempts|
      ensures k < |attempts| ==> world.IsEmpty(attempts[k].0, attempts[k].1)
      ensures forall j :: from <= j < k ==> !world.IsEmpty(attempts[j].0, attempts[j].1)
      decreases |attempts| - from
    {
      if from == |attempts| then from
      else if world.IsEmpty(attempts[from].0, attempts[from].1) then from
      else FirstEmpty(attempts, from + 1)
    }

    /** One slot of `_spawn_initial_creatures`: the tries in order until one names an EMPTY cell,
        where a new creature is placed and counted as a birth. A creature is placed exactly when
        one of the tries names an EMPTY cell, and then at the first such cell; otherwise nothing
        changes. */
    method Try(attempts: seq<Pos>, genes: seq<real>, ids: IdCounter, cfg: Config) returns (placed: bool)
      requires Valid() && AttemptsFit(attempts, world.width, world.height) && GeneDrawsFit(genes)
      modifies world, world.grid, statistics`totalBirths, ids
      ensures Valid() && world.resources == old(world.resources)
      ensures placed <==> old(FirstEmpty(attempts, 0)) < |attempts|
      ensures !placed ==>
                && world.allCreatures == old(world.allCreatures) && statistics.totalBirths == old(statistics.totalBirths)
                && ids.next == old(ids.next) && EmptyCells() == old(EmptyCells())
      ensures placed ==> |world.allCreatures| == |old(world.allCreatures)| + 1
      ensures placed ==> world.allCreatures[..|old(world.allCreatures)|] == old(world.allCreatures)
      ensures placed ==> Added(attempts[old(FirstEmpty(attempts, 0))], old(|world.allCreatures|))
      ensures placed ==> statistics.totalBirths == old(statistics.totalBirths) + 1 && ids.next == old(ids.next) + 1
      ensures placed ==> EmptyCells() == old(EmptyCells()) - {attempts[old(FirstEmpty(attempts, 0))]}
      ensures placed ==> attempts[old(FirstEmpty(attempts, 0))] in old(EmptyCells())
    {
      placed := false;
      var j := 0;
      while j < |attempts|
        invariant 0 <= j <= |attempts| && !placed
        invariant unchanged(world, world.grid, statistics, ids)
        invariant forall i :: 0 <= i < j ==> !world.IsEmpty(attempts[i].0, attempts[i].1)
      {
        var (x, y) := attempts[j];
        if world.IsEmpty(x, y) {
          assert FirstEmpty(attempts, 0) == j;
          var ok := Place(x, y, genes, ids, cfg);
          if ok {
            placed := true;
            break;
          }
        }
        j := j + 1;
      }
    }

    /** `Creature(x, y)` on an EMPTY cell and `add_creature`, which succeeds there, with the birth it
        counts: the new creature is appended to the list and indexed at its cell, which is no longer
        EMPTY; every other cell keeps its tag. */
    method Place(x: int, y: int, genes: seq<real>, ids: IdCounter, cfg: Config) returns (ok: bool)
      requires Valid() && world.IsEmpty(x, y) && GeneDrawsFit(genes)
      modifies world, world.grid, statistics`totalBirths, ids
      ensures ok && Valid() && world.resources == old(world.resources)
      ensures |world.allCreatures| == |old(world.allCreatures)| + 1
      ensures world.allCreatures[..|old(world.allCreatures)|] == old(world.allCreatures)
      ensures fresh(world.allCreatures[|old(world.allCreatures)|])
      ensures Fresh(world.allCreatures[|old(world.allCreatures)|], (x, y))
      ensures statistics.totalBirths == old(statistics.totalBirths) + 1 && ids.next == old(ids.next) + 1
      ensures EmptyCells() == old(EmptyCells()) - {(x, y)}
    {
      var c := Newcomer(x, y, genes, ids, cfg);
      ok := Enter(c);
      if ok {
        CountBirth();
      }
    }

    /** `add_creature` of a well-formed creature that is not listed yet and stands on an EMPTY cell:
        it succeeds, the list gains the creature at its end, the index follows, and exactly that cell
        stops being EMPTY. */
    method Enter(c: Creature) returns (ok: bool)
      requires Valid() && c.chromosome.Valid() && c !in world.allCreatures && world.IsEmpty(c.x, c.y)
      modifies world, world.grid
      ensures ok && Valid() && world.resources == old(world.resources)
      ensures world.allCreatures == old(world.allCreatures) + [c]
      ensures EmptyCells() == old(EmptyCells()) - {(c.x, c.y)}
    {
      ghost var cs, index, pos := world.allCreatures, world.creatures, Positions(world.allCreatures);
      AllValidAppend(cs, c);
      assert (c.x, c.y) !in index;
      ok := world.AddCreature(c, c.x, c.y);
      SyncedAfterAdd(world, cs, index, pos, c);
    }

    /** What every step of the scheduler keeps: the world's own invariant, the list and the index
        in step, and every creature well formed. */
    ghost predicate Valid()
      reads world, world.grid, world.resources.Values, world.allCreatures, Genomes(world.allCreatures)
    {
      world.Valid() && Synced(world) && AllValid(world.allCreatures)
    }

    /** `update`: one tick. The resources are updated first; then every creature of a shuffled
        snapshot of the list that is still alive takes its turn; then the dead are removed and the
        population is capped, each removal counting one death; finally the statistics are
        updated. No creature is ever added: the population never grows, ends within the cap, and
        every creature left is alive, was listed before and is exactly one tick older. */
    method Update(d: TickDraws, ids: IdCounter, cfg: Config)
      requires Valid() && TickDrawsFit(d, |world.allCreatures|, world.width, world.height, cfg)
      modifies world, world.grid, world.resources.Values, world.allCreatures, Brains(world.allCreatures), ids, statistics
      ensures Valid()
      ensures |world.allCreatures| <= |old(world.allCreatures)| && |world.allCreatures| <= cfg.maxCreatures
      ensures forall c :: c in world.allCreatures ==> c in old(world.allCreatures) && c.alive && c.age == old(c.age) + 1
      ensures statistics.totalDeaths == old(statistics.totalDeaths) + (|old(world.allCreatures)| - |world.allCreatures|)
      ensures statistics.totalBirths == old(statistics.totalBirths)
      ensures statistics.ticks == old(statistics.ticks) + 1 && statistics.creatureCount == |world.allCreatures|
    {
      Advance(d, ids, cfg);
      Record();
    }

    /** A tick up to its statistics: the turns of `Act`, then the removals of `Sweep`. */
    method Advance(d: TickDraws, ids: IdCounter, cfg: Config)
      requires Valid() && TickDrawsFit(d, |world.allCreatures|, world.width, world.height, cfg)
      modifies world, world.grid, world.resources.Values, world.allCreatures, Brains(world.allCreatures), ids, statistics`totalDeaths
      ensures Valid()
      ensures |world.allCreatures| <= |old(world.allCreatures)| && |world.allCreatures| <= cfg.maxCreatures
      ensures forall c :: c in world.allCreatures ==> c in old(world.allCreatures) && c.alive && c.age == old(c.age) + 1
      ensures statistics.totalDeaths == old(statistics.totalDeaths) + (|old(world.allCreatures)| - |world.allCreatures|)
    {
      Act(d, ids, cfg);
      Sweep(cfg);
    }

    /** The first half of a tick: `update_resources`, then the turns of the shuffled snapshot. The
        list is kept; each listed creature is one tick older exactly when it was alive, and a
        creature alive now was alive before. */
    method Act(d: TickDraws, ids: IdCounter, cfg: Config)
      requires Valid() && TickDrawsFit(d, |world.allCreatures|, world.width, world.height, cfg)
      modifies world, world.grid, world.resources.Values, world.allCreatures, Brains(world.allCreatures), ids
      ensures Valid() && world.allCreatures == old(world.allCreatures)
      ensures forall c :: c in world.allCreatures ==>
                c.age == old(c.age) + (if old(c.alive) then 1 else 0) && (c.alive ==> old(c.alive))
    {
      Replenish(d, cfg);
      var queue := Permute(world.allCreatures, d.order);
      PermuteDistinct(world.allCreatures, d.order);
      PermuteCovers(world.allCreatures, d.order);
      VisitAll(queue, d.turns, ids, cfg);
      forall c | c in world.allCreatures
        ensures c.age == old(c.age) + (if old(c.alive) then 1 else 0) && (c.alive ==> old(c.alive))
      {
        assert c in queue;
        var k :| 0 <= k < |queue| && queue[k] == c;
      }
    }

    /** The second half of a tick before the statistics: the sweep of the dead, then the cap. Only
        removals happen: what is left is alive, was listed before and fits the cap, and each
        removal counted one death. */
    method Sweep(cfg: Config)
      requires Valid()
      modifies world, world.grid, statistics`totalDeaths
      ensures Valid()
      ensures |world.allCreatures| <= |old(world.allCreatures)| && |world.allCreatures| <= cfg.maxCreatures
      ensures forall c :: c in world.allCreatures ==> c in old(world.allCreatures) && c.alive
      ensures statistics.totalDeaths == old(statistics.totalDeaths) + (|old(world.allCreatures)| - |world.allCreatures|)
    {
      RemoveDead();
      Cap(cfg);
    }

    /** The `update_resources` call of a tick, which leaves the creatures alone. */
    method Replenish(d: TickDraws, cfg: Config)
      requires Valid()
      requires d.food < cfg.foodRespawnRate ==> 1 <= d.foodAt.0 <= world.width - 2 && 1 <= d.foodAt.1 <= world.height - 2
      requires d.plant < cfg.plantGrowthRate ==> 1 <= d.plantAt.0 <= world.width - 2 && 1 <= d.plantAt.1 <= world.height - 2
      modifies world, world.grid, world.resources.Values
      ensures Valid() && world.allCreatures == old(world.allCreatures)
    {
      var _, _ := world.UpdateResources(d.food, cfg.foodRespawnRate, d.foodAt, d.foodEnergy,
                                        d.plant, cfg.plantGrowthRate, d.plantAt, d.plantEnergy);
    }

    /** The closing `statistics.update(world)` of a tick, which leaves the world alone. */
    method Record()
      requires Valid()
      modifies statistics
      ensures Valid() && statistics.ticks == old(statistics.ticks) + 1
      ensures statistics.creatureCount == |world.allCreatures|
      ensures statistics.totalBirths == old(statistics.totalBirths) && statistics.totalDeaths == old(statistics.totalDeaths)
    {
      statistics.Update(world);
    }

    /** The sweep of `update`: every creature that is no longer alive is removed, one death each.
        The list keeps exactly the live creatures, in order. */
    method RemoveDead()
      requires Valid()
      modifies world, world.grid, statistics`totalDeaths
      ensures Valid() && world.resources == old(world.resources)
      ensures |world.allCreatures| <= |old(world.allCreatures)|
      ensures world.allCreatures == Keep(old(world.allCreatures), old(Members(Dead(world.allCreatures), |Dead(world.allCreatures)|)))
      ensures forall c :: c in world.allCreatures <==> c in old(world.allCreatures) && c.alive
      ensures statistics.totalDeaths == old(statistics.totalDeaths) + |old(world.allCreatures)| - |world.allCreatures|
    {
      ghost var cs := world.allCreatures;
      var dead := Dead(world.allCreatures);
      MembersSpan(dead, |dead|);
      assert dead[..|dead|] == dead;
      Cull(dead);
      forall c ensures c in world.allCreatures <==> c in cs && c.alive {
        if c in cs && c.alive {
          var i :| 0 <= i < |cs| && cs[i] == c;
        }
      }
    }

    /** The population cap of `update`: above `max_creatures`, the `len - max_creatures` oldest
        creatures (`sorted` by age, descending; ties to the earlier listed) are removed, one death
        each, which leaves exactly `max_creatures`; otherwise nothing happens. */
    method Cap(cfg: Config)
      requires Valid()
      modifies world, world.grid, statistics`totalDeaths
      ensures Valid() && world.resources == old(world.resources)
      ensures forall c :: c in world.allCreatures ==> c in old(world.allCreatures)
      ensures var excess := Excess(|old(world.allCreatures)|, cfg.maxCreatures);
              && world.allCreatures == Keep(old(world.allCreatures), Members(old(Oldest(world.allCreatures, excess)), excess))
              && |world.allCreatures| == |old(world.allCreatures)| - excess
              && statistics.totalDeaths == old(statistics.totalDeaths) + excess
    {
      var excess := Excess(|world.allCreatures|, cfg.maxCreatures);
      if excess > 0 {
        Trim(excess);
      } else {
        KeepAll(world.allCreatures);
      }
    }

    /** The capped branch of `Cap`: the first `excess` of the list sorted by age, descending, are
        removed. */
    method Trim(excess: nat)
      requires Valid() && excess <= |world.allCreatures|
      modifies world, world.grid, statistics`totalDeaths
      ensures Valid() && world.resources == old(world.resources)
      ensures forall c :: c in world.allCreatures ==> c in old(world.allCreatures)
      ensures world.allCreatures == Keep(old(world.allCreatures), Members(old(Oldest(world.allCreatures, excess)), excess))
      ensures |world.allCreatures| == |old(world.allCreatures)| - excess
      ensures statistics.totalDeaths == old(statistics.totalDeaths) + excess
    {
      var sorted := SortDescending(AgeKeyed(world.allCreatures));
      var gone := Unkeyed(sorted[..excess]);
      OldestFacts(world.allCreatures, excess);
      ghost var cs := world.allCreatures;
      assert gone == Oldest(cs, excess) && |gone| == excess;
      Cull(gone);
      forall c | c in world.allCreatures ensures c in cs {
        var i :| 0 <= i < |world.allCreatures| && world.allCreatures[i] == c;
      }
    }

    /** The body shared by the two removal loops of `update`: `remove_creature` of each creature of
        `gone`, in order, counting one death each. Every one of them is listed and indexed, so each
        removal succeeds: the list keeps exactly the other creatures, in order, and the index and
        the resources follow. */
    method Cull(gone: seq<Creature>)
      requires Valid() && Distinct(gone) && forall i :: 0 <= i < |gone| ==> gone[i] in world.allCreatures
      modifies world, world.grid, statistics`totalDeaths
      ensures Valid() && world.resources == old(world.resources)
      ensures world.allCreatures == Keep(old(world.allCreatures), Members(gone, |gone|))
      ensures |world.allCreatures| == |old(world.allCreatures)| - |gone|
      ensures statistics.totalDeaths == old(statistics.totalDeaths) + |gone|
    {
      ghost var cs := world.allCreatures;
      KeepAll(cs);
      var i := 0;
      while i < |gone|
        invariant 0 <= i <= |gone| && Valid() && world.resources == old(world.resources)
        invariant Distinct(cs)
        invariant world.allCreatures == Keep(cs, Members(gone, i))
        invariant |world.allCreatures| == |cs| - i
        invariant statistics.totalDeaths == old(statistics.totalDeaths) + i
      {
        CullStep(cs, gone, i);
        i := i + 1;
      }
    }

    /** One round of a removal loop: the next creature of `gone` leaves, and one more death. */
    method CullStep(ghost cs: seq<Creature>, gone: seq<Creature>, i: nat)
      requires Valid() && Distinct(cs) && Distinct(gone) && i < |gone|
      requires forall j :: 0 <= j < |gone| ==> gone[j] in cs
      requires world.allCreatures == Keep(cs, Members(gone, i))
      modifies world, world.grid, statistics`totalDeaths
      ensures Valid() && world.resources == old(world.resources)
      ensures world.allCreatures == Keep(cs, Members(gone, i + 1))
      ensures |world.allCreatures| == |old(world.allCreatures)| - 1
      ensures statistics.totalDeaths == old(statistics.totalDeaths) + 1
    {
      var c := gone[i];
      MembersBefore(gone, i, i);
      KeepRemove(cs, Members(gone, i), c);
      assert Members(gone, i + 1) == Members(gone, i) + {c};
      Drop(c);
      CountDeath();
    }

    /** `total_births += 1`, which the scheduler's invariant does not depend on. */
    method CountBirth()
      requires Valid()
      modifies statistics`totalBirths
      ensures Valid() && statistics.totalBirths == old(statistics.totalBirths) + 1
    {
      statistics.totalBirths := statistics.totalBirths + 1;
    }

    /** `total_deaths += 1`, which the scheduler's invariant does not depend on. */
    method CountDeath()
      requires Valid()
      modifies statistics`totalDeaths
      ensures Valid() && statistics.totalDeaths == old(statistics.totalDeaths) + 1
    {
      statistics.totalDeaths := statistics.totalDeaths + 1;
    }

    /** `remove_creature` of a listed creature: it is indexed where it stands, so it is unindexed
        and its first (only) occurrence leaves the list; the scheduler's invariant is kept. */
    method Drop(c: Creature)
      requires Valid() && c in world.allCreatures
      modifies world, world.grid
      ensures Valid() && world.resources == old(world.resources)
      ensures world.allCreatures == RemoveFirst(old(world.allCreatures), c)
    {
      ghost var list, index, pos := world.allCreatures, world.creatures, Positions(world.allCreatures);
      assert (c.x, c.y) in index;
      world.RemoveCreature(c, c.x, c.y);
      SyncedAfterRemove(world, list, index, pos, c);
      forall d | d in world.allCreatures ensures d.chromosome.Valid() {
        assert old(d.chromosome.Valid());
      }
    }

    /** The loop of `update` over the shuffled snapshot `queue` of the list: a creature that is not
        alive when its turn comes is skipped, every other one takes exactly one turn. The list is
        kept; each creature of the queue ends one tick older exactly when it was alive at the
        start (a creature dies only in its own turn), and no dead creature comes back. */
    method VisitAll(queue: seq<Creature>, turns: seq<TurnDraws>, ids: IdCounter, cfg: Config)
      requires Valid() && Distinct(queue) && |turns| == |queue|
      requires forall k :: 0 <= k < |queue| ==> queue[k] in world.allCreatures && DrawsFit(turns[k].act)
      modifies world.allCreatures, Brains(world.allCreatures), world, world.grid, ids
      ensures Valid() && world.allCreatures == old(world.allCreatures)
      ensures forall k :: 0 <= k < |queue| ==>
                && queue[k].age == old(queue[k].age) + (if old(queue[k].alive) then 1 else 0)
                && (queue[k].alive ==> old(queue[k].alive))
    {
      ghost var was := Vitals(queue);
      VisitLoop(queue, was, turns, ids, cfg);
    }

    /** The loop of `VisitAll` over the whole queue: every creature of it has had its turn. */
    method VisitLoop(queue: seq<Creature>, ghost was: seq<(nat, bool)>, turns: seq<TurnDraws>, ids: IdCounter, cfg: Config)
      requires Valid() && Distinct(queue) && |turns| == |queue| && Progress(queue, was, 0)
      requires forall k :: 0 <= k < |queue| ==> queue[k] in world.allCreatures && DrawsFit(turns[k].act)
      modifies world.allCreatures, Brains(world.allCreatures), world, world.grid, ids
      ensures Valid() && world.allCreatures == old(world.allCreatures)
      ensures Progress(queue, was, |queue|)
    {
      var k := 0;
      while k < |queue|
        invariant 0 <= k <= |queue|
        invariant Valid() && world.allCreatures == old(world.allCreatures)
        invariant Progress(queue, was, k)
      {
        VisitStep(queue, was, k, turns[k], ids, cfg);
        k := k + 1;
      }
    }

    /** One round of the loop over the queue: the creature at position `k` takes its turn when it
        is alive and is skipped otherwise; no other creature of the queue changes age or liveness. */
    method VisitStep(queue: seq<Creature>, ghost was: seq<(nat, bool)>, k: nat, t: TurnDraws, ids: IdCounter, cfg: Config)
      requires Valid() && Distinct(queue) && k < |queue| && DrawsFit(t.act)
      requires forall j :: 0 <= j < |queue| ==> queue[j] in world.allCreatures
      requires Progress(queue, was, k)
      modifies world.allCreatures, Brains(world.allCreatures), world, world.grid, ids
      ensures Valid() && world.allCreatures == old(world.allCreatures)
      ensures Progress(queue, was, k + 1)
    {
      var c := queue[k];
      if c.alive {
        var _, _ := Visit(c, t, ids, cfg);
      }
      forall j | 0 <= j < |queue| && j != k
        ensures queue[j].age == old(queue[j].age) && queue[j].alive == old(queue[j].alive)
      {
        DistinctAt(queue, j, k);
        assert queue[j] in world.allCreatures;
      }
    }

    /** A turn of a listed creature keeps the scheduler's invariant: only that creature moves, and
        the index follows it. */
    method Visit(c: Creature, t: TurnDraws, ids: IdCounter, cfg: Config) returns (action: Action, reward: real)
      requires Valid() && c in world.allCreatures && DrawsFit(t.act)
      modifies c, c.brain, world, world.grid, ids
      ensures Valid() && world.allCreatures == old(world.allCreatures)
      ensures c.age == old(c.age) + 1 && (c.alive ==> old(c.alive))
      ensures forall d :: d in world.allCreatures && d != c ==> d.age == old(d.age) && d.alive == old(d.alive)
    {
      ghost var cs, index, pos := world.allCreatures, world.creatures, Positions(world.allCreatures);
      action, reward := Turn(c, t, ids, cfg);
      forall d | d in cs ensures d.chromosome.Valid() {
        assert old(d.chromosome.Valid());
      }
      SyncedAfterTurn(world, index, pos, c, old((c.x, c.y)));
    }

    /** One round of the loop of `update` for a live creature: `decide_action`, `execute_action`,
        `update`, `perceive`, the next state and `learn`, in that order, with nothing else. The
        creature ends one tick older, stands where the index says, and may only have died. */
    method Turn(c: Creature, t: TurnDraws, ids: IdCounter, cfg: Config) returns (action: Action, reward: real)
      requires world.Valid() && c.chromosome.Valid() && DrawsFit(t.act)
      modifies c`x, c`y, c`energy, c`foodEaten, c`offspringCount, c`age, c`alive, c.brain, world, world.grid, ids
      ensures world.Valid() && world.allCreatures == old(world.allCreatures)
      ensures world.creatures == if (c.x, c.y) == old((c.x, c.y)) then old(world.creatures)
                                 else (old(world.creatures) - {old((c.x, c.y))})[(c.x, c.y) := c]
      ensures (c.x, c.y) != old((c.x, c.y)) ==> (c.x, c.y) !in old(world.creatures)
      ensures c.age == old(c.age) + 1 && (c.alive ==> old(c.alive))
      ensures c.brain.lastAction == Some(action) && c.brain.lastReward == reward
    {
      var state: State;
      action, state := Decide(c, t);
      reward := Execute(c, action, t.act, ids, cfg);
      label Executed:
      Reflect(c, state, action, reward, cfg);
      assert unchanged@Executed(world, world.grid);
      assert unchanged@Executed(world.resources.Values);
    }

    /** The end of a turn: `update`, then `perceive` and the next state, then `learn` from the
        transition. */
    method Reflect(c: Creature, state: State, action: Action, reward: real, cfg: Config)
      requires world.Shaped()
      modifies c`age, c`energy, c`alive, c.brain
      ensures c.age == old(c.age) + 1 && (c.alive ==> old(c.alive))
      ensures c.brain.lastState == Some(state) && c.brain.lastAction == Some(action) && c.brain.lastReward == reward
    {
      c.Update(cfg);
      var nextState := Observe(c);
      c.brain.Learn(state, action, reward, nextState);
    }

    /** `perceive` followed by `get_state_representation`. */
    method Observe(c: Creature) returns (s: State)
      requires world.Shaped()
      ensures s.canReproduce == (c.energy >= c.traits.reproductionThreshold)
    {
      var vision, internal := c.Perceive(world);
      s := GetStateRepresentation(vision, internal);
    }

    /** The `decide_action` call of a turn: the table is kept, or gains a zero row for the state. */
    method Decide(c: Creature, t: TurnDraws) returns (action: Action, state: State)
      requires world.Shaped()
      modifies c.brain`qTable
      ensures c.brain.qTable == old(c.brain.qTable) || c.brain.qTable == Materialize(old(c.brain.qTable), state)
    {
      action, state := c.DecideAction(world, t.u, t.pick);
    }

    /** The `execute_action` call of a turn, as far as the list and the index are concerned: the list
        is kept, and the index follows the creature when it has moved. */
    method Execute(c: Creature, action: Action, d: Draws, ids: IdCounter, cfg: Config) returns (reward: real)
      requires world.Valid() && c.chromosome.Valid() && DrawsFit(d)
      modifies c`x, c`y, c`energy, c`foodEaten, c`offspringCount, world, world.grid, ids
      ensures world.Valid() && world.allCreatures == old(world.allCreatures)
      ensures world.creatures == if (c.x, c.y) == old((c.x, c.y)) then old(world.creatures)
                                 else (old(world.creatures) - {old((c.x, c.y))})[(c.x, c.y) := c]
      ensures (c.x, c.y) != old((c.x, c.y)) ==> (c.x, c.y) !in old(world.creatures)
    {
      reward := c.ExecuteAction(action, world, d, ids, cfg);
      match action
      case MoveUp | MoveDown | MoveLeft | MoveRight =>
        assert c.MoveEffect(action, world, ids, reward, cfg);
      case Eat =>
        assert c.EatEffect(world, ids, reward);
      case Reproduce =>
        assert c.ReproduceEffect(world, d, ids, reward, cfg);
      case Photosynthesize =>
        assert c.PhotosynthesisEffect(world, ids, reward, cfg);
      case Stay =>
        assert c.StayEffect(world, ids, reward);
    }
  }
}
