/** The resources that occupy cells of the world: walls, food and plants. */
module Resources {
  import opened Basics

  /** The cell tags of `ResourceType`. `Sunlight` is declared by the program but never placed on the grid. */
  datatype CellType = Empty | Wall | Food | Plant | Sunlight | Creature

  /** `Plant.max_growth`. */
  const MaxGrowth: nat := 10

  /** The energy a plant holds once it has grown to stage `g`. */
  function PlantEnergy(g: nat): real
  {
    5.0 + (g as real / MaxGrowth as real) * 10.0
  }

  /** Everything a resource's `update` reads or writes. */
  datatype ResourceView = ResourceView(kind: CellType, energyValue: real, age: nat, growthStage: nat)

  /** The invariant every constructed resource keeps: it is one of the three kinds, a wall holds no
      energy, only plants grow, a plant's stage never exceeds its maximum, and a plant that has grown
      holds exactly the energy of its stage. */
  predicate WellFormed(v: ResourceView)
  {
    && (v.kind == Wall || v.kind == Food || v.kind == Plant)
    && (v.kind == Wall ==> v.energyValue == 0.0)
    && (v.kind != Plant ==> v.growthStage == 0)
    && (v.kind == Plant ==> v.growthStage <= MaxGrowth && (v.growthStage > 0 ==> v.energyValue == PlantEnergy(v.growthStage)))
  }

  /** One tick of `update`: every resource ages by one; a plant below its maximum grows one stage and
      takes the energy of its new stage. */
  function Step(v: ResourceView): (r: ResourceView)
    ensures r.kind == v.kind && r.age == v.age + 1
    ensures v.kind != Plant ==> r.energyValue == v.energyValue && r.growthStage == v.growthStage
    ensures v.kind == Plant && v.growthStage < MaxGrowth ==>
              r.growthStage == v.growthStage + 1 && r.energyValue == 5.0 + r.growthStage as real
    ensures v.kind == Plant && v.growthStage >= MaxGrowth ==>
              r.growthStage == v.growthStage && r.energyValue == v.energyValue
    ensures WellFormed(v) ==> WellFormed(r)
  {
    if v.kind == Plant && v.growthStage < MaxGrowth then
      v.(age := v.age + 1, growthStage := v.growthStage + 1, energyValue := PlantEnergy(v.growthStage + 1))
    else
      v.(age := v.age + 1)
  }

  /** `n` consecutive ticks. */
  function Steps(v: ResourceView, n: nat): ResourceView
  {
    if n == 0 then v else Step(Steps(v, n - 1))
  }

  /** A freshly created plant (stage 0, any starting energy) after `n` ticks: its stage is
      min(n, 10), its energy is 5 + stage once it has grown at least once, and its age is n. */
  lemma {:induction false} PlantGrowth(e: real, n: nat)
    ensures var r := Steps(ResourceView(Plant, e, 0, 0), n);
      && r.kind == Plant && r.age == n
      && r.growthStage == (if n < MaxGrowth then n else MaxGrowth)
      && (n > 0 ==> r.energyValue == 5.0 + r.growthStage as real)
  {
    if n > 0 {
      PlantGrowth(e, n - 1);
    }
  }

  /** Once a plant has reached stage 10 its energy stays at 15 for good. */
  lemma {:induction false} MaturePlantIsStable(e: real, n: nat)
    requires n >= MaxGrowth
    ensures Steps(ResourceView(Plant, e, 0, 0), n).energyValue == 15.0
  {
    PlantGrowth(e, n);
  }

  /** Food and walls are never changed by `update` except in age. */
  lemma {:induction false} InertAfterSteps(v: ResourceView, n: nat)
    requires v.kind == Food || v.kind == Wall
    ensures Steps(v, n) == v.(age := v.age + n)
  {
    if n > 0 {
      InertAfterSteps(v, n - 1);
    }
  }

  /** A `Resource` object; the three subclasses of the program are told apart by `kind`. */
  class Resource {
    const x: int
    const y: int
    const kind: CellType
    var energyValue: real
    var age: nat
    /** `Plant.growth_stage`; kept at 0 by the other kinds, which do not have the attribute. */
    var growthStage: nat

    function View(): ResourceView
      reads this
    {
      ResourceView(kind, energyValue, age, growthStage)
    }

    ghost predicate Valid()
      reads this
    {
      WellFormed(View())
    }

    /** `Wall(x, y)`: an obstacle with no energy. */
    constructor NewWall(x: int, y: int)
      ensures Valid() && this.x == x && this.y == y
      ensures View() == ResourceView(Wall, 0.0, 0, 0)
    {
      this.x, this.y, kind := x, y, Wall;
      energyValue, age, growthStage := 0.0, 0, 0;
    }

    /** `Food(x, y)`, whose energy is `random.uniform(10, 20)` computed from the draw `u`. */
    constructor NewFood(x: int, y: int, u: real)
      ensures Valid() && this.x == x && this.y == y
      ensures View() == ResourceView(Food, Uniform(10.0, 20.0, u), 0, 0)
      ensures 0.0 <= u <= 1.0 ==> 10.0 <= energyValue <= 20.0
    {
      this.x, this.y, kind := x, y, Food;
      energyValue, age, growthStage := Uniform(10.0, 20.0, u), 0, 0;
    }

    /** `Plant(x, y)`, whose energy is `random.uniform(5, 15)` computed from the draw `u`, at stage 0. */
    constructor NewPlant(x: int, y: int, u: real)
      ensures Valid() && this.x == x && this.y == y
      ensures View() == ResourceView(Plant, Uniform(5.0, 15.0, u), 0, 0)
      ensures 0.0 <= u <= 1.0 ==> 5.0 <= energyValue <= 15.0
    {
      this.x, this.y, kind := x, y, Plant;
      energyValue, age, growthStage := Uniform(5.0, 15.0, u), 0, 0;
    }

    /** `update` (and `Plant.update`, which calls it first). */
    method Update()
      requires Valid()
      modifies this
      ensures Valid()
      ensures View() == Step(old(View()))
    {
      age := age + 1;
      if kind == Plant && growthStage < MaxGrowth {
        growthStage := growthStage + 1;
        energyValue := PlantEnergy(growthStage);
      }
    }
  }
}
