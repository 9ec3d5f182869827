/** The grid world: tag grid, resource records, creature index and creature list (`world.py`). */
module Worlds {
  import opened Basics
  import opened Resources

  /** A cell position (x, y). */
  type Pos = (int, int)

  /** Which resource a placement creates. */
  datatype Placement = PlaceFood | PlacePlant

  /** The energy `consume_resource` hands over from a resource of `kind` holding `energy`. */
  function Gain(kind: CellType, energy: real, foodPreference: real, plantPreference: real): (g: real)
    ensures kind != Food && kind != Plant ==> g == 0.0
    ensures 0.0 <= energy && 0.0 <= foodPreference && 0.0 <= plantPreference ==> 0.0 <= g
  {
    if kind == Food then energy * foodPreference
    else if kind == Plant then energy * plantPreference
    else 0.0
  }

  /** The world, generic in the creature type: it stores creatures but never reads their fields
      (their coordinates and preferences are passed in by the caller). */
  class World<C(==)> {
    const width: nat
    const height: nat
    /** `grid[y][x]`, a cell tag. */
    const grid: array2<CellType>
    var resources: map<Pos, Resource>
    /** The creature index: position -> creature. */
    var creatures: map<Pos, C>
    var allCreatures: seq<C>

    /** `World(width, height)` with `_initialize_world`, the random layout given as its sampled cells:
        `clusterWalls` are the cluster cells (each a centre in [5, size-5] plus an offset in [-2, 2]),
        `foodSpots` and `plantSpots` the interior cells tried for food and plants with their energy
        draws. The frame is walled first, and nothing placed afterwards reaches it, so every border
        cell ends as WALL with a Wall record. */
    constructor (width: nat, height: nat, clusterWalls: seq<Pos>,
                 foodSpots: seq<(Pos, real)>, plantSpots: seq<(Pos, real)>)
      requires forall i :: 0 <= i < |clusterWalls| ==>
                 3 <= clusterWalls[i].0 <= width - 3 && 3 <= clusterWalls[i].1 <= height - 3
      requires forall i :: 0 <= i < |foodSpots| ==>
                 1 <= foodSpots[i].0.0 <= width - 2 && 1 <= foodSpots[i].0.1 <= height - 2
      requires forall i :: 0 <= i < |plantSpots| ==>
                 1 <= plantSpots[i].0.0 <= width - 2 && 1 <= plantSpots[i].0.1 <= height - 2
      ensures Valid() && this.width == width && this.height == height
      ensures creatures == map[] && allCreatures == []
      ensures BorderWalled()
    {
      this.width, this.height := width, height;
      grid := new CellType[height, width]((_, _) => Empty);
      resources, creatures, allCreatures := map[], map[], [];
      new;
      WallRows();
      WallColumns();
      WallCells(clusterWalls);
      PlaceSpots(PlaceFood, foodSpots);
      PlaceSpots(PlacePlant, plantSpots);
    }

    /** The first loop of `_initialize_world`: the top and bottom rows become walls. */
    method WallRows()
      requires Valid() && creatures == map[]
      modifies this, grid
      ensures Valid() && creatures == old(creatures) && allCreatures == old(allCreatures)
      ensures RowWalled(0, width) && RowWalled(height - 1, width)
    {
      var x := 0;
      while x < width
        invariant x <= width && Valid() && creatures == old(creatures) && allCreatures == old(allCreatures)
        invariant RowWalled(0, x) && RowWalled(height - 1, x)
      {
        WallPair(x, 0, x, height - 1);
        x := x + 1;
      }
    }

    /** The second loop of `_initialize_world`: the left and right columns become walls, which
        completes the frame. */
    method WallColumns()
      requires Valid() && creatures == map[]
      requires RowWalled(0, width) && RowWalled(height - 1, width)
      modifies this, grid
      ensures Valid() && creatures == old(creatures) && allCreatures == old(allCreatures)
      ensures BorderWalled()
    {
      var y := 0;
      while y < height
        invariant y <= height && Valid() && creatures == old(creatures) && allCreatures == old(allCreatures)
        invariant RowWalled(0, width) && RowWalled(height - 1, width)
        invariant ColumnWalled(0, y) && ColumnWalled(width - 1, y)
      {
        WallPair(0, y, width - 1, y);
        y := y + 1;
      }
    }

    /** One step of the frame loops: two walls placed, and no walled cell lost. */
    method WallPair(x1: int, y1: int, x2: int, y2: int)
      requires Valid() && creatures == map[]
      modifies this, grid
      ensures Valid() && creatures == old(creatures) && allCreatures == old(allCreatures)
      ensures WalledAt(x1, y1) && WalledAt(x2, y2)
      ensures forall i, j {:trigger WalledAt(i, j)} :: old(WalledAt(i, j)) ==> WalledAt(i, j)
    {
      PlaceWall(x1, y1);
      PlaceWall(x2, y2);
    }

    /** The wall clusters: cells at least 3 away from the frame, so it stays walled. */
    method WallCells(cells: seq<Pos>)
      requires Valid() && creatures == map[] && BorderWalled()
      requires forall i :: 0 <= i < |cells| ==> 3 <= cells[i].0 <= width - 3 && 3 <= cells[i].1 <= height - 3
      modifies this, grid
      ensures Valid() && creatures == old(creatures) && allCreatures == old(allCreatures)
      ensures BorderWalled()
    {
      var i := 0;
      while i < |cells|
        invariant i <= |cells| && Valid() && creatures == old(creatures) && allCreatures == old(allCreatures)
        invariant BorderWalled()
      {
        PlaceWall(cells[i].0, cells[i].1);
        i := i + 1;
      }
    }

    /** The food and plant loops of `_initialize_world`: each sampled interior cell that is EMPTY
        receives the resource; the frame, being walled, is never taken. */
    method PlaceSpots(what: Placement, spots: seq<(Pos, real)>)
      requires Valid() && BorderWalled()
      requires forall i :: 0 <= i < |spots| ==> 1 <= spots[i].0.0 <= width - 2 && 1 <= spots[i].0.1 <= height - 2
      modifies this, grid
      ensures Valid() && creatures == old(creatures) && allCreatures == old(allCreatures)
      ensures BorderWalled()
    {
      var i := 0;
      while i < |spots|
        invariant i <= |spots| && Valid() && creatures == old(creatures) && allCreatures == old(allCreatures)
        invariant BorderWalled()
      {
        var (p, u) := spots[i];
        if IsEmpty(p.0, p.1) {
          var _ := Place(what, p.0, p.1, u);
        }
        i := i + 1;
      }
    }

    /** `in_bounds`. */
    predicate InBounds(x: int, y: int)
    {
      0 <= x < width && 0 <= y < height
    }

    /** The grid has the world's dimensions (rows are y, columns are x). */
    predicate Shaped()
    {
      grid.Length0 == height && grid.Length1 == width
    }

    /** The invariant the world's operations keep: every indexed creature stands on a cell tagged
        `Creature`, and every resource record lies in bounds, is well formed and knows its own position.
        The tag grid and the resource map are deliberately not required to agree. */
    ghost predicate Valid()
      reads this, grid, resources.Values
    {
      && Shaped()
      && (forall p :: p in creatures ==> InBounds(p.0, p.1) && grid[p.1, p.0] == CellType.Creature)
      && (forall p :: p in resources ==>
            InBounds(p.0, p.1) && resources[p].x == p.0 && resources[p].y == p.1 && resources[p].Valid())
    }

    /** Every cell other than those in `except` holds the tag it held before. */
    twostate predicate GridKeptExcept(except: set<Pos>)
      reads grid
    {
      forall i, j :: 0 <= i < grid.Length0 && 0 <= j < grid.Length1 && (j, i) !in except ==>
        grid[i, j] == old(grid[i, j])
    }

    /** `get_cell_type`: WALL outside the world. */
    function GetCellType(x: int, y: int): (t: CellType)
      reads grid
      requires Shaped()
      ensures !InBounds(x, y) ==> t == Wall
      ensures InBounds(x, y) ==> t == grid[y, x]
    {
      if !InBounds(x, y) then Wall else grid[y, x]
    }

    /** `is_empty`: false outside the world. */
    function IsEmpty(x: int, y: int): (b: bool)
      reads grid
      requires Shaped()
      ensures !InBounds(x, y) ==> !b
      ensures b <==> InBounds(x, y) && GetCellType(x, y) == Empty
    {
      if !InBounds(x, y) then false else grid[y, x] == Empty
    }

    /** `is_walkable`: false outside the world; EMPTY, FOOD and PLANT cells can be entered. */
    function IsWalkable(x: int, y: int): (b: bool)
      reads grid
      requires Shaped()
      ensures !InBounds(x, y) ==> !b
      ensures b <==> InBounds(x, y) && GetCellType(x, y) in {Empty, Food, Plant}
    {
      if !InBounds(x, y) then false else grid[y, x] in {Empty, Food, Plant}
    }

    /** `get_creature_at`: None outside the world, since only in-bounds positions are indexed. */
    function GetCreatureAt(x: int, y: int): (c: Option<C>)
      reads this, grid, resources.Values
      requires Valid()
      ensures !InBounds(x, y) ==> c == None
      ensures c.Some? <==> (x, y) in creatures
      ensures c.Some? ==> creatures[(x, y)] == c.value
    {
      if (x, y) in creatures then Some(creatures[(x, y)]) else None
    }

    /** `get_resource_at`: None outside the world. */
    function GetResourceAt(x: int, y: int): (r: Option<Resource>)
      reads this, grid, resources.Values
      requires Valid()
      ensures !InBounds(x, y) ==> r == None
      ensures r.Some? <==> (x, y) in resources
      ensures r.Some? ==> resources[(x, y)] == r.value
    {
      if (x, y) in resources then Some(resources[(x, y)]) else None
    }

    /** `add_creature`, for a creature standing at (cx, cy): it succeeds exactly on an in-bounds
        EMPTY cell, which then holds the creature; otherwise nothing changes. */
    method AddCreature(c: C, cx: int, cy: int) returns (ok: bool)
      requires Valid()
      modifies this, grid
      ensures Valid()
      ensures ok == old(IsEmpty(cx, cy))
      ensures resources == old(resources)
      ensures ok ==> grid[cy, cx] == CellType.Creature && creatures == old(creatures)[(cx, cy) := c]
                     && allCreatures == old(allCreatures) + [c]
      ensures !ok ==> creatures == old(creatures) && allCreatures == old(allCreatures)
      ensures GridKeptExcept(if ok then {(cx, cy)} else {})
      ensures forall x, y :: IsEmpty(x, y) <==> old(IsEmpty(x, y)) && (x, y) != (cx, cy)
    {
      if InBounds(cx, cy) && IsEmpty(cx, cy) {
        grid[cy, cx] := CellType.Creature;
        creatures := creatures[(cx, cy) := c];
        allCreatures := allCreatures + [c];
        return true;
      }
      return false;
    }

    /** `remove_creature`, for a creature standing at (cx, cy): nothing happens unless the position is
        indexed; then the cell is emptied, the index entry dropped and the creature's first occurrence
        taken out of `allCreatures`. */
    method RemoveCreature(c: C, cx: int, cy: int)
      requires Valid()
      modifies this, grid
      ensures Valid()
      ensures resources == old(resources)
      ensures (cx, cy) !in old(creatures) ==>
                creatures == old(creatures) && allCreatures == old(allCreatures) && GridKeptExcept({})
      ensures (cx, cy) in old(creatures) ==>
                && grid[cy, cx] == Empty && creatures == old(creatures) - {(cx, cy)}
                && allCreatures == (if c in old(allCreatures) then RemoveFirst(old(allCreatures), c) else old(allCreatures))
                && GridKeptExcept({(cx, cy)})
    {
      if (cx, cy) in creatures {
        grid[cy, cx] := Empty;
        creatures := creatures - {(cx, cy)};
        if c in allCreatures {
          allCreatures := RemoveFirst(allCreatures, c);
        }
      }
    }

    /** `move_creature`, for a creature standing at (ox, oy): it fails, changing nothing, unless the
        target is walkable; otherwise the old cell is emptied and unindexed (when it was indexed) and the
        target is tagged CREATURE and indexed, whatever resource record it holds. */
    method MoveCreature(c: C, ox: int, oy: int, nx: int, ny: int) returns (ok: bool)
      requires Valid()
      modifies this, grid
      ensures Valid()
      ensures ok == old(IsWalkable(nx, ny))
      ensures resources == old(resources) && allCreatures == old(allCreatures)
      ensures !ok ==> creatures == old(creatures) && GridKeptExcept({})
      ensures ok ==>
                && grid[ny, nx] == CellType.Creature
                && ((ox, oy) in old(creatures) ==> grid[oy, ox] == Empty)
                && creatures == (old(creatures) - {(ox, oy)})[(nx, ny) := c]
                && GridKeptExcept(if (ox, oy) in old(creatures) then {(ox, oy), (nx, ny)} else {(nx, ny)})
    {
      if !InBounds(nx, ny) {
        return false;
      }
      if !IsWalkable(nx, ny) {
        return false;
      }
      if (ox, oy) in creatures {
        grid[oy, ox] := Empty;
        creatures := creatures - {(ox, oy)};
      }
      grid[ny, nx] := CellType.Creature;
      creatures := creatures[(nx, ny) := c];
      return true;
    }

    /** `consume_resource`, for a consumer with the given preferences: no record, a wall or a gain that
        is not positive changes nothing; a positive gain deletes the record and tags the cell CREATURE. */
    method ConsumeResource(x: int, y: int, foodPreference: real, plantPreference: real) returns (gain: real)
      requires Valid()
      modifies this, grid
      ensures Valid()
      ensures gain == if (x, y) in old(resources)
                      then Gain(old(resources[(x, y)].kind), old(resources[(x, y)].energyValue), foodPreference, plantPreference)
                      else 0.0
      ensures creatures == old(creatures) && allCreatures == old(allCreatures)
      ensures gain > 0.0 ==> resources == old(resources) - {(x, y)} && grid[y, x] == CellType.Creature
                             && GridKeptExcept({(x, y)})
      ensures gain <= 0.0 ==> resources == old(resources) && GridKeptExcept({})
    {
      if (x, y) !in resources {
        return 0.0;
      }
      var resource := resources[(x, y)];
      gain := 0.0;
      if resource.kind == Food {
        gain := resource.energyValue * foodPreference;
      } else if resource.kind == Plant {
        gain := resource.energyValue * plantPreference;
      }
      if gain > 0.0 {
        resources := resources - {(x, y)};
        grid[y, x] := CellType.Creature;
      }
    }

    /** The loop of `update_resources` over the resource records: each record (there is one object per
        position, since a record knows its own position) gets exactly one `update`. */
    method StepAll()
      requires Valid()
      modifies resources.Values
      ensures Valid()
      ensures forall p :: p in resources ==> resources[p].View() == Step(old(resources[p].View()))
    {
      var todo := resources.Keys;
      while todo != {}
        invariant todo <= resources.Keys
        invariant Valid()
        invariant forall p :: p in resources ==>
                    resources[p].View() == if p in todo then old(resources[p].View()) else Step(old(resources[p].View()))
        decreases |todo|
      {
        var p :| p in todo;
        label L:
        resources[p].Update();
        forall q | q in resources && q != p
          ensures resources[q].View() == old@L(resources[q].View())
        {
          assert resources[q].x != resources[p].x || resources[q].y != resources[p].y;
        }
        todo := todo - {p};
      }
    }

    /** `update_resources`: every existing record takes one step; then, when `foodDraw < foodRate`, food
        is placed at the sampled interior cell `foodAt` if it is EMPTY, and likewise a plant at
        `plantAt` (see `Respawn`). The results report which placements happened (the program
        returns nothing). */
    method UpdateResources(foodDraw: real, foodRate: real, foodAt: Pos, foodEnergy: real,
                           plantDraw: real, plantRate: real, plantAt: Pos, plantEnergy: real)
      returns (foodPlaced: bool, plantPlaced: bool)
      requires Valid()
      requires foodDraw < foodRate ==> 1 <= foodAt.0 <= width - 2 && 1 <= foodAt.1 <= height - 2
      requires plantDraw < plantRate ==> 1 <= plantAt.0 <= width - 2 && 1 <= plantAt.1 <= height - 2
      modifies this, grid, resources.Values
      ensures Valid()
      ensures creatures == old(creatures) && allCreatures == old(allCreatures)
      ensures forall p :: p in old(resources) ==> old(resources[p]).View() == Step(old(resources[p].View()))
      ensures foodPlaced == (foodDraw < foodRate && old(IsEmpty(foodAt.0, foodAt.1)))
      ensures plantPlaced == (plantDraw < plantRate && old(IsEmpty(plantAt.0, plantAt.1))
                              && !(foodPlaced && foodAt == plantAt))
      ensures foodPlaced ==> && 1 <= foodAt.0 <= width - 2 && 1 <= foodAt.1 <= height - 2
                             && old(grid[foodAt.1, foodAt.0]) == Empty && grid[foodAt.1, foodAt.0] == Food
                             && foodAt in resources && fresh(resources[foodAt])
                             && resources[foodAt].View() == ResourceView(Food, Uniform(10.0, 20.0, foodEnergy), 0, 0)
      ensures plantPlaced ==> && 1 <= plantAt.0 <= width - 2 && 1 <= plantAt.1 <= height - 2
                              && old(grid[plantAt.1, plantAt.0]) == Empty && grid[plantAt.1, plantAt.0] == Plant
                              && plantAt in resources && fresh(resources[plantAt])
                              && resources[plantAt].View() == ResourceView(Plant, Uniform(5.0, 15.0, plantEnergy), 0, 0)
      ensures forall p :: p in resources <==> p in old(resources) || (foodPlaced && p == foodAt) || (plantPlaced && p == plantAt)
      ensures forall p :: p in old(resources) && !(foodPlaced && p == foodAt) && !(plantPlaced && p == plantAt) ==>
                resources[p] == old(resources[p])
      ensures GridKeptExcept((if foodPlaced then {foodAt} else {}) + (if plantPlaced then {plantAt} else {}))
    {
      StepAll();
      foodPlaced, plantPlaced := Respawn(foodDraw, foodRate, foodAt, foodEnergy, plantDraw, plantRate, plantAt, plantEnergy);
    }

    /** The respawn half of `update_resources`: food at `foodAt` when its draw is below its rate and
        the cell is EMPTY, then a plant at `plantAt` likewise. A placement never overwrites a tag
        other than EMPTY, and existing records are not touched. */
    method Respawn(foodDraw: real, foodRate: real, foodAt: Pos, foodEnergy: real,
                   plantDraw: real, plantRate: real, plantAt: Pos, plantEnergy: real)
      returns (foodPlaced: bool, plantPlaced: bool)
      requires Valid()
      modifies this, grid
      ensures Valid()
      ensures creatures == old(creatures) && allCreatures == old(allCreatures)
      ensures forall r: Resource :: old(allocated(r)) ==> r.View() == old(r.View())
      ensures foodPlaced == (foodDraw < foodRate && old(IsEmpty(foodAt.0, foodAt.1)))
      ensures plantPlaced == (plantDraw < plantRate && old(IsEmpty(plantAt.0, plantAt.1))
                              && !(foodPlaced && foodAt == plantAt))
      ensures foodPlaced ==> old(grid[foodAt.1, foodAt.0]) == Empty && grid[foodAt.1, foodAt.0] == Food
                             && foodAt in resources && fresh(resources[foodAt])
                             && resources[foodAt].View() == ResourceView(Food, Uniform(10.0, 20.0, foodEnergy), 0, 0)
      ensures plantPlaced ==> old(grid[plantAt.1, plantAt.0]) == Empty && grid[plantAt.1, plantAt.0] == Plant
                              && plantAt in resources && fresh(resources[plantAt])
                              && resources[plantAt].View() == ResourceView(Plant, Uniform(5.0, 15.0, plantEnergy), 0, 0)
      ensures forall p :: p in resources <==> p in old(resources) || (foodPlaced && p == foodAt) || (plantPlaced && p == plantAt)
      ensures forall p :: p in old(resources) && !(foodPlaced && p == foodAt) && !(plantPlaced && p == plantAt) ==>
                resources[p] == old(resources[p])
      ensures GridKeptExcept((if foodPlaced then {foodAt} else {}) + (if plantPlaced then {plantAt} else {}))
    {
      foodPlaced := Chance(PlaceFood, foodDraw, foodRate, foodAt, foodEnergy);
      plantPlaced := Chance(PlacePlant, plantDraw, plantRate, plantAt, plantEnergy);
    }

    /** One half of `Respawn`: a placement at `at` when `draw` is below `rate` and the cell is EMPTY,
        which then stops being EMPTY; nothing else changes. */
    method Chance(what: Placement, draw: real, rate: real, at: Pos, u: real) returns (placed: bool)
      requires Valid()
      modifies this, grid
      ensures Valid()
      ensures creatures == old(creatures) && allCreatures == old(allCreatures)
      ensures forall r: Resource :: old(allocated(r)) ==> r.View() == old(r.View())
      ensures placed == (draw < rate && old(IsEmpty(at.0, at.1)))
      ensures placed ==> old(grid[at.1, at.0]) == Empty && at in resources && fresh(resources[at])
      ensures placed && what == PlaceFood ==>
                grid[at.1, at.0] == Food && resources[at].View() == ResourceView(Food, Uniform(10.0, 20.0, u), 0, 0)
      ensures placed && what == PlacePlant ==>
                grid[at.1, at.0] == Plant && resources[at].View() == ResourceView(Plant, Uniform(5.0, 15.0, u), 0, 0)
      ensures forall p :: p in resources <==> p in old(resources) || (placed && p == at)
      ensures forall p :: p in old(resources) && !(placed && p == at) ==> resources[p] == old(resources[p])
      ensures GridKeptExcept(if placed then {at} else {})
      ensures forall x, y :: IsEmpty(x, y) <==> old(IsEmpty(x, y)) && !(placed && (x, y) == at)
    {
      placed := false;
      if draw < rate && IsEmpty(at.0, at.1) {
        placed := Place(what, at.0, at.1, u);
      }
    }

    /** A border cell (when in bounds) is tagged WALL and holds a Wall record. */
    ghost predicate WalledAt(x: int, y: int)
      reads this, grid
      requires Shaped()
    {
      InBounds(x, y) ==> grid[y, x] == Wall && (x, y) in resources && resources[(x, y)].kind == Wall
    }

    /** The first `n` cells of row `y` are walled. */
    ghost predicate RowWalled(y: int, n: int)
      reads this, grid
      requires Shaped()
    {
      forall x :: 0 <= x < n ==> WalledAt(x, y)
    }

    /** The first `n` cells of column `x` are walled. */
    ghost predicate ColumnWalled(x: int, n: int)
      reads this, grid
      requires Shaped()
    {
      forall y :: 0 <= y < n ==> WalledAt(x, y)
    }

    /** Every cell of the outer frame (top and bottom rows, left and right columns) is walled. */
    ghost predicate BorderWalled()
      reads this, grid
      requires Shaped()
    {
      RowWalled(0, width) && RowWalled(height - 1, width) && ColumnWalled(0, height) && ColumnWalled(width - 1, height)
    }

    /** `_place_wall`: in bounds, the cell becomes WALL with a fresh Wall record, whatever it held. */
    method PlaceWall(x: int, y: int)
      requires Valid()
      requires (x, y) !in creatures
      modifies this, grid
      ensures Valid()
      ensures creatures == old(creatures) && allCreatures == old(allCreatures)
      ensures !InBounds(x, y) ==> resources == old(resources) && GridKeptExcept({})
      ensures InBounds(x, y) ==>
                && grid[y, x] == Wall && (x, y) in resources && fresh(resources[(x, y)])
                && resources[(x, y)].View() == ResourceView(Wall, 0.0, 0, 0)
                && resources == old(resources)[(x, y) := resources[(x, y)]]
                && GridKeptExcept({(x, y)})
      ensures forall i, j {:trigger WalledAt(i, j)} :: old(WalledAt(i, j)) ==> WalledAt(i, j)
    {
      if InBounds(x, y) {
        grid[y, x] := Wall;
        var w := new Resource.NewWall(x, y);
        resources := resources[(x, y) := w];
      }
    }

    /** `_place_food` / `_place_plant`, with the draw `u` for the new resource's energy: only an
        in-bounds EMPTY cell is taken, and it gets the tag and a fresh record of that kind. */
    method Place(what: Placement, x: int, y: int, u: real) returns (placed: bool)
      requires Valid()
      modifies this, grid
      ensures Valid()
      ensures placed == old(IsEmpty(x, y))
      ensures creatures == old(creatures) && allCreatures == old(allCreatures)
      ensures !placed ==> resources == old(resources) && GridKeptExcept({})
      ensures placed ==>
                && (x, y) in resources && fresh(resources[(x, y)])
                && resources == old(resources)[(x, y) := resources[(x, y)]]
                && GridKeptExcept({(x, y)})
                && (what == PlaceFood ==>
                      grid[y, x] == Food && resources[(x, y)].View() == ResourceView(Food, Uniform(10.0, 20.0, u), 0, 0))
                && (what == PlacePlant ==>
                      grid[y, x] == Plant && resources[(x, y)].View() == ResourceView(Plant, Uniform(5.0, 15.0, u), 0, 0))
      ensures forall i, j {:trigger WalledAt(i, j)} :: old(WalledAt(i, j)) ==> WalledAt(i, j)
      ensures forall r: Resource :: old(allocated(r)) ==> r.View() == old(r.View())
    {
      placed := false;
      if InBounds(x, y) && IsEmpty(x, y) {
        var r;
        if what == PlaceFood {
          grid[y, x] := Food;
          r := new Resource.NewFood(x, y, u);
        } else {
          grid[y, x] := Plant;
          r := new Resource.NewPlant(x, y, u);
        }
        resources := resources[(x, y) := r];
        placed := true;
      }
    }
  }
}
