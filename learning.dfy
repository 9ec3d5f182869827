/** The tabular Q-learning policy every creature carries (`brain.py`). */
module Learning {
  import opened Basics

  /** The eight actions, numbered 0 to 7 as in the program. */
  datatype Action = MoveUp | MoveDown | MoveLeft | MoveRight | Eat | Reproduce | Photosynthesize | Stay
  {
    /** The action's number, which is also its slot in a Q-vector. */
    function Index(): (i: nat)
      ensures i < 8
    {
      match this
      case MoveUp => 0 case MoveDown => 1 case MoveLeft => 2 case MoveRight => 3
      case Eat => 4 case Reproduce => 5 case Photosynthesize => 6 case Stay => 7
    }
  }

  /** `list(range(Action.count()))`, the default list of valid actions. */
  const AllActions: seq<Action> := [MoveUp, MoveDown, MoveLeft, MoveRight, Eat, Reproduce, Photosynthesize, Stay]

  /** `AllActions` lists every action once, at the position of its number. */
  lemma AllActionsNumbered()
    ensures |AllActions| == 8
    ensures forall i :: 0 <= i < 8 ==> AllActions[i].Index() == i
    ensures forall a: Action :: a in AllActions
  {
    forall a: Action ensures a in AllActions {
      assert AllActions[a.Index()] == a;
    }
  }

  /** A row of the Q-table: one value per action. */
  type QVector = v: seq<real> | |v| == 8 witness [0.0, 0.0, 0.0, 0.0, 0.0, 0.0, 0.0, 0.0]

  /** `np.zeros(Action.count())`, the row `q_table` creates for a state it has not seen. */
  const Zeros: QVector := [0.0, 0.0, 0.0, 0.0, 0.0, 0.0, 0.0, 0.0]

  /** Every entry of `Zeros` is 0. */
  lemma ZerosEntries()
    ensures forall i :: 0 <= i < 8 ==> Zeros[i] == 0.0
  {
    forall i | 0 <= i < 8 ensures Zeros[i] == 0.0 {
      if i < 4 {
        assert i == 0 || i == 1 || i == 2 || i == 3;
      } else {
        assert i == 4 || i == 5 || i == 6 || i == 7;
      }
    }
  }

  /** The flags of the `vision_data` dictionary (its `visible_cells` list is always empty). */
  datatype Vision = Vision(foodNearby: bool, plantNearby: bool, wallNearby: bool, creatureNearby: bool)

  /** The `internal_state` dictionary. */
  datatype Internal = Internal(energy: real, canReproduce: bool)

  /** The discrete state tuple (energy_level, food, plant, wall, creature, can_reproduce). */
  datatype State = State(energyLevel: int, food: bool, plant: bool, wall: bool, creature: bool, canReproduce: bool)

  /** `get_state_representation`: the energy falls into a bucket of width 20, counted by `int`, which
      truncates toward zero; the flags are copied. */
  function GetStateRepresentation(vision: Vision, internal: Internal): (s: State)
    ensures internal.energy >= 0.0 ==>
              0 <= s.energyLevel && (s.energyLevel * 20) as real <= internal.energy < ((s.energyLevel + 1) * 20) as real
    ensures internal.energy < 0.0 ==>
              s.energyLevel <= 0 && ((s.energyLevel - 1) * 20) as real < internal.energy <= (s.energyLevel * 20) as real
    ensures s.food == vision.foodNearby && s.plant == vision.plantNearby
    ensures s.wall == vision.wallNearby && s.creature == vision.creatureNearby
    ensures s.canReproduce == internal.canReproduce
  {
    State(Trunc(internal.energy / 20.0), vision.foodNearby, vision.plantNearby,
          vision.wallNearby, vision.creatureNearby, internal.canReproduce)
  }

  /** The value a defaultdict of zero vectors reads for `s`. */
  function Lookup(table: map<State, QVector>, s: State): QVector
  {
    if s in table then table[s] else Zeros
  }

  /** `q_table[s]` as an access to the defaultdict: the table afterwards, with a zero row inserted
      when `s` was missing. */
  function Materialize(table: map<State, QVector>, s: State): map<State, QVector>
  {
    if s in table then table else table[s := Zeros]
  }

  /** Inserting a missing row changes no read: the table gains the key `s` and every state still
      reads what it read before. */
  lemma MaterializeKeepsReads(table: map<State, QVector>, s: State)
    ensures Materialize(table, s).Keys == table.Keys + {s}
    ensures forall k :: Lookup(Materialize(table, s), k) == Lookup(table, k)
  {
  }

  /** `np.max` of a non-empty vector. */
  function MaxOf(v: seq<real>): (m: real)
    requires |v| > 0
    ensures forall i :: 0 <= i < |v| ==> v[i] <= m
    ensures exists i :: 0 <= i < |v| && v[i] == m
  {
    if |v| == 1 then v[0]
    else
      var m := MaxOf(v[..|v| - 1]);
      assert forall i :: 0 <= i < |v| - 1 ==> v[..|v| - 1][i] == v[i];
      if v[|v| - 1] > m then v[|v| - 1] else m
  }

  /** An unseen state's row is all zeros, so its best value is 0. */
  lemma MaxOfZeros()
    ensures MaxOf(Zeros) == 0.0
  {
    var i :| 0 <= i < 8 && Zeros[i] == MaxOf(Zeros);
  }

  /** `max(valid_q_values, key=lambda x: x[1])`: the position in `valid` of the first action whose
      Q-value is largest, as Python's left-to-right `max` keeps the first of equal keys. */
  function FirstArgMax(q: QVector, valid: seq<Action>): (k: nat)
    requires |valid| > 0
    ensures k < |valid|
    ensures forall j :: 0 <= j < |valid| ==> q[valid[j].Index()] <= q[valid[k].Index()]
    ensures forall j :: 0 <= j < k ==> q[valid[j].Index()] < q[valid[k].Index()]
  {
    if |valid| == 1 then 0
    else
      var k := FirstArgMax(q, valid[..|valid| - 1]);
      assert forall j :: 0 <= j < |valid| - 1 ==> valid[..|valid| - 1][j] == valid[j];
      if q[valid[|valid| - 1].Index()] > q[valid[k].Index()] then |valid| - 1 else k
  }

  /** The temporal-difference step `current + alpha * (target - current)`. */
  function TDUpdate(current: real, alpha: real, target: real): real
  {
    current + alpha * (target - current)
  }

  /** For a learning rate in [0, 1] the new value lies between the old value and the target; a rate of
      1 gives the target and a rate of 0 keeps the old value. */
  lemma TDUpdateBetween(current: real, alpha: real, target: real)
    requires 0.0 <= alpha <= 1.0
    ensures current <= target ==> current <= TDUpdate(current, alpha, target) <= target
    ensures target <= current ==> target <= TDUpdate(current, alpha, target) <= current
    ensures alpha == 1.0 ==> TDUpdate(current, alpha, target) == target
    ensures alpha == 0.0 ==> TDUpdate(current, alpha, target) == current
  {
    assert TDUpdate(current, alpha, target) == current + alpha * (target - current);
    if current <= target {
      TDUpdateUpwards(current, alpha, target);
    }
    if target <= current {
      TDUpdateDownwards(current, alpha, target);
    }
  }

  /** Below the target, the step moves up but not past it. */
  lemma TDUpdateUpwards(current: real, alpha: real, target: real)
    requires 0.0 <= alpha <= 1.0 && current <= target
    ensures current <= TDUpdate(current, alpha, target) <= target
  {
    var w := target - current;
    ScaleWithin(w, alpha);
    assert 0.0 <= alpha * w <= w;
    assert TDUpdate(current, alpha, target) == current + alpha * w;
  }

  /** Above the target, the step moves down but not past it. */
  lemma TDUpdateDownwards(current: real, alpha: real, target: real)
    requires 0.0 <= alpha <= 1.0 && target <= current
    ensures target <= TDUpdate(current, alpha, target) <= current
  {
    var w := current - target;
    ScaleWithin(w, alpha);
    assert 0.0 <= alpha * w <= w;
    assert TDUpdate(current, alpha, target) == current - alpha * w;
  }

  /** `np.max(q_table[s])`: the best value the defaultdict reads for `s`. */
  function BestValue(table: map<State, QVector>, s: State): real
  {
    MaxOf(Lookup(table, s))
  }

  /** The defaultdict reads a state it has not seen as a row of zeros, whose best value is 0. */
  lemma UnseenReadsZero(table: map<State, QVector>, s: State)
    requires s !in table
    ensures Lookup(table, s) == Zeros
    ensures forall i :: 0 <= i < 8 ==> Lookup(table, s)[i] == 0.0
    ensures MaxOf(Lookup(table, s)) == 0.0 && BestValue(table, s) == 0.0
  {
    ZerosEntries();
    MaxOfZeros();
  }

  /** The table after `update_q_value(s, a, reward, next)`: reading row `s` and then row `next`
      inserts them (as zero rows when they were missing); the best value of `next` is taken before
      entry `a` of row `s` is written. */
  function QUpdate(table: map<State, QVector>, s: State, a: Action, reward: real, next: State,
                   alpha: real, gamma: real): map<State, QVector>
  {
    Materialize(Materialize(table, s), next)[s := LearnedRow(table, s, a, reward, next, alpha, gamma)]
  }

  /** The row `s` reads after `update_q_value`: entry `a` of its old reading takes the TD step. */
  function LearnedRow(table: map<State, QVector>, s: State, a: Action, reward: real, next: State,
                      alpha: real, gamma: real): QVector
  {
    Lookup(table, s)[a.Index() := LearnedValue(table, s, a, reward, next, alpha, gamma)]
  }

  /** The value entry `a` of row `s` takes: the TD step from its old reading towards
      reward + gamma * (the best value of `next`). */
  function LearnedValue(table: map<State, QVector>, s: State, a: Action, reward: real, next: State,
                        alpha: real, gamma: real): real
  {
    TDUpdate(Lookup(table, s)[a.Index()], alpha, reward + gamma * BestValue(table, next))
  }

  /** What `update_q_value` changes: the table gains rows for `s` and `next` and nothing else; every
      row other than `s` reads as before, only entry `a` of row `s` differs from what it read before,
      and that entry moves towards reward + gamma * (the best value of `next` before the write). */
  lemma QUpdateEffect(table: map<State, QVector>, s: State, a: Action, reward: real, next: State,
                      alpha: real, gamma: real)
    ensures QUpdate(table, s, a, reward, next, alpha, gamma).Keys == table.Keys + {s, next}
    ensures forall k :: k in QUpdate(table, s, a, reward, next, alpha, gamma) && k != s ==>
              QUpdate(table, s, a, reward, next, alpha, gamma)[k] == Lookup(table, k)
    ensures forall i :: 0 <= i < 8 && i != a.Index() ==>
              QUpdate(table, s, a, reward, next, alpha, gamma)[s][i] == Lookup(table, s)[i]
    ensures QUpdate(table, s, a, reward, next, alpha, gamma)[s][a.Index()] ==
              TDUpdate(Lookup(table, s)[a.Index()], alpha, reward + gamma * BestValue(table, next))
  {
    QUpdateKeys(table, s, a, reward, next, alpha, gamma);
    QUpdateOtherRows(table, s, a, reward, next, alpha, gamma);
    assert QUpdate(table, s, a, reward, next, alpha, gamma)[s] == LearnedRow(table, s, a, reward, next, alpha, gamma);
    LearnedRowEntries(table, s, a, reward, next, alpha, gamma);
    LearnedRowEntry(table, s, a, reward, next, alpha, gamma);
    LearnedValueStep(table, s, a, reward, next, alpha, gamma);
  }

  /** The learned value is the TD step towards reward + gamma * (the best value of `next`). */
  lemma LearnedValueStep(table: map<State, QVector>, s: State, a: Action, reward: real,
                         next: State, alpha: real, gamma: real)
    ensures LearnedValue(table, s, a, reward, next, alpha, gamma)
              == TDUpdate(Lookup(table, s)[a.Index()], alpha, reward + gamma * BestValue(table, next))
  {
  }

  /** Only entry `a` of the learned row differs from the old reading of `s`. */
  lemma LearnedRowEntries(table: map<State, QVector>, s: State, a: Action, reward: real, next: State,
                          alpha: real, gamma: real)
    ensures forall i :: 0 <= i < 8 && i != a.Index() ==>
              LearnedRow(table, s, a, reward, next, alpha, gamma)[i] == Lookup(table, s)[i]
  {
    RowWrite(Lookup(table, s), a.Index(), LearnedValue(table, s, a, reward, next, alpha, gamma));
  }

  /** Entry `a` of the learned row holds the learned value. */
  lemma LearnedRowEntry(table: map<State, QVector>, s: State, a: Action, reward: real, next: State,
                        alpha: real, gamma: real)
    ensures LearnedRow(table, s, a, reward, next, alpha, gamma)[a.Index()]
              == LearnedValue(table, s, a, reward, next, alpha, gamma)
  {
    RowWrite(Lookup(table, s), a.Index(), LearnedValue(table, s, a, reward, next, alpha, gamma));
  }

  /** Writing entry `i` of a row changes that entry alone. */
  lemma RowWrite(row: QVector, i: nat, x: real)
    requires i < 8
    ensures |row[i := x]| == 8 && row[i := x][i] == x
    ensures forall j :: 0 <= j < 8 && j != i ==> row[i := x][j] == row[j]
  {
  }

  /** The keys after `update_q_value`. */
  lemma QUpdateKeys(table: map<State, QVector>, s: State, a: Action, reward: real, next: State,
                    alpha: real, gamma: real)
    ensures QUpdate(table, s, a, reward, next, alpha, gamma).Keys == table.Keys + {s, next}
  {
    MaterializeKeepsReads(table, s);
    MaterializeKeepsReads(Materialize(table, s), next);
  }

  /** The rows other than `s` after `update_q_value`. */
  lemma QUpdateOtherRows(table: map<State, QVector>, s: State, a: Action, reward: real, next: State,
                         alpha: real, gamma: real)
    ensures var r := QUpdate(table, s, a, reward, next, alpha, gamma);
      forall k :: k in r && k != s ==> r[k] == Lookup(table, k)
  {
    var t2 := Materialize(Materialize(table, s), next);
    MaterializeKeepsReads(table, s);
    MaterializeKeepsReads(Materialize(table, s), next);
    assert forall k :: k in t2 ==> t2[k] == Lookup(t2, k);
  }

  /** Learning from a state never seen before, towards a state never seen before, starts from 0 and
      aims at the bare reward. */
  lemma QUpdateFromUnseen(table: map<State, QVector>, s: State, a: Action, reward: real, next: State,
                          alpha: real, gamma: real)
    requires s !in table && next !in table
    ensures QUpdate(table, s, a, reward, next, alpha, gamma)[s][a.Index()] == alpha * reward
  {
    QUpdateEffect(table, s, a, reward, next, alpha, gamma);
    MaxOfZeros();
    ZerosEntries();
    assert BestValue(table, next) == 0.0 && Lookup(table, s)[a.Index()] == 0.0;
  }

  /** `q_values + np.random.normal(0, 0.1, 8)` with the noise vector supplied. */
  function VecAdd(v: QVector, w: QVector): (r: QVector)
    ensures forall i :: 0 <= i < 8 ==> r[i] == v[i] + w[i]
  {
    seq(8, i requires 0 <= i < 8 => v[i] + w[i])
  }

  /** The table `copy` builds: every row of the parent plus its noise vector. */
  function NoisyTable(table: map<State, QVector>, noise: State -> QVector): map<State, QVector>
  {
    map s | s in table :: VecAdd(table[s], noise(s))
  }

  /** With zero noise the copied table equals the parent's. */
  lemma NoisyTableWithoutNoise(table: map<State, QVector>, noise: State -> QVector)
    requires forall s :: noise(s) == Zeros
    ensures NoisyTable(table, noise) == table
  {
    forall s | s in table ensures NoisyTable(table, noise)[s] == table[s] {
      assert VecAdd(table[s], noise(s)) == table[s];
    }
  }

  class Brain {
    const learningRate: real
    const discountFactor: real
    const explorationRate: real
    /** The rows of the defaultdict that exist; every other state reads as `Zeros`. */
    var qTable: map<State, QVector>
    var lastState: Option<State>
    var lastAction: Option<Action>
    var lastReward: real

    constructor (learningRate: real, discountFactor: real, explorationRate: real)
      ensures this.learningRate == learningRate && this.discountFactor == discountFactor
      ensures this.explorationRate == explorationRate
      ensures qTable == map[] && lastState == None && lastAction == None && lastReward == 0.0
    {
      this.learningRate, this.discountFactor, this.explorationRate := learningRate, discountFactor, explorationRate;
      qTable := map[];
      lastState, lastAction, lastReward := None, None, 0.0;
    }

    /** `choose_action(state, valid_actions)` with the draw `u` of `random.random()` and the index
        `pick` that `random.choice` draws. Exploring leaves the table alone; the greedy branch
        reads (and so inserts) the row of `state` and takes the first best valid action. */
    method ChooseAction(state: State, validActions: Option<seq<Action>>, u: real, pick: nat) returns (action: Action)
      requires validActions.Some? ==> |validActions.value| > 0
      modifies this`qTable
      ensures var valid := if validActions.Some? then validActions.value else AllActions;
        && action in valid
        && (u < explorationRate ==> action == valid[pick % |valid|] && qTable == old(qTable))
        && (u >= explorationRate ==>
              qTable == Materialize(old(qTable), state) &&
              exists k :: 0 <= k < |valid| && action == valid[k] &&
                (forall j :: 0 <= j < |valid| ==> qTable[state][valid[j].Index()] <= qTable[state][action.Index()]) &&
                (forall j :: 0 <= j < k ==> qTable[state][valid[j].Index()] < qTable[state][action.Index()]))
    {
      var valid := if validActions.Some? then validActions.value else AllActions;
      if u < explorationRate {
        action := valid[pick % |valid|];
      } else {
        qTable := Materialize(qTable, state);
        var k := FirstArgMax(qTable[state], valid);
        action := valid[k];
      }
    }

    /** `update_q_value`. */
    method UpdateQValue(state: State, action: Action, reward: real, nextState: State)
      modifies this`qTable
      ensures qTable == QUpdate(old(qTable), state, action, reward, nextState, learningRate, discountFactor)
    {
      ghost var before := qTable;
      MaterializeKeepsReads(before, state);
      qTable := Materialize(qTable, state);
      var currentQ := qTable[state][action.Index()];
      MaterializeKeepsReads(qTable, nextState);
      qTable := Materialize(qTable, nextState);
      var maxNextQ := MaxOf(qTable[nextState]);
      assert Lookup(qTable, state) == Lookup(before, state);
      assert Lookup(qTable, nextState) == Lookup(before, nextState);
      assert maxNextQ == BestValue(before, nextState);
      var newQ := TDUpdate(currentQ, learningRate, reward + discountFactor * maxNextQ);
      assert qTable[state] == Lookup(before, state);
      qTable := qTable[state := qTable[state][action.Index() := newQ]];
    }

    /** `learn`: the update, then the record of the last experience. */
    method Learn(state: State, action: Action, reward: real, nextState: State)
      modifies this
      ensures qTable == QUpdate(old(qTable), state, action, reward, nextState, learningRate, discountFactor)
      ensures lastState == Some(state) && lastAction == Some(action) && lastReward == reward
    {
      UpdateQValue(state, action, reward, nextState);
      lastState := Some(state);
      lastAction := Some(action);
      lastReward := reward;
    }

    /** `copy`, with `noise` giving the vector `np.random.normal` draws for each state: a new brain
        with the same rates whose table has the parent's states, each row plus its noise. */
    method Copy(noise: State -> QVector) returns (b: Brain)
      ensures fresh(b)
      ensures b.learningRate == learningRate && b.discountFactor == discountFactor
      ensures b.explorationRate == explorationRate
      ensures b.qTable == NoisyTable(qTable, noise)
      ensures b.lastState == None && b.lastAction == None && b.lastReward == 0.0
    {
      b := new Brain(learningRate, discountFactor, explorationRate);
      var todo := qTable.Keys;
      while todo != {}
        invariant todo <= qTable.Keys
        invariant b.lastState == None && b.lastAction == None && b.lastReward == 0.0
        invariant b.qTable == map s | s in qTable.Keys - todo :: VecAdd(qTable[s], noise(s))
        decreases |todo|
      {
        var s :| s in todo;
        b.qTable := b.qTable[s := VecAdd(qTable[s], noise(s))];
        todo := todo - {s};
      }
    }
  }
}
