/**
 * The tabular Q-learning agent: a table from (observation, action) pairs to
 * values, where a missing pair reads as 0, a one-pair update towards
 * reward plus the best value of the next observation, and a greedy choice
 * whose ties go to the earliest action.  Values are exact reals.
 */
module QLearning {
  import opened Wrappers
  import opened SnakeGame

  /** An observation of the game, used as (part of) a table key by value. */
  type Features = seq<int>

  type Key = (Features, int)

  type Table = map<Key, real>

  /** The value of (s, a) in the table, 0 when the pair has no entry. */
  function Q(table: Table, s: Features, a: int): real
  {
    if (s, a) in table then table[(s, a)] else 0.0
  }

  /**
   * The running maximum of Q over the actions, in order; None before any
   * action has been seen, the role the negative-infinity start plays.
   */
  function MaxQ(table: Table, s: Features, actions: seq<int>): (m: Option<real>)
    ensures m.None? <==> actions == []
    ensures m.Some? ==> forall i :: 0 <= i < |actions| ==> Q(table, s, actions[i]) <= m.value
    ensures m.Some? ==> exists i :: 0 <= i < |actions| && Q(table, s, actions[i]) == m.value
    decreases |actions|
  {
    if actions == [] then None
    else
      var prefix, a := actions[..|actions| - 1], actions[|actions| - 1];
      var q := Q(table, s, a);
      match MaxQ(table, s, prefix)
      case None => Some(q)
      case Some(best) =>
        assert forall i :: 0 <= i < |prefix| ==> prefix[i] == actions[i];
        if q > best then Some(q) else Some(best)
  }

  /**
   * future_rewards: the best value of s over the four actions, or 0 when
   * no action has been seen.
   */
  function FutureValue(table: Table, s: Features): (v: real)
    ensures forall a :: 0 <= a < |Headings| ==> Q(table, s, a) <= v
    ensures exists a :: 0 <= a < |Headings| && Q(table, s, a) == v
  {
    var actions := AvailableActions();
    var m := MaxQ(table, s, actions);
    assert forall a :: 0 <= a < |Headings| ==> Q(table, s, a) <= m.value by {
      forall a | 0 <= a < |Headings|
        ensures Q(table, s, a) <= m.value
      {
        assert actions[a] == a;
      }
    }
    m.value
  }

  /**
   * The position of the first action whose value is the maximum, found
   * with the strict comparison of choose_action.
   */
  function FirstBest(table: Table, s: Features, actions: seq<int>): (k: Option<nat>)
    ensures k.None? <==> actions == []
    ensures k.Some? ==> k.value < |actions| &&
                        MaxQ(table, s, actions) == Some(Q(table, s, actions[k.value])) &&
                        forall j :: 0 <= j < k.value ==> Q(table, s, actions[j]) < Q(table, s, actions[k.value])
    decreases |actions|
  {
    if actions == [] then None
    else
      var prefix, a := actions[..|actions| - 1], actions[|actions| - 1];
      assert forall i :: 0 <= i < |prefix| ==> prefix[i] == actions[i];
      match MaxQ(table, s, prefix)
      case None => Some(|prefix|)
      case Some(best) =>
        if Q(table, s, a) > best then
          var k := Some(|prefix|);
          assert forall j :: 0 <= j < |prefix| ==> Q(table, s, actions[j]) <= best;
          k
        else FirstBest(table, s, prefix)
  }

  /** The greedy action of choose_action. */
  function Greedy(table: Table, s: Features): (a: int)
    ensures 0 <= a < |Headings|
    ensures forall b :: 0 <= b < |Headings| ==> Q(table, s, b) <= Q(table, s, a)
    ensures forall b :: 0 <= b < a ==> Q(table, s, b) < Q(table, s, a)
  {
    var k := FirstBest(table, s, AvailableActions()).value;
    AvailableActions()[k]
  }

  /**
   * update: the pair (s, a) moves towards reward plus the best value of s2,
   * both read from the table before the write.
   */
  function Updated(table: Table, alpha: real, s: Features, a: int, s2: Features, reward: real): Table
  {
    var before := Q(table, s, a);
    table[(s, a) := before + alpha * (reward + FutureValue(table, s2) - before)]
  }

  /** The position of a heading in the directions dictionary of the training loop. */
  function DirectionIndex(d: Dir): (i: int)
    ensures 0 <= i < |Headings| && Headings[i] == d
  {
    match d
    case Right => 0
    case Left => 1
    case Up => 2
    case Down => 3
  }

  /**
   * The observation entry that says whether the food lies in the direction
   * with index i: right 5, left 4, up 7, down 6.
   */
  function FoodBitOf(newState: Features, i: int): int
    requires |newState| >= 8 && 0 <= i < |Headings|
  {
    if i == 1 then newState[4]
    else if i == 0 then newState[5]
    else if i == 3 then newState[6]
    else newState[7]
  }

  /**
   * The rewards one training step applies, in order: +1 if the score rose,
   * then -0.1 when there is no food in the current heading and +0.05 when
   * there is, then -10 if the game is over.
   */
  function StepRewards(lastScore: int, newScore: int, newState: Features, heading: Dir, over: bool): seq<real>
    requires |newState| >= 8
  {
    (if newScore > lastScore then [1.0] else []) +
    [if FoodBitOf(newState, DirectionIndex(heading)) == 0 then -0.1 else 0.05] +
    (if over then [-10.0] else [])
  }

  /** The table after the updates with the given rewards, one after another. */
  function ApplyRewards(table: Table, alpha: real, s: Features, a: int, s2: Features, rewards: seq<real>): Table
    decreases |rewards|
  {
    if rewards == [] then table
    else
      var last := |rewards| - 1;
      Updated(ApplyRewards(table, alpha, s, a, s2, rewards[..last]), alpha, s, a, s2, rewards[last])
  }

  class SnakeAI {
    /** The learning rate, fixed for the life of the agent. */
    const alpha: real := 0.5
    const epsilon: real
    var table: Table

    constructor ()
      ensures alpha == 0.5 && epsilon == 0.0 && table == map[]
    {
      epsilon := 0.0;
      table := map[];
    }

    /** get_q_value: search the keys for (state, action). */
    method GetQValue(state: Features, action: int) returns (v: real)
      ensures (state, action) in table ==> v == table[(state, action)]
      ensures (state, action) !in table ==> v == 0.0
    {
      var keys := table.Keys;
      while keys != {}
        invariant keys <= table.Keys
        invariant (state, action) in table ==> (state, action) in keys
        decreases keys
      {
        var couple :| couple in keys;
        if couple == (state, action) {
          return table[couple];
        }
        keys := keys - {couple};
      }
      return 0.0;
    }

    /** update_q_value: write one entry. */
    method UpdateQValue(state: Features, action: int, oldQ: real, reward: real, future: real)
      modifies this`table
      ensures table == old(table)[(state, action) := oldQ + alpha * (reward + future - oldQ)]
    {
      table := table[(state, action) := oldQ + alpha * (reward + future - oldQ)];
    }

    /** future_rewards: the running maximum over the actions. */
    method FutureRewards(state: Features) returns (f: real)
      ensures f == FutureValue(table, state)
      ensures forall a :: 0 <= a < |Headings| ==> Q(table, state, a) <= f
    {
      var actions := AvailableActions();
      var maxQ: Option<real> := None;
      for i := 0 to |actions|
        invariant maxQ == MaxQ(table, state, actions[..i])
      {
        assert actions[..i + 1][..i] == actions[..i];
        var q := GetQValue(state, actions[i]);
        maxQ := if maxQ.None? || q > maxQ.value then Some(q) else maxQ;
      }
      assert actions[..|actions|] == actions;
      f := if maxQ.None? then 0.0 else maxQ.value;
    }

    /** update: read the old value and the future value, then write. */
    method Update(state: Features, action: int, newState: Features, reward: real)
      modifies this`table
      ensures table == Updated(old(table), alpha, state, action, newState, reward)
    {
      var oldQ := GetQValue(state, action);
      var future := FutureRewards(newState);
      UpdateQValue(state, action, oldQ, reward, future);
    }

    /**
     * choose_action: with exploration on and the draw below epsilon, the
     * action the random pick names; otherwise the first action of greatest
     * value.
     */
    method ChooseAction(state: Features, explore: bool, draw: real, pick: int) returns (a: int)
      requires 0.0 <= draw < 1.0 && 0 <= pick < |AvailableActions()|
      ensures explore && draw < epsilon ==> a == AvailableActions()[pick]
      ensures !(explore && draw < epsilon) ==> a == Greedy(table, state)
      ensures epsilon <= 0.0 ==> a == Greedy(table, state)
    {
      var actions := AvailableActions();
      if explore && draw < epsilon {
        return actions[pick];
      }
      var maxQ: Option<real> := None;
      var best := 0;
      for i := 0 to |actions|
        invariant maxQ == MaxQ(table, state, actions[..i])
        invariant i > 0 ==> FirstBest(table, state, actions[..i]).Some? &&
                            best == actions[FirstBest(table, state, actions[..i]).value]
      {
        assert actions[..i + 1][..i] == actions[..i];
        var q := GetQValue(state, actions[i]);
        if maxQ.None? || q > maxQ.value {
          maxQ := Some(q);
          best := actions[i];
        }
      }
      assert actions[..|actions|] == actions;
      a := best;
    }

    /**
     * The reward block of one training step: the updates of StepRewards,
     * each through update, in order.
     */
    method Learn(state: Features, action: int, newState: Features,
                 lastScore: int, newScore: int, heading: Dir, over: bool)
      requires |newState| >= 8
      modifies this`table
      ensures table == ApplyRewards(old(table), alpha, state, action, newState,
                                    StepRewards(lastScore, newScore, newState, heading, over))
    {
      ghost var t0 := table;
      ghost var scored: seq<real> := if newScore > lastScore then [1.0] else [];
      ghost var fed: seq<real> := [if FoodBitOf(newState, DirectionIndex(heading)) == 0 then -0.1 else 0.05];
      ghost var died: seq<real> := if over then [-10.0] else [];
      assert StepRewards(lastScore, newScore, newState, heading, over) == scored + fed + died;
      ghost var applied: seq<real> := [];
      if newScore > lastScore {
        Update(state, action, newState, 1.0);
        ApplyOneMore(t0, alpha, state, action, newState, applied, 1.0);
        applied := applied + [1.0];
      }
      assert applied == scored;
      var directions := DirectionIndex(heading);
      if FoodBitOf(newState, directions) == 0 {
        Update(state, action, newState, -0.1);
        ApplyOneMore(t0, alpha, state, action, newState, applied, -0.1);
        applied := applied + [-0.1];
      } else {
        Update(state, action, newState, 0.05);
        ApplyOneMore(t0, alpha, state, action, newState, applied, 0.05);
        applied := applied + [0.05];
      }
      assert applied == scored + fed;
      if over {
        Update(state, action, newState, -10.0);
        ApplyOneMore(t0, alpha, state, action, newState, applied, -10.0);
        applied := applied + [-10.0];
      }
      assert applied == scored + fed + died;
    }
  }

  /** One more reward is one more update on top of the ones before. */
  lemma ApplyOneMore(table: Table, alpha: real, s: Features, a: int, s2: Features, rewards: seq<real>, r: real)
    ensures ApplyRewards(table, alpha, s, a, s2, rewards + [r]) ==
            Updated(ApplyRewards(table, alpha, s, a, s2, rewards), alpha, s, a, s2, r)
  {
    assert (rewards + [r])[..|rewards|] == rewards;
  }
}
