/**
 * Properties of the Q-learning model: what the future value and the greedy
 * choice are, what one update writes, and the reward schedule of a
 * training step, tied to the observation of the game.
 */
module AgentProperties {
  import opened Wrappers
  import opened SnakeGame
  import opened QLearning

  /** A pair missing from the table reads as 0, a present one as its entry. */
  lemma QReadsEntryOrZero(table: Table, s: Features, a: int)
    ensures (s, a) in table ==> Q(table, s, a) == table[(s, a)]
    ensures (s, a) !in table ==> Q(table, s, a) == 0.0
  {
  }

  /** The future value of an observation with no entry for any action is 0. */
  lemma FutureOfUnseenState(table: Table, s: Features)
    requires forall a :: 0 <= a < |Headings| ==> (s, a) !in table
    ensures FutureValue(table, s) == 0.0
  {
  }

  /** The future value is the value of the greedy action. */
  lemma FutureIsGreedyValue(table: Table, s: Features)
    ensures FutureValue(table, s) == Q(table, s, Greedy(table, s))
  {
    var g := Greedy(table, s);
    var v := FutureValue(table, s);
    var b :| 0 <= b < |Headings| && Q(table, s, b) == v;
    assert Q(table, s, b) <= Q(table, s, g);
    assert Q(table, s, g) <= v;
  }

  /**
   * Ties go to the earliest action: any action of greatest value is at or
   * after the greedy one, which has the same value.
   */
  lemma GreedyIsFirstMaximum(table: Table, s: Features, b: int)
    requires 0 <= b < |Headings|
    requires forall c :: 0 <= c < |Headings| ==> Q(table, s, c) <= Q(table, s, b)
    ensures Greedy(table, s) <= b && Q(table, s, Greedy(table, s)) == Q(table, s, b)
  {
  }

  /** On an empty table every action ties at 0, so the greedy choice is action 0. */
  lemma GreedyOnEmptyTable(s: Features)
    ensures Greedy(map[], s) == 0
  {
    GreedyIsFirstMaximum(map[], s, 0);
  }

  /**
   * An update writes the single key (s, a), keeps every other entry, and
   * removes none: the key set grows by at most one.
   */
  lemma UpdatedWritesOneKey(table: Table, alpha: real, s: Features, a: int, s2: Features, reward: real)
    ensures var t := Updated(table, alpha, s, a, s2, reward);
            t.Keys == table.Keys + {(s, a)} &&
            |t.Keys| <= |table.Keys| + 1 &&
            (forall k :: k in table && k != (s, a) ==> t[k] == table[k]) &&
            t[(s, a)] == Q(table, s, a) + alpha * (reward + FutureValue(table, s2) - Q(table, s, a))
  {
    var t := Updated(table, alpha, s, a, s2, reward);
    if (s, a) in table {
      assert t.Keys == table.Keys;
    } else {
      assert |table.Keys + {(s, a)}| == |table.Keys| + 1;
    }
  }

  /** From an empty table, one update with reward r leaves Q(s, a) at half of r. */
  lemma UpdateFromEmpty(s: Features, a: int, s2: Features, reward: real)
    ensures Updated(map[], 0.5, s, a, s2, reward) == map[(s, a) := 0.5 * reward]
  {
    FutureOfUnseenState(map[], s2);
  }

  /**
   * At the agent's rate 0.5 the new value is the midpoint of the old value
   * and the target reward + future value, so it lies between them.
   */
  lemma UpdatedMovesTowardTarget(table: Table, s: Features, a: int, s2: Features, reward: real)
    ensures var before, target := Q(table, s, a), reward + FutureValue(table, s2);
            var after := Updated(table, 0.5, s, a, s2, reward)[(s, a)];
            after == (before + target) / 2.0 &&
            (before <= target ==> before <= after <= target) &&
            (target <= before ==> target <= after <= before)
  {
  }

  /**
   * A run of updates on (s, a) writes that key only: the key set gains
   * (s, a) when there is at least one reward, and every other entry stays.
   */
  lemma {:induction false} ApplyRewardsWritesOneKey(table: Table, alpha: real, s: Features, a: int, s2: Features,
                                                   rewards: seq<real>)
    ensures var t := ApplyRewards(table, alpha, s, a, s2, rewards);
            t.Keys == table.Keys + (if rewards == [] then {} else {(s, a)}) &&
            forall k :: k in table && k != (s, a) ==> t[k] == table[k]
    decreases |rewards|
  {
    if rewards != [] {
      var last := |rewards| - 1;
      ApplyRewardsWritesOneKey(table, alpha, s, a, s2, rewards[..last]);
      UpdatedWritesOneKey(ApplyRewards(table, alpha, s, a, s2, rewards[..last]), alpha, s, a, s2, rewards[last]);
    }
  }

  /**
   * A training step applies one to three rewards: +1 first exactly when
   * the score rose, -10 last exactly when the game is over, and between
   * them one heading reward, +0.05 when the food lies in the current
   * heading and -0.1 when it does not.
   */
  lemma StepRewardsShape(lastScore: int, newScore: int, newState: Features, heading: Dir, over: bool)
    requires |newState| >= 8
    ensures var r := StepRewards(lastScore, newScore, newState, heading, over);
            var i := if newScore > lastScore then 1 else 0;
            |r| == i + 1 + (if over then 1 else 0) &&
            (r[0] == 1.0 <==> newScore > lastScore) &&
            (r[|r| - 1] == -10.0 <==> over) &&
            (r[i] == 0.05 <==> FoodBitOf(newState, DirectionIndex(heading)) != 0) &&
            (r[i] == -0.1 <==> FoodBitOf(newState, DirectionIndex(heading)) == 0)
  {
  }

  /**
   * On an observation of the game, the food entry the reward looks at is
   * 1 exactly when the food lies strictly ahead of the snake along its
   * heading.
   */
  lemma FoodBitMatchesHeading(w: World)
    requires |w.board| == Rows * Cols
    ensures FoodBitOf(Observation(w), DirectionIndex(w.dir)) == 1 <==>
            match w.dir
            case Right => w.c < w.foodC
            case Left => w.c > w.foodC
            case Up => w.r > w.foodR
            case Down => w.r < w.foodR
  {
  }

  /** The constructor's agent: an empty table, the rate 0.5, and no exploration. */
  lemma FreshAgentIsGreedy(s: Features)
    ensures FutureValue(map[], s) == 0.0 && Greedy(map[], s) == 0
  {
    FutureOfUnseenState(map[], s);
    GreedyOnEmptyTable(s);
  }
}
