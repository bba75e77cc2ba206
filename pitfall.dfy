/**
 * The Pitfall scenario: a long corridor with random pits.  Per step the
 * scenario records how far the agent got; its success is the total distance.
 */
module PitfallEnv {
  import opened Buffers
  import opened RewardWrappers
  import StatKeys

  /** `performance_upper_bound`: the success at which the scenario counts as solved. */
  function PerformanceUpperBound(): (b: real)
    ensures b > 0.0
  {
    150000.0
  }

  /** `performance_lower_bound`: always below the upper bound, so normalising by their difference is defined. */
  function PerformanceLowerBound(): (b: real)
    ensures 0.0 < b < PerformanceUpperBound()
  {
    20000.0
  }

  function Max(a: int, b: int): int
  {
    if a >= b then a else b
  }

  class Pitfall {
    const rewardGoal: real
    const rewardScaler: real
    const penaltyDeath: real
    var frames: nat
    var totalDist: real
    var currentDist: real
    var distanceBuffer: seq<real>

    /**
     * The episode invariant: the total is the sum of the recorded distances, and
     * no more distances are recorded than frames counted.
     */
    ghost predicate Valid()
      reads this
    {
      totalDist == Sum(distanceBuffer) && |distanceBuffer| <= frames
    }

    constructor (rewardGoal: real, rewardScaler: real, penaltyDeath: real)
      ensures Valid()
      ensures this.rewardGoal == rewardGoal && this.rewardScaler == rewardScaler && this.penaltyDeath == penaltyDeath
      ensures frames == 0 && totalDist == 0.0 && currentDist == 0.0 && distanceBuffer == []
    {
      this.rewardGoal := rewardGoal;
      this.rewardScaler := rewardScaler;
      this.penaltyDeath := penaltyDeath;
      frames := 0;
      totalDist := 0.0;
      currentDist := 0.0;
      distanceBuffer := [];
    }

    /** `store_statistics`: one more frame, whose distance is component 0 of the latest vector. */
    method StoreStatistics(gameVarBuf: VarBuffer)
      requires Valid()
      requires |gameVarBuf| >= 1 && |Latest(gameVarBuf)| >= 1
      modifies this
      ensures Valid()
      ensures frames == old(frames) + 1
      ensures currentDist == Latest(gameVarBuf)[0]
      ensures distanceBuffer == old(distanceBuffer) + [Latest(gameVarBuf)[0]]
      ensures totalDist == old(totalDist) + Latest(gameVarBuf)[0]
    {
      frames := frames + 1;
      currentDist := Latest(gameVarBuf)[0];
      totalDist := totalDist + currentDist;
      SumAppend(distanceBuffer, currentDist);
      distanceBuffer := distanceBuffer + [currentDist];
    }

    /** `get_success`: the distance covered during the episode. */
    function GetSuccess(): (s: real)
      reads this
      requires Valid()
      ensures s == Sum(distanceBuffer)
    {
      totalDist
    }

    /** `reward_wrappers_dense`: forward progress on variable 0 (kept non-negative), then the death penalty. */
    function RewardWrappersDense(): seq<Wrapper>
    {
      [ProportionalVariableReward(rewardScaler, 0, true), BooleanVariableReward(penaltyDeath, Dead)]
    }

    /** `reward_wrappers_sparse`: only the goal reward, at the performance upper bound. */
    function RewardWrappersSparse(): seq<Wrapper>
    {
      [GoalReward(rewardGoal, PerformanceUpperBound())]
    }

    /**
     * `extra_statistics`: the distance and the distance per frame under the
     * given mode label; the divisor is at least one.
     */
    function ExtraStatistics(mode: string): (m: map<string, real>)
      reads this
      requires Valid()
      ensures m.Keys == {StatKeys.Key(mode, "/distance"), StatKeys.Key(mode, "/movement")}
      ensures m[StatKeys.Key(mode, "/distance")] == Sum(distanceBuffer)
      ensures frames == 0 ==> m[StatKeys.Key(mode, "/movement")] == Sum(distanceBuffer)
      ensures frames > 0 ==> m[StatKeys.Key(mode, "/movement")] * (frames as real) == Sum(distanceBuffer)
    {
      StatKeys.KeyInjective(mode);
      var divisor := Max(frames, 1) as real;
      map[StatKeys.Key(mode, "/distance") := GetSuccess(), StatKeys.Key(mode, "/movement") := GetSuccess() / divisor]
    }

    /** `clear_episode_statistics`: empties the distance buffer and zeroes the total; the frame count is not touched here. */
    method ClearEpisodeStatistics()
      requires Valid()
      modifies this
      ensures Valid()
      ensures distanceBuffer == [] && totalDist == 0.0
      ensures frames == old(frames) && currentDist == old(currentDist)
    {
      distanceBuffer := [];
      totalDist := 0.0;
    }
  }

  /** The two reward modes, as configured for one Pitfall instance. */
  lemma RewardModes(p: Pitfall)
    ensures |p.RewardWrappersSparse()| == 1
    ensures p.RewardWrappersSparse()[0] == GoalReward(p.rewardGoal, PerformanceUpperBound())
    ensures PerformanceUpperBound() > PerformanceLowerBound()
    ensures |p.RewardWrappersDense()| == 2
    ensures p.RewardWrappersDense()[0] == ProportionalVariableReward(p.rewardScaler, 0, true)
    ensures p.RewardWrappersDense()[1] == BooleanVariableReward(p.penaltyDeath, Dead)
    ensures forall w :: w in p.RewardWrappersDense() ==> w !in p.RewardWrappersSparse()
  {
  }
}
