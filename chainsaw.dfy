/**
 * The Chainsaw scenario: melee combat.  Per step the scenario records the
 * distance travelled and counts the steps on which health (variable 0) fell;
 * kills (variable 1) and movement are rewarded by stacked wrappers.
 */
module ChainsawEnv {
  import opened Buffers
  import opened RewardWrappers
  import StatKeys

  class Chainsaw {
    const rewardKill: real
    const rewardScalerTraversal: real
    var distanceBuffer: seq<real>
    var hitsTaken: nat
    /** The (previous, latest) vector pairs seen since the episode began. */
    ghost var transitions: seq<Transition>

    /** `hits_taken` counts the recorded steps on which health strictly fell, one distance per step. */
    ghost predicate Valid()
      reads this
    {
      hitsTaken == Drops(transitions, 0) && |distanceBuffer| == |transitions|
    }

    constructor (rewardKill: real, rewardScalerTraversal: real)
      ensures Valid()
      ensures this.rewardKill == rewardKill && this.rewardScalerTraversal == rewardScalerTraversal
      ensures distanceBuffer == [] && hitsTaken == 0 && transitions == []
    {
      this.rewardKill := rewardKill;
      this.rewardScalerTraversal := rewardScalerTraversal;
      distanceBuffer := [];
      hitsTaken := 0;
      transitions := [];
    }

    /**
     * `store_statistics`: `distanceTraversed` stands for the helper
     * `distance_traversed(buffer, 2, 3)`, whose definition is not part of this
     * model; the hit counter grows iff variable 0 strictly fell.
     */
    method StoreStatistics(gameVarBuf: VarBuffer, distanceTraversed: (VarBuffer, nat, nat) -> real)
      requires Valid()
      requires |gameVarBuf| >= 2 && |Latest(gameVarBuf)| >= 1 && |Previous(gameVarBuf)| >= 1
      modifies this
      ensures Valid()
      ensures distanceBuffer == old(distanceBuffer) + [distanceTraversed(gameVarBuf, 2, 3)]
      ensures transitions == old(transitions) + [(Previous(gameVarBuf), Latest(gameVarBuf))]
      ensures Latest(gameVarBuf)[0] < Previous(gameVarBuf)[0] ==> hitsTaken == old(hitsTaken) + 1
      ensures !(Latest(gameVarBuf)[0] < Previous(gameVarBuf)[0]) ==> hitsTaken == old(hitsTaken)
    {
      var distance := distanceTraversed(gameVarBuf, 2, 3);
      distanceBuffer := distanceBuffer + [distance];

      var currentVars := Latest(gameVarBuf);
      var previousVars := Previous(gameVarBuf);
      DropsAppend(transitions, (previousVars, currentVars), 0);
      transitions := transitions + [(previousVars, currentVars)];
      if currentVars[0] < previousVars[0] {
        hitsTaken := hitsTaken + 1;
      }
    }

    /** `reward_wrappers`: the kill reward on variable 1 (increase mode, a reward), then the movement reward. */
    function RewardWrappers(): seq<Wrapper>
    {
      [GameVariableReward(rewardKill, 1, false, false), MovementReward]
    }

    /**
     * `get_statistics`: health and kills from the latest vector and the hit
     * counter; `movement` stands for the rounded mean of the distance buffer.
     */
    function GetStatistics(mode: string, gameVariableBuffer: VarBuffer, movement: real): (m: map<string, real>)
      reads this
      requires |gameVariableBuffer| >= 1 && |Latest(gameVariableBuffer)| >= 2
      ensures m.Keys == {StatKeys.Key(mode, "/health"), StatKeys.Key(mode, "/kills"),
                         StatKeys.Key(mode, "/movement"), StatKeys.Key(mode, "/hits_taken")}
      ensures m[StatKeys.Key(mode, "/health")] == Latest(gameVariableBuffer)[0]
      ensures m[StatKeys.Key(mode, "/kills")] == Latest(gameVariableBuffer)[1]
      ensures m[StatKeys.Key(mode, "/movement")] == movement
      ensures m[StatKeys.Key(mode, "/hits_taken")] == hitsTaken as real
    {
      StatKeys.KeyInjective(mode);
      var variables := Latest(gameVariableBuffer);
      map[StatKeys.Key(mode, "/health") := variables[0],
          StatKeys.Key(mode, "/kills") := variables[1],
          StatKeys.Key(mode, "/movement") := movement,
          StatKeys.Key(mode, "/hits_taken") := hitsTaken as real]
    }

    /** `clear_episode_statistics`: the counter and the distance buffer start again from empty. */
    method ClearEpisodeStatistics()
      modifies this
      ensures Valid()
      ensures hitsTaken == 0 && distanceBuffer == [] && transitions == []
    {
      hitsTaken := 0;
      distanceBuffer := [];
      transitions := [];
    }
  }

  /**
   * The shaped reward of the Chainsaw wrapper stack, over an environment whose
   * scaler is the scenario's: `rew_kill` when kills strictly rose, plus the
   * last distance times the scaler once two distances are recorded.
   */
  lemma ChainsawShapedReward(c: Chainsaw, reward: real, env: Env)
    requires env.rewardScalerTraversal == c.rewardScalerTraversal
    requires IndexInRange(env.gameVariableBuffer, 1)
    ensures AllApplicable(c.RewardWrappers(), env)
    ensures ApplyAll(c.RewardWrappers(), reward, env)
         == reward
            + (if |env.gameVariableBuffer| >= 2
                  && Latest(env.gameVariableBuffer)[1] > Previous(env.gameVariableBuffer)[1]
               then c.rewardKill else 0.0)
            + (if |env.distanceBuffer| >= 2
               then env.distanceBuffer[|env.distanceBuffer| - 1] * c.rewardScalerTraversal else 0.0)
  {
    var ws := c.RewardWrappers();
    ApplyAllIsSum(ws, reward, env);
    assert ws[1..] == [MovementReward];
    assert Offsets([MovementReward], env) == Offset(MovementReward, env) by {
      assert [MovementReward][1..] == [];
    }
    assert Offsets(ws, env) == Offset(ws[0], env) + Offsets([MovementReward], env);
  }
}
