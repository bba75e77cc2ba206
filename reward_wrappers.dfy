/**
 * Reward-shaping wrappers.  Each wrapper maps the reward produced by the
 * environment it wraps to a shaped reward, reading only the environment's
 * game-variable buffer, its distance buffer and its own configuration.
 */
module RewardWrappers {
  import opened Buffers

  /**
   * The simulator game variables a wrapper configuration can name: `DEAD`,
   * which Pitfall's death penalty tracks, and the scenario-defined `USER1` and
   * `USER2`, the kind of variable `UserVariableRewardWrapper` reads (no
   * configuration shown picks one).
   */
  datatype GameVar = Dead | User1 | User2

  /**
   * A `WrapperHolder`: which wrapper class to stack and the arguments it gets.
   * The last three classes live outside this model; they appear only as
   * configuration entries.
   */
  datatype Wrapper =
    | ConstantReward(reward: real, penalty: bool)
    | MovementReward
    | GameVariableReward(reward: real, varIndex: nat, decrease: bool, penalty: bool)
    | UserVariableReward(reward: real, gameVar: GameVar, decrease: bool, penalty: bool)
    | ProportionalVariableReward(scaler: real, varIndex: nat, keepLb: bool)
    | BooleanVariableReward(reward: real, gameVar: GameVar)
    | GoalReward(reward: real, goal: real)

  /** The signed amount a unit adds once it applies: `-rew` for a penalty, `+rew` otherwise. */
  function Delta(rew: real, penalty: bool): (d: real)
    ensures d == rew || d == -rew
    ensures rew != 0.0 ==> (penalty <==> d == -rew)
  {
    if penalty then -rew else rew
  }

  /** The strict comparison shared by the game-variable and user-variable units. */
  predicate Fires(cur: real, prev: real, decrease: bool)
  {
    (!decrease && cur > prev) || (decrease && cur < prev)
  }

  /** `ConstantRewardWrapper.reward`: the reward shifted by `rew`, down for a penalty and up otherwise. */
  function Constant(reward: real, rew: real, penalty: bool): (r: real)
    ensures penalty ==> r == reward - rew
    ensures !penalty ==> r == reward + rew
  {
    reward + Delta(rew, penalty)
  }

  /** A constant penalty undoes the constant reward of the same magnitude, in either order. */
  lemma ConstantPenaltyCancelsReward(reward: real, rew: real)
    ensures Constant(Constant(reward, rew, false), rew, true) == reward
    ensures Constant(Constant(reward, rew, true), rew, false) == reward
  {
  }

  /** The precondition of `GameVariable`: when there is history, component `varIndex` exists in the last two vectors. */
  predicate IndexInRange(buffer: VarBuffer, varIndex: nat)
  {
    |buffer| >= 2 ==> varIndex < |Latest(buffer)| && varIndex < |Previous(buffer)|
  }

  /**
   * `GameVariableRewardWrapper.reward`: with fewer than two vectors the reward
   * passes through; otherwise it moves by `Delta(rew, penalty)` exactly when
   * component `varIndex` strictly rose (increase mode) or strictly fell
   * (decrease mode) between the last two vectors.
   */
  function GameVariable(reward: real, buffer: VarBuffer, rew: real, varIndex: nat, decrease: bool, penalty: bool): (r: real)
    requires IndexInRange(buffer, varIndex)
    ensures |buffer| < 2 ==> r == reward
    ensures |buffer| >= 2 && Latest(buffer)[varIndex] == Previous(buffer)[varIndex] ==> r == reward
    ensures r == reward || r == reward + Delta(rew, penalty)
  {
    if |buffer| < 2 then reward
    else
      var varCur := Latest(buffer)[varIndex];
      var varPrev := Previous(buffer)[varIndex];
      if Fires(varCur, varPrev, decrease) then reward + Delta(rew, penalty) else reward
  }

  /** With history and a non-zero magnitude, the reward changes iff the strict test on component `varIndex` passes. */
  lemma GameVariableChangesIff(reward: real, buffer: VarBuffer, rew: real, varIndex: nat, decrease: bool, penalty: bool)
    requires IndexInRange(buffer, varIndex) && |buffer| >= 2 && rew != 0.0
    ensures GameVariable(reward, buffer, rew, varIndex, decrease, penalty) != reward
        <==> (if decrease then Latest(buffer)[varIndex] < Previous(buffer)[varIndex]
              else Latest(buffer)[varIndex] > Previous(buffer)[varIndex])
    ensures GameVariable(reward, buffer, rew, varIndex, decrease, penalty) != reward
        ==> GameVariable(reward, buffer, rew, varIndex, decrease, penalty) == (if penalty then reward - rew else reward + rew)
  {
  }

  /** For one buffer, the increase-mode and the decrease-mode unit never both apply. */
  lemma IncreaseAndDecreaseExclusive(reward: real, buffer: VarBuffer, rew: real, varIndex: nat, penalty: bool)
    requires IndexInRange(buffer, varIndex)
    ensures GameVariable(reward, buffer, rew, varIndex, false, penalty) == reward
         || GameVariable(reward, buffer, rew, varIndex, true, penalty) == reward
  {
  }

  /**
   * Only component `varIndex` of the last two vectors matters: two buffers with
   * history that agree there give the same shaped reward, whatever their other
   * components, their older entries and their lengths.
   */
  lemma GameVariableLocal(reward: real, b1: VarBuffer, b2: VarBuffer, rew: real, varIndex: nat, decrease: bool, penalty: bool)
    requires |b1| >= 2 && |b2| >= 2
    requires IndexInRange(b1, varIndex) && IndexInRange(b2, varIndex)
    requires Latest(b1)[varIndex] == Latest(b2)[varIndex]
    requires Previous(b1)[varIndex] == Previous(b2)[varIndex]
    ensures GameVariable(reward, b1, rew, varIndex, decrease, penalty)
         == GameVariable(reward, b2, rew, varIndex, decrease, penalty)
  {
  }

  /** Older entries never matter: prefixing a buffer that already has history leaves the reward unchanged. */
  lemma GameVariableIgnoresOlderEntries(reward: real, older: VarBuffer, buffer: VarBuffer, rew: real, varIndex: nat, decrease: bool, penalty: bool)
    requires |buffer| >= 2 && IndexInRange(buffer, varIndex)
    ensures IndexInRange(older + buffer, varIndex)
    ensures GameVariable(reward, older + buffer, rew, varIndex, decrease, penalty)
         == GameVariable(reward, buffer, rew, varIndex, decrease, penalty)
  {
    assert Latest(older + buffer) == Latest(buffer);
    assert Previous(older + buffer) == Previous(buffer);
  }

  /**
   * The rule of `UserVariableRewardWrapper.reward`, given the simulator's
   * current value of the user variable and the stored value it last saw.
   */
  function UserVariable(reward: real, varCur: real, varPrev: real, rew: real, decrease: bool, penalty: bool): (r: real)
    ensures varCur == varPrev ==> r == reward
    ensures r == reward || r == reward + Delta(rew, penalty)
  {
    if Fires(varCur, varPrev, decrease) then reward + Delta(rew, penalty) else reward
  }

  /** The user-variable rule is the game-variable rule applied to the two-entry buffer `[[prev], [cur]]`. */
  lemma UserVariableAgreesWithGameVariable(reward: real, varCur: real, varPrev: real, rew: real, decrease: bool, penalty: bool)
    ensures UserVariable(reward, varCur, varPrev, rew, decrease, penalty)
         == GameVariable(reward, [[varPrev], [varCur]], rew, 0, decrease, penalty)
  {
  }

  /**
   * `UserVariableRewardWrapper`: the unit that rewards a change of one user
   * variable.  The source keeps the last-seen value in the environment, which
   * `get_and_update_user_var` reads and updates; `lastSeen` stands for the
   * value the environment stores for `gameVar`, and the constructor's
   * `lastSeen` for its value when the unit is built.  Each call compares the
   * simulator's current value against it and then stores the current value.
   */
  class UserVariableRewardWrapper {
    const rew: real
    const gameVar: GameVar
    const decrease: bool
    const penalty: bool
    var lastSeen: real

    constructor (rew: real, gameVar: GameVar, decrease: bool, penalty: bool, lastSeen: real)
      ensures this.rew == rew && this.gameVar == gameVar && this.decrease == decrease && this.penalty == penalty
      ensures this.lastSeen == lastSeen
    {
      this.rew := rew;
      this.gameVar := gameVar;
      this.decrease := decrease;
      this.penalty := penalty;
      this.lastSeen := lastSeen;
    }

    /** `reward`: `current` is `game.get_game_variable(game_var)` for this step. */
    method Reward(reward: real, current: real) returns (r: real)
      modifies this
      ensures r == UserVariable(reward, current, old(lastSeen), rew, decrease, penalty)
      ensures lastSeen == current
    {
      var varCur := current;
      var varPrev := lastSeen;
      lastSeen := varCur;
      r := reward;
      if Fires(varCur, varPrev, decrease) {
        r := r + Delta(rew, penalty);
      }
    }
  }

  /**
   * `MovementRewardWrapper.reward`: with fewer than two recorded distances the
   * reward passes through; otherwise the last distance times the scaler is added.
   */
  function Movement(reward: real, distanceBuffer: seq<real>, scaler: real): (r: real)
    ensures |distanceBuffer| < 2 ==> r == reward
    ensures |distanceBuffer| >= 2 ==> r - reward == distanceBuffer[|distanceBuffer| - 1] * scaler
  {
    if |distanceBuffer| < 2 then reward
    else
      var distance := distanceBuffer[|distanceBuffer| - 1];
      reward + distance * scaler
  }

  /** A non-negative distance and scaler never lower the reward, and only the last distance matters. */
  lemma MovementMonotone(reward: real, distanceBuffer: seq<real>, other: seq<real>, scaler: real)
    requires scaler >= 0.0
    requires forall k :: 0 <= k < |distanceBuffer| ==> distanceBuffer[k] >= 0.0
    requires |other| >= 2 && |distanceBuffer| >= 2 && other[|other| - 1] == distanceBuffer[|distanceBuffer| - 1]
    ensures Movement(reward, distanceBuffer, scaler) >= reward
    ensures Movement(reward, other, scaler) == Movement(reward, distanceBuffer, scaler)
  {
  }

  /**
   * What a wrapper reads from the environment it wraps: the game-variable
   * buffer, the distance buffer and the environment's `reward_scaler_traversal`.
   */
  datatype Env = Env(gameVariableBuffer: VarBuffer, distanceBuffer: seq<real>, rewardScalerTraversal: real)

  /** The wrappers whose reward is a function of the environment alone (no stored state, no outside class). */
  predicate Applicable(w: Wrapper, env: Env)
  {
    match w
    case ConstantReward(_, _) => true
    case MovementReward => true
    case GameVariableReward(_, varIndex, _, _) => IndexInRange(env.gameVariableBuffer, varIndex)
    case _ => false
  }

  /** One wrapper's `reward` on the environment `env`. */
  function Apply(w: Wrapper, reward: real, env: Env): real
    requires Applicable(w, env)
  {
    match w
    case ConstantReward(rew, penalty) => Constant(reward, rew, penalty)
    case MovementReward => Movement(reward, env.distanceBuffer, env.rewardScalerTraversal)
    case GameVariableReward(rew, varIndex, decrease, penalty) =>
      GameVariable(reward, env.gameVariableBuffer, rew, varIndex, decrease, penalty)
  }

  predicate AllApplicable(ws: seq<Wrapper>, env: Env)
  {
    forall k :: 0 <= k < |ws| ==> Applicable(ws[k], env)
  }

  /**
   * A stack of wrappers: the first holder in the list wraps the environment
   * first, so its `reward` sees the environment's reward and the next one sees
   * its result.
   */
  function ApplyAll(ws: seq<Wrapper>, reward: real, env: Env): real
    requires AllApplicable(ws, env)
  {
    if ws == [] then reward
    else ApplyAll(ws[1..], Apply(ws[0], reward, env), env)
  }

  /** The amount one wrapper adds; it does not depend on the reward it is given. */
  function Offset(w: Wrapper, env: Env): real
    requires Applicable(w, env)
  {
    Apply(w, 0.0, env)
  }

  lemma ApplyIsOffset(w: Wrapper, reward: real, env: Env)
    requires Applicable(w, env)
    ensures Apply(w, reward, env) == reward + Offset(w, env)
  {
  }

  function Offsets(ws: seq<Wrapper>, env: Env): real
    requires AllApplicable(ws, env)
  {
    if ws == [] then 0.0 else Offset(ws[0], env) + Offsets(ws[1..], env)
  }

  /** A stack adds up its wrappers' offsets, independently of the running total. */
  lemma {:induction false} ApplyAllIsSum(ws: seq<Wrapper>, reward: real, env: Env)
    requires AllApplicable(ws, env)
    ensures ApplyAll(ws, reward, env) == reward + Offsets(ws, env)
  {
    if ws != [] {
      ApplyIsOffset(ws[0], reward, env);
      ApplyAllIsSum(ws[1..], Apply(ws[0], reward, env), env);
    }
  }

  lemma {:induction false} OffsetsConcat(xs: seq<Wrapper>, ys: seq<Wrapper>, env: Env)
    requires AllApplicable(xs, env) && AllApplicable(ys, env)
    ensures AllApplicable(xs + ys, env)
    ensures Offsets(xs + ys, env) == Offsets(xs, env) + Offsets(ys, env)
  {
    if xs == [] {
      assert xs + ys == ys;
    } else {
      assert (xs + ys)[0] == xs[0];
      assert (xs + ys)[1..] == xs[1..] + ys;
      OffsetsConcat(xs[1..], ys, env);
    }
  }

  /** Swapping two stacked parts does not change the shaped reward: stacking order has no numeric effect. */
  lemma ApplyAllSwap(xs: seq<Wrapper>, ys: seq<Wrapper>, reward: real, env: Env)
    requires AllApplicable(xs, env) && AllApplicable(ys, env)
    ensures AllApplicable(xs + ys, env) && AllApplicable(ys + xs, env)
    ensures ApplyAll(xs + ys, reward, env) == ApplyAll(ys + xs, reward, env)
  {
    OffsetsConcat(xs, ys, env);
    OffsetsConcat(ys, xs, env);
    ApplyAllIsSum(xs + ys, reward, env);
    ApplyAllIsSum(ys + xs, reward, env);
  }
}
