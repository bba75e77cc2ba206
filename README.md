# COOM reward shaping and scenario statistics, in Dafny

This project models the reward-shaping and per-scenario statistics core of the
COOM continual-reinforcement-learning benchmark, which is built on the ViZDoom
simulator. At each step the simulator appends a vector of raw game variables
to a rolling buffer. The core turns that buffer into a shaped scalar reward,
keeps per-episode counters (hits taken, ammunition used, distance travelled,
weapons delivered), reports statistics, and defines each scenario's fixed
action space. It also fixes the tables of continual-learning sequences.

Modules, one per source file plus three helpers:

- `RewardWrappers` (`coom/env/utils/wrappers.py`):
  - the wrapper configuration record (`WrapperHolder`) as the datatype `Wrapper`;
  - the constant, game-variable and movement reward units as pure functions;
  - the user-variable unit as a class whose `lastSeen` field stands for the
    value the environment stores for the tracked variable;
  - a left fold `ApplyAll` that stacks the stateless units.
- `PitfallEnv` (`coom/env/scenario/pitfall.py`): the `Pitfall` class with its
  frame counter, distance total and distance buffer, the performance bounds,
  and the dense and sparse wrapper lists.
- `ChainsawEnv` (`coom/env/base/chainsaw.py`): the `Chainsaw` class, its
  hit counter and distance buffer, its wrapper stack and its statistics.
- `SeekAndSlayEnv` (`coom/doom/env/extended/seek_and_slay_impl.py`): the
  `SeekAndSlayImpl` class, its hit and ammunition counters, its reward, its
  statistics and its action space (with and without `add_speed`).
- `ArmsDealerEnv` (`coom/doom/env/base/arms_dealer.py`): the `ArmsDealer`
  class, its high-water mark `arms_dealt` and its action space.
- `Enums` (`coom/utils/enums.py`): `BufferType`, `DoomScenario` and `Sequence`
  as datatypes with constant lookup functions.
- Helpers:
  - `Buffers`: buffer types, `buf[-1]`/`buf[-2]`, a strict-drop counter and `sum`.
  - `StatKeys`: the `f'{mode}/name'` statistics keys.
  - `ActionBits`: 0/1 buttons and the three turn options.

Game variables are `real`s. A buffer is a `seq<seq<real>>` with the oldest
entry first.

The simulator is not modelled. Its readings are method parameters: the
buffer, USER2, the user variable's current value, and the reward returned by a
base class that is not shown. Two computations are passed in as function-typed
parameters and left uninterpreted: the Euclidean distance and
`distance_traversed(buf, 2, 3)`. The rounded mean of a distance buffer is
passed in as a plain value.

The scenario classes use ghost histories to tie each counter to what it
counts:

- `Chainsaw` and `SeekAndSlayImpl` record every `(previous, latest)` vector
  pair of the episode. `Valid()` states that each counter equals the number of
  recorded pairs whose component strictly fell.
- `ArmsDealer` records every USER2 reading. `Valid()` states that
  `arms_dealt` is the high-water mark of those readings.

Each action space is proved to equal a reference function that decodes an
action from its index. Lemmas show that the reference lists every legal
0/1 vector exactly once.

Behaviour of the code worth knowing:

- The movement wrapper adds `distance_buffer[-1] * scaler` once the distance
  buffer has two entries. It does not compute a distance over a trailing
  window itself.
- A variable index out of range is not rejected when the wrappers are
  configured. It raises an error on the first reward computed with two buffer
  entries. The model states this as a precondition (`IndexInRange`).
- Counters are not all reset at episode boundaries:
  - `Pitfall.clear_episode_statistics` does not reset `frames` itself.
  - `ArmsDealer` never resets `arms_dealt` in the code shown.
- `MovementRewardWrapper` stores `reward_scaler` (wrappers.py:33) but reads
  `reward_scaler_traversal` (wrappers.py:39). Both reach the environment's
  `reward_scaler_traversal`, which the model treats as a single value
  (`Env.rewardScalerTraversal`).
- Pitfall imports `WrapperHolder` and its three wrapper classes from
  `coom/env/wrappers/reward.py` (pitfall.py:8-9). That module is not part of
  this model, so Pitfall's holders are modelled only as configuration records.

## Model

| member | source | states |
|---|---|---|
| RewardWrappers.Delta | coom/env/utils/wrappers.py:25 | the signed amount is `rew` or `-rew`; for a non-zero magnitude it is `-rew` exactly when `penalty` is set |
| RewardWrappers.Constant | coom/env/utils/wrappers.py:24-27 | the reward becomes `reward - rew` under `penalty` and `reward + rew` otherwise; no other outcome |
| RewardWrappers.ConstantPenaltyCancelsReward | coom/env/utils/wrappers.py:24-27 | a constant penalty and a constant reward of the same magnitude cancel, in either order |
| RewardWrappers.GameVariable | coom/env/utils/wrappers.py:51-63 | with fewer than 2 buffer entries the reward is unchanged; equal values of the tracked component leave it unchanged; otherwise the reward changes by 0 or by `Delta(rew, penalty)` |
| RewardWrappers.GameVariableChangesIff | coom/env/utils/wrappers.py:57-62 | with history and `rew != 0`: the reward changes iff `cur > prev` (increase mode) or `cur < prev` (decrease mode), both strict; the change is `-rew` for a penalty and `+rew` otherwise |
| RewardWrappers.IncreaseAndDecreaseExclusive | coom/env/utils/wrappers.py:60 | for one buffer, the increase-mode and decrease-mode units never both change the reward |
| RewardWrappers.GameVariableLocal | coom/env/utils/wrappers.py:54-58 | two buffers that agree on component `var_index` of their last two entries give the same reward, whatever their other components and older entries |
| RewardWrappers.GameVariableIgnoresOlderEntries | coom/env/utils/wrappers.py:52-55 | adding older entries in front of a buffer that already has two entries changes nothing |
| RewardWrappers.UserVariable | coom/env/utils/wrappers.py:76-83 | comparing the current value with the stored one: equal values leave the reward unchanged; otherwise it changes by 0 or `Delta(rew, penalty)` |
| RewardWrappers.UserVariableAgreesWithGameVariable | coom/env/utils/wrappers.py:60-80 | the user-variable rule is the game-variable rule applied to the two-entry buffer `[[prev], [cur]]` |
| RewardWrappers.UserVariableRewardWrapper.constructor | coom/env/utils/wrappers.py:67-74 | stores the magnitude, the variable, the mode, the sign and the initial last-seen value |
| RewardWrappers.UserVariableRewardWrapper.Reward | coom/env/utils/wrappers.py:76-83 | the result is the user-variable rule applied to the current value and the old stored value; the stored value becomes the current value |
| RewardWrappers.Movement | coom/env/utils/wrappers.py:35-40 | with fewer than 2 distances the reward is unchanged; otherwise it grows by exactly `distance_buffer[-1] * scaler` |
| RewardWrappers.MovementMonotone | coom/env/utils/wrappers.py:36-39 | non-negative distances and scaler never lower the reward; only the last distance matters |
| RewardWrappers.ApplyAll | coom/env/utils/wrappers.py:12-15 | folds a list of holders over a reward, the first holder applied first, each later one receiving the previous result; `ApplyAllIsSum` and `ApplyAllSwap` state what the fold yields |
| RewardWrappers.ApplyIsOffset | coom/env/utils/wrappers.py:24-63 | each stateless wrapper adds an amount that does not depend on the reward it receives |
| RewardWrappers.ApplyAllIsSum | coom/env/utils/wrappers.py:24-63 | a stack of stateless wrappers adds up their individual amounts |
| RewardWrappers.OffsetsConcat | coom/env/utils/wrappers.py:24-63 | the amount added by two stacked lists is the sum of the amounts added by each |
| RewardWrappers.ApplyAllSwap | coom/env/utils/wrappers.py:24-63 | swapping two stacked parts leaves the shaped reward unchanged |
| Buffers.DropsAppend | coom/env/base/chainsaw.py:26-29 | recording one more transition raises the drop count by 1 exactly when it is a strict drop |
| Buffers.DropsBounded | coom/doom/env/extended/seek_and_slay_impl.py:32-35 | a drop counter never exceeds the number of recorded steps |
| Buffers.DropsNoneWithoutDecrease | coom/doom/env/extended/seek_and_slay_impl.py:32-35 | ties and increases are never counted |
| Buffers.DropsAllIffEveryStepDrops | coom/env/base/chainsaw.py:28-29 | the count equals the number of steps iff every step was a strict drop |
| Buffers.SumAppend | coom/env/scenario/pitfall.py:40-41 | appending a distance adds it to the sum |
| StatKeys.KeyInjective | coom/env/base/chainsaw.py:39-42 | under one mode label, keys with different names differ, so no statistic overwrites another |
| PitfallEnv.PerformanceUpperBound | coom/env/scenario/pitfall.py:53-55 | the upper bound is positive |
| PitfallEnv.PerformanceLowerBound | coom/env/scenario/pitfall.py:57-59 | the lower bound (20000) is positive and below the upper bound (150000) |
| PitfallEnv.Pitfall.constructor | coom/env/scenario/pitfall.py:27-35 | counters start at zero, the buffer empty, and `total_dist == sum(distance_buffer)` holds |
| PitfallEnv.Pitfall.StoreStatistics | coom/env/scenario/pitfall.py:37-41 | `frames` grows by 1; the buffer grows by exactly `buf[-1][0]` and the total by the same amount; the invariant is kept |
| PitfallEnv.Pitfall.GetSuccess | coom/env/scenario/pitfall.py:43-44 | the success equals the sum of the recorded distances |
| PitfallEnv.Pitfall.ExtraStatistics | coom/env/scenario/pitfall.py:61-62 | exactly the keys distance and movement; distance is the total; movement times `max(frames, 1)` is the total, so the divisor is never zero |
| PitfallEnv.Pitfall.ClearEpisodeStatistics | coom/env/scenario/pitfall.py:64-67 | the buffer becomes empty and the total 0; the invariant is re-established; frames and the current distance are not touched |
| PitfallEnv.Pitfall.RewardWrappersDense | coom/env/scenario/pitfall.py:46-48 | the dense list: the proportional wrapper on variable 0 with `keep_lb`, then the boolean death penalty; `RewardModes` states it |
| PitfallEnv.Pitfall.RewardWrappersSparse | coom/env/scenario/pitfall.py:50-51 | the sparse list: one goal wrapper at the performance upper bound; `RewardModes` states it |
| PitfallEnv.RewardModes | coom/env/scenario/pitfall.py:46-51 | sparse mode is exactly one goal wrapper with `reward_goal` whose goal is the upper bound; dense mode is exactly proportional (variable 0, `keep_lb`) then boolean death, in that order; the modes share no wrapper |
| ChainsawEnv.Chainsaw.constructor | coom/env/base/chainsaw.py:15-20 | the counter starts at 0 and the buffer empty |
| ChainsawEnv.Chainsaw.StoreStatistics | coom/env/base/chainsaw.py:22-29 | exactly one distance `distance_traversed(buf, 2, 3)` is appended; `hits_taken` grows by 1 iff `buf[-1][0] < buf[-2][0]` and is unchanged otherwise; the counter stays equal to the number of strict health drops |
| ChainsawEnv.Chainsaw.GetStatistics | coom/env/base/chainsaw.py:37-42 | exactly four keys; health and kills are `latest[0]` and `latest[1]`; hits_taken is the counter |
| ChainsawEnv.Chainsaw.ClearEpisodeStatistics | coom/env/base/chainsaw.py:44-46 | `hits_taken` is 0 and the buffer is empty |
| ChainsawEnv.Chainsaw.RewardWrappers | coom/env/base/chainsaw.py:31-35 | the kill reward on variable 1 (increase mode, reward), then the movement wrapper; `ChainsawShapedReward` states the reward they give |
| ChainsawEnv.ChainsawShapedReward | coom/env/base/chainsaw.py:31-35 | the wrapper stack is the kill reward on variable 1 (increase mode, reward) then movement; it adds `reward_kill` iff kills strictly rose, plus `distance_buffer[-1] * scaler` once two distances exist |
| SeekAndSlayEnv.DistanceTraversed | coom/doom/env/extended/seek_and_slay_impl.py:39-44 | the Euclidean distance between the coordinates (components 3 and 4) of the latest vector and of the oldest vector of the buffer |
| SeekAndSlayEnv.DistanceTraversedEndpoints | coom/doom/env/extended/seek_and_slay_impl.py:39-44 | two buffers whose oldest and latest vectors agree on components 3 and 4 give the same distance, whatever lies between |
| SeekAndSlayEnv.SeekAndSlayActionLegal | coom/doom/env/extended/seek_and_slay_impl.py:60-75 | every action of the reference space is legal: 0/1 entries, never the turn prefix `[1, 1]`, length 5 only when moving with speed; each sits at its own index |
| SeekAndSlayEnv.SeekAndSlayActionComplete | coom/doom/env/extended/seek_and_slay_impl.py:60-75 | every legal action appears in the reference space |
| SeekAndSlayEnv.SeekAndSlayActionAt | coom/doom/env/extended/seek_and_slay_impl.py:67-74 | the loops' `t + m + a (+ s)` for a given turn, move, attack and speed is the reference action at its index |
| SeekAndSlayEnv.EmitAction | coom/doom/env/extended/seek_and_slay_impl.py:73-74 | appending `t + m + a` without a speed button, at its loop position, keeps the list equal to the reference space's first entries |
| SeekAndSlayEnv.EmitSpeedAction | coom/doom/env/extended/seek_and_slay_impl.py:70-72 | appending `t + m + a + s` when moving with `add_speed`, at its loop position, keeps the list equal to the reference space's first entries |
| SeekAndSlayEnv.SeekAndSlayActionSpace | coom/doom/env/extended/seek_and_slay_impl.py:60-75 | a list holding the reference actions in order holds every legal action exactly once |
| SeekAndSlayEnv.SeekAndSlayImpl.constructor | coom/doom/env/extended/seek_and_slay_impl.py:12-20 | both counters start at 0 and the buffer empty |
| SeekAndSlayEnv.SeekAndSlayImpl.CalcReward | coom/doom/env/extended/seek_and_slay_impl.py:22-37 | the reward is the base reward plus the distance times the scaler; exactly one distance is appended; `hits_taken` grows by 1 iff component 0 strictly fell, `ammo_used` iff component 2 did, else each is unchanged |
| SeekAndSlayEnv.SeekAndSlayImpl.GetStatistics | coom/doom/env/extended/seek_and_slay_impl.py:46-53 | exactly five keys; health and kills taken from the latest vector; ammo and hits_taken are the counters |
| SeekAndSlayEnv.SeekAndSlayImpl.ClearEpisodeStatistics | coom/doom/env/extended/seek_and_slay_impl.py:55-58 | `ammo_used == 0`, `hits_taken == 0`, the buffer empty |
| SeekAndSlayEnv.SeekAndSlayImpl.GetAvailableActions | coom/doom/env/extended/seek_and_slay_impl.py:60-75 | 12 actions (18 with `add_speed`), in the loops' order; all legal; none repeated; every legal action present |
| SeekAndSlayEnv.CountersBounded | coom/doom/env/extended/seek_and_slay_impl.py:32-35 | neither counter exceeds the number of recorded steps |
| ActionBits.Turn | coom/doom/env/base/arms_dealer.py:21 | each turn option is two 0/1 buttons, never both pressed |
| ActionBits.TurnCode | coom/doom/env/base/arms_dealer.py:21 | every legal turn prefix is one of the three turn options |
| ArmsDealerEnv.ArmsDealerActionLegal | coom/doom/env/base/arms_dealer.py:18-25 | every reference action has three 0/1 entries and never the turn prefix `[1, 1]`; each sits at its own index |
| ArmsDealerEnv.ArmsDealerActionComplete | coom/doom/env/base/arms_dealer.py:18-25 | every legal 3-button action appears in the reference space |
| ArmsDealerEnv.ArmsDealer.constructor | coom/doom/env/base/arms_dealer.py:11-16 | `arms_dealt` starts at 0 with no readings |
| ArmsDealerEnv.ArmsDealer.GetAvailableActions | coom/doom/env/base/arms_dealer.py:18-25 | exactly 6 actions of length 3, in order forward outer and turn inner; all legal; none repeated; every legal action present |
| ArmsDealerEnv.ArmsDealer.CalcReward | coom/doom/env/base/arms_dealer.py:27-34 | if USER2 is not strictly above `arms_dealt`, the result is exactly `-penalty_frame_passed` and the mark is unchanged; otherwise the result is `reward_delivery` (replacing the penalty) and the mark becomes USER2; the mark never decreases |
| ArmsDealerEnv.HighWaterMark | coom/doom/env/base/arms_dealer.py:30-32 | the value `arms_dealt` holds after a sequence of USER2 readings: the largest of 0 and the readings; `HighWaterMarkBounds` states it, and `ArmsDealer.Valid()` ties the field to it |
| ArmsDealerEnv.HighWaterMarkBounds | coom/doom/env/base/arms_dealer.py:30-32 | the mark is at least 0 and at least every reading, and it is 0 or one of the readings |
| ArmsDealerEnv.NoDoubleReward | coom/doom/env/base/arms_dealer.py:30-32 | a USER2 value that was already read is never rewarded again |
| ArmsDealerEnv.DefaultStepWithoutDelivery | coom/doom/env/base/arms_dealer.py:27-34 | for any dealer in any state with the default penalty, a step whose USER2 does not exceed the mark yields exactly -0.01 and leaves the mark unchanged |
| ArmsDealerEnv.DefaultRepeatedDelivery | coom/doom/env/base/arms_dealer.py:27-34 | for any dealer in any state with both default constants, a USER2 above the mark read on two steps yields 1.0 and then -0.01, and the mark becomes that value |
| Enums.BufferTypeValue | coom/utils/enums.py:14-17 | the string value of each buffer kind: `fifo`, `reservoir`, `prioritized` |
| Enums.Scenarios | coom/utils/enums.py:32-43 | the `scenarios` entry of each sequence; at least one scenario and none twice |
| Enums.Envs | coom/utils/enums.py:32-43 | the `envs` entry of each sequence; at least one environment and none twice |
| Enums.BufferTypeOf | coom/utils/enums.py:14-17 | looking up a value gives the kind with that value, or none when no kind has it |
| Enums.BufferTypeValuesDistinct | coom/utils/enums.py:14-17 | the three values are pairwise distinct, and lookup inverts them |
| Enums.CrossDomainSequences | coom/utils/enums.py:33-35 | CD4 and CD8 use only RUN_AND_GUN; CD8 has 8 environments and CD4's are its last four |
| Enums.ContinualSequences | coom/utils/enums.py:36-43 | CO4's scenarios are the last four of CO8's; COC and CO8 have the same scenarios and differ only in environments (`hard` vs `default`) |
| Enums.CO8Distinct | coom/utils/enums.py:38-40 | CO8 lists 8 pairwise-distinct scenarios: every scenario except PARKOUR |
| Enums.ParkourUnused | coom/utils/enums.py:20-43 | PARKOUR is in no sequence; every sequence has a scenario and a non-empty environment name |
| Enums.SequenceValuesDistinct | coom/utils/enums.py:32-43 | the five sequence values differ pairwise, so no member is an alias of another |

## Left out

- Observation wrappers (`RescaleWrapper`, `NormalizeWrapper`, `ResizeWrapper`,
  `RGBStack`, `combine_frames`): image numerics over numpy, OpenCV and
  TensorFlow, outside the reward logic.
- Floating point: all arithmetic is on exact reals. Rounding, and the
  dependence of float sums on their order, are not modelled. So
  `ApplyAllSwap` holds for reals, not necessarily bit-for-bit for floats.
- The Euclidean distance and `distance_traversed`: uninterpreted
  function-typed parameters. `coom/env/utils/utils.py` is not part of this
  model.
- `np.mean(distance_buffer).round(3)`: a value passed to `GetStatistics`. Its
  behaviour on an empty buffer (NaN) is not modelled.
- Simulator access (`game.get_game_variable`) and the base scenario classes
  (`DoomEnv`, `SeekAndSlay`), which are not shown:
  - `super().calc_reward()` is a parameter.
  - `super().clear_episode_statistics()` is not modelled.
  - The replay of the game-variable buffer is not modelled, nor its capacity
    or eviction. The buffer each call sees is a parameter.
- The stacking of wrappers around an environment is done by base-class code
  that is not shown. `ApplyAll` assumes the first holder in the list wraps
  first.
- `ProportionalVariableRewardWrapper`, `BooleanVariableRewardWrapper` and
  `GoalRewardWrapper`: only referenced by the source, so they are
  configuration entries whose reward is not defined (`Applicable` excludes
  them).
- RewardWrappers.UserVariableRewardWrapper.Reward: `get_and_update_user_var`
  is not shown; it is found on the wrapped environment, which stores the
  last-seen value. The model assumes it returns the stored value and then
  stores the current one. The model keeps one copy of that value per unit, so
  the sharing between two units (or other callers) on the same variable is not
  modelled. `update_callback` is stored by the source but never used, so it is
  not modelled.
- RewardWrappers.UserVariableRewardWrapper.constructor: its `lastSeen`
  parameter has no counterpart in the source's constructor (wrappers.py:67-74);
  it is the value the environment holds for the variable when the unit is
  built.
- SeekAndSlayEnv.SeekAndSlayImpl.constructor: `kill_reward` goes to a base
  class that is not shown, so it is not stored. `health_loss_penalty` and
  `ammo_used_penalty` are stored but unused by the code shown.
- `experiments/results/common.py` (plotting and analysis tables),
  `run_single.py`, `run_sequence.py`, `test_gpu.py` and `setup.py`: training
  orchestration, GPU probing and packaging.
- ChainsawEnv.Chainsaw.StoreStatistics: the model requires at least 2 buffer
  entries. With 1 entry the source raises IndexError at `game_var_buf[-2]`
  (chainsaw.py:27) at the latest. If `distance_traversed` (not part of this
  model) returns on such a buffer, a distance has already been appended
  (chainsaw.py:23-24). That partial update is not modelled.
- SeekAndSlayEnv.SeekAndSlayImpl.CalcReward: the model requires at least 2
  buffer entries. With 1 entry the source first appends a distance
  (seek_and_slay_impl.py:25-26) and then raises IndexError at
  `game_variable_buffer[-2]` (seek_and_slay_impl.py:30). That partial update
  is not modelled.
- PitfallEnv.Pitfall.StoreStatistics: the model requires at least 1 buffer
  entry. On an empty buffer the source has already counted the frame
  (pitfall.py:38) when it raises IndexError at `game_var_buf[-1]`
  (pitfall.py:39). That partial update is not modelled.
- ChainsawEnv.Chainsaw.GetStatistics: the model requires a non-empty buffer
  whose latest vector has at least 2 components. On an empty buffer the source
  raises IndexError (chainsaw.py:38).
- SeekAndSlayEnv.SeekAndSlayImpl.GetStatistics: the model requires a
  non-empty buffer whose latest vector has at least 2 components. On an empty
  buffer the source raises IndexError (seek_and_slay_impl.py:47).
- Negative Python indices for `var_index`: the model takes `var_index` as a
  natural number, which covers every configuration in the source.
