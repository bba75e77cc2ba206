/**
 * The Seek-and-Slay scenario (the variant with dense rewards).  Game variables:
 * 0 health, 1 kills, 2 ammunition, 3 and 4 the agent's position.  Per step the
 * scenario rewards the distance moved over the buffer window and counts the
 * steps on which health and ammunition fell.
 */
module SeekAndSlayEnv {
  import opened Buffers
  import opened ActionBits
  import StatKeys

  /** `distance_traversed`: the distance between the position in the latest and in the oldest vector. */
  function DistanceTraversed(gameVariableBuffer: VarBuffer, euclidean: (seq<real>, seq<real>) -> real): real
    requires |gameVariableBuffer| >= 1 && |Latest(gameVariableBuffer)| >= 5 && |gameVariableBuffer[0]| >= 5
  {
    var currentCoords := [Latest(gameVariableBuffer)[3], Latest(gameVariableBuffer)[4]];
    var pastCoords := [gameVariableBuffer[0][3], gameVariableBuffer[0][4]];
    euclidean(currentCoords, pastCoords)
  }

  /**
   * The distance depends only on the coordinates (components 3 and 4) of the
   * oldest and the latest vector of the buffer; the vectors in between and the
   * other components play no part.
   */
  lemma DistanceTraversedEndpoints(b1: VarBuffer, b2: VarBuffer, euclidean: (seq<real>, seq<real>) -> real)
    requires |b1| >= 1 && |Latest(b1)| >= 5 && |b1[0]| >= 5
    requires |b2| >= 1 && |Latest(b2)| >= 5 && |b2[0]| >= 5
    requires Latest(b1)[3] == Latest(b2)[3] && Latest(b1)[4] == Latest(b2)[4]
    requires b1[0][3] == b2[0][3] && b1[0][4] == b2[0][4]
    ensures DistanceTraversed(b1, euclidean) == DistanceTraversed(b2, euclidean)
  {
  }

  /** Actions per turn option: 2 without moving, plus 2 moving (4 with `add_speed`). */
  function ActionsPerTurn(addSpeed: bool): nat
  {
    if addSpeed then 6 else 4
  }

  /**
   * Action `k` of the space, decoded from its index: turn option
   * `k / ActionsPerTurn`; within it, first the two non-moving actions (attack
   * off, on), then the moving ones (attack off, on; with `add_speed` each with
   * speed off, on).
   */
  function SeekAndSlayAction(addSpeed: bool, k: nat): seq<real>
    requires k < 3 * ActionsPerTurn(addSpeed)
  {
    var t := k / ActionsPerTurn(addSpeed);
    var j := k % ActionsPerTurn(addSpeed);
    if j < 2 then Turn(t) + [0.0, Bit(j == 1)]
    else if addSpeed then Turn(t) + [1.0, Bit(j >= 4), Bit(j % 2 == 1)]
    else Turn(t) + [1.0, Bit(j == 3)]
  }

  /**
   * A legal action: binary buttons (turn left, turn right, forward, attack and,
   * only when moving forward with `add_speed`, speed), never both turns.
   */
  predicate LegalSeekAndSlayAction(addSpeed: bool, v: seq<real>)
  {
    |v| >= 4 && AllBinary(v) && !(v[0] == 1.0 && v[1] == 1.0)
    && |v| == (if addSpeed && v[2] == 1.0 then 5 else 4)
  }

  /** The position of a legal action in the space. */
  function SeekAndSlayIndex(addSpeed: bool, v: seq<real>): nat
    requires LegalSeekAndSlayAction(addSpeed, v)
  {
    var t := TurnCode(v);
    var a := if v[3] == 1.0 then 1 else 0;
    if v[2] == 0.0 then ActionsPerTurn(addSpeed) * t + a
    else if addSpeed then ActionsPerTurn(addSpeed) * t + 2 + 2 * a + (if v[4] == 1.0 then 1 else 0)
    else ActionsPerTurn(addSpeed) * t + 2 + a
  }

  /** Every action of the space is legal and sits at its own index. */
  lemma SeekAndSlayActionLegal(addSpeed: bool, k: nat)
    requires k < 3 * ActionsPerTurn(addSpeed)
    ensures LegalSeekAndSlayAction(addSpeed, SeekAndSlayAction(addSpeed, k))
    ensures SeekAndSlayIndex(addSpeed, SeekAndSlayAction(addSpeed, k)) == k
  {
    var v := SeekAndSlayAction(addSpeed, k);
    var p := ActionsPerTurn(addSpeed);
    var t := k / p;
    assert v[..2] == Turn(t);
    TurnInjective(TurnCode(v), t);
    assert k == p * t + k % p;
  }

  /** Every legal action is in the space. */
  lemma SeekAndSlayActionComplete(addSpeed: bool, v: seq<real>)
    requires LegalSeekAndSlayAction(addSpeed, v)
    ensures SeekAndSlayIndex(addSpeed, v) < 3 * ActionsPerTurn(addSpeed)
    ensures SeekAndSlayAction(addSpeed, SeekAndSlayIndex(addSpeed, v)) == v
  {
    var k := SeekAndSlayIndex(addSpeed, v);
    var p := ActionsPerTurn(addSpeed);
    var t := TurnCode(v);
    assert k / p == t;
    BitOfBinary(v[3]);
    if |v| == 5 {
      BitOfBinary(v[4]);
      assert v == v[..2] + [v[2], v[3], v[4]];
    } else {
      assert v == v[..2] + [v[2], v[3]];
    }
  }

  /** The index of the action the loops of `get_available_actions` emit for turn `t`, move `m`, attack `a` and speed `s`. */
  function EmitIndex(addSpeed: bool, t: nat, m: nat, a: nat, s: nat): nat
  {
    ActionsPerTurn(addSpeed) * t + 2 * m + (if addSpeed && m == 1 then 2 * a + s else a)
  }

  /** The action at that index is the turn option, then the forward, attack and (when moving with speed) speed buttons. */
  lemma SeekAndSlayActionAt(addSpeed: bool, t: nat, m: nat, a: nat, s: nat)
    requires t < 3 && m < 2 && a < 2 && s < 2
    requires !(addSpeed && m == 1) ==> s == 0
    ensures EmitIndex(addSpeed, t, m, a, s) < 3 * ActionsPerTurn(addSpeed)
    ensures SeekAndSlayAction(addSpeed, EmitIndex(addSpeed, t, m, a, s))
         == Turn(t) + [Bit(m == 1), Bit(a == 1)] + (if addSpeed && m == 1 then [Bit(s == 1)] else [])
  {
    var p := ActionsPerTurn(addSpeed);
    var j := 2 * m + (if addSpeed && m == 1 then 2 * a + s else a);
    assert j < p;
    assert (p * t + j) / p == t && (p * t + j) % p == j;
  }

  /** `actions` lists the first `|actions|` actions of the space, in index order. */
  predicate ListsSpacePrefix(addSpeed: bool, actions: seq<seq<real>>)
  {
    |actions| <= 3 * ActionsPerTurn(addSpeed)
    && forall k :: 0 <= k < |actions| ==> actions[k] == SeekAndSlayAction(addSpeed, k)
  }

  /** Emitting `t + m + a` (no speed button) at its index extends the listed prefix. */
  lemma EmitAction(addSpeed: bool, actions: seq<seq<real>>, t: nat, m: nat, a: nat, tv: seq<real>, mv: seq<real>, av: seq<real>)
    requires t < 3 && m < 2 && a < 2 && !(addSpeed && m == 1)
    requires tv == Turn(t) && mv == [Bit(m == 1)] && av == [Bit(a == 1)]
    requires ListsSpacePrefix(addSpeed, actions) && |actions| == EmitIndex(addSpeed, t, m, a, 0)
    ensures ListsSpacePrefix(addSpeed, actions + [tv + mv + av])
  {
    SeekAndSlayActionAt(addSpeed, t, m, a, 0);
    assert tv + mv + av == Turn(t) + [Bit(m == 1), Bit(a == 1)];
  }

  /** Emitting `t + m + a + s` (moving with speed) at its index extends the listed prefix. */
  lemma EmitSpeedAction(addSpeed: bool, actions: seq<seq<real>>, t: nat, a: nat, s: nat,
                        tv: seq<real>, mv: seq<real>, av: seq<real>, sv: seq<real>)
    requires addSpeed && t < 3 && a < 2 && s < 2
    requires tv == Turn(t) && mv == [1.0] && av == [Bit(a == 1)] && sv == [Bit(s == 1)]
    requires ListsSpacePrefix(addSpeed, actions) && |actions| == EmitIndex(addSpeed, t, 1, a, s)
    ensures ListsSpacePrefix(addSpeed, actions + [tv + mv + av + sv])
  {
    SeekAndSlayActionAt(addSpeed, t, 1, a, s);
    assert tv + mv + av + sv == Turn(t) + [Bit(true), Bit(a == 1)] + [Bit(s == 1)];
  }

  /** A list holding the actions of the space in index order holds exactly the legal actions, each once. */
  lemma SeekAndSlayActionSpace(addSpeed: bool, actions: seq<seq<real>>)
    requires |actions| == 3 * ActionsPerTurn(addSpeed)
    requires forall k :: 0 <= k < |actions| ==> actions[k] == SeekAndSlayAction(addSpeed, k)
    ensures forall k :: 0 <= k < |actions| ==> LegalSeekAndSlayAction(addSpeed, actions[k])
    ensures forall i, j :: 0 <= i < j < |actions| ==> actions[i] != actions[j]
    ensures forall v :: LegalSeekAndSlayAction(addSpeed, v) ==> v in actions
  {
    forall k | 0 <= k < |actions|
      ensures LegalSeekAndSlayAction(addSpeed, actions[k])
    {
      SeekAndSlayActionLegal(addSpeed, k);
    }
    forall i, j | 0 <= i < j < |actions|
      ensures actions[i] != actions[j]
    {
      SeekAndSlayActionLegal(addSpeed, i);
      SeekAndSlayActionLegal(addSpeed, j);
    }
    forall v | LegalSeekAndSlayAction(addSpeed, v)
      ensures v in actions
    {
      SeekAndSlayActionComplete(addSpeed, v);
      assert actions[SeekAndSlayIndex(addSpeed, v)] == v;
    }
  }

  class SeekAndSlayImpl {
    const traversalRewardScaler: real
    const healthLossPenalty: real
    const ammoUsedPenalty: real
    const addSpeed: bool
    var distanceBuffer: seq<real>
    var ammoUsed: nat
    var hitsTaken: nat
    /** The (previous, latest) vector pairs seen since the episode began. */
    ghost var transitions: seq<Transition>

    /**
     * `hits_taken` and `ammo_used` count the recorded steps on which health
     * (variable 0) and ammunition (variable 2) strictly fell; one distance is
     * recorded per step.
     */
    ghost predicate Valid()
      reads this
    {
      hitsTaken == Drops(transitions, 0) && ammoUsed == Drops(transitions, 2)
      && |distanceBuffer| == |transitions|
    }

    constructor (traversalRewardScaler: real, healthLossPenalty: real, ammoUsedPenalty: real, addSpeed: bool)
      ensures Valid()
      ensures this.traversalRewardScaler == traversalRewardScaler && this.healthLossPenalty == healthLossPenalty
      ensures this.ammoUsedPenalty == ammoUsedPenalty && this.addSpeed == addSpeed
      ensures distanceBuffer == [] && ammoUsed == 0 && hitsTaken == 0 && transitions == []
    {
      this.traversalRewardScaler := traversalRewardScaler;
      this.healthLossPenalty := healthLossPenalty;
      this.ammoUsedPenalty := ammoUsedPenalty;
      this.addSpeed := addSpeed;
      distanceBuffer := [];
      ammoUsed := 0;
      hitsTaken := 0;
      transitions := [];
    }

    /**
     * `calc_reward`: `baseReward` is what the base scenario's `calc_reward`
     * returned and `euclidean` the Euclidean distance.  The distance moved is
     * recorded and rewarded linearly; the counters grow on strict drops.
     */
    method CalcReward(baseReward: real, gameVariableBuffer: VarBuffer, euclidean: (seq<real>, seq<real>) -> real)
      returns (reward: real)
      requires Valid()
      requires |gameVariableBuffer| >= 2 && |Latest(gameVariableBuffer)| >= 5
      requires |gameVariableBuffer[0]| >= 5 && |Previous(gameVariableBuffer)| >= 3
      modifies this
      ensures Valid()
      ensures reward == baseReward + DistanceTraversed(gameVariableBuffer, euclidean) * traversalRewardScaler
      ensures distanceBuffer == old(distanceBuffer) + [DistanceTraversed(gameVariableBuffer, euclidean)]
      ensures transitions == old(transitions) + [(Previous(gameVariableBuffer), Latest(gameVariableBuffer))]
      ensures Latest(gameVariableBuffer)[0] < Previous(gameVariableBuffer)[0] ==> hitsTaken == old(hitsTaken) + 1
      ensures !(Latest(gameVariableBuffer)[0] < Previous(gameVariableBuffer)[0]) ==> hitsTaken == old(hitsTaken)
      ensures Latest(gameVariableBuffer)[2] < Previous(gameVariableBuffer)[2] ==> ammoUsed == old(ammoUsed) + 1
      ensures !(Latest(gameVariableBuffer)[2] < Previous(gameVariableBuffer)[2]) ==> ammoUsed == old(ammoUsed)
    {
      reward := baseReward;
      var distance := DistanceTraversed(gameVariableBuffer, euclidean);
      distanceBuffer := distanceBuffer + [distance];
      reward := reward + distance * traversalRewardScaler;

      var currentVars := Latest(gameVariableBuffer);
      var previousVars := Previous(gameVariableBuffer);
      DropsAppend(transitions, (previousVars, currentVars), 0);
      DropsAppend(transitions, (previousVars, currentVars), 2);
      transitions := transitions + [(previousVars, currentVars)];

      if currentVars[0] < previousVars[0] {
        hitsTaken := hitsTaken + 1;
      }
      if currentVars[2] < previousVars[2] {
        ammoUsed := ammoUsed + 1;
      }
    }

    /**
     * `get_statistics`: health and kills from the latest vector and the two
     * counters; `movement` stands for the rounded mean of the distance buffer.
     */
    function GetStatistics(mode: string, gameVariableBuffer: VarBuffer, movement: real): (m: map<string, real>)
      reads this
      requires |gameVariableBuffer| >= 1 && |Latest(gameVariableBuffer)| >= 2
      ensures m.Keys == {StatKeys.Key(mode, "/health"), StatKeys.Key(mode, "/kills"), StatKeys.Key(mode, "/ammo"),
                         StatKeys.Key(mode, "/movement"), StatKeys.Key(mode, "/hits_taken")}
      ensures m[StatKeys.Key(mode, "/health")] == Latest(gameVariableBuffer)[0]
      ensures m[StatKeys.Key(mode, "/kills")] == Latest(gameVariableBuffer)[1]
      ensures m[StatKeys.Key(mode, "/ammo")] == ammoUsed as real
      ensures m[StatKeys.Key(mode, "/movement")] == movement
      ensures m[StatKeys.Key(mode, "/hits_taken")] == hitsTaken as real
    {
      StatKeys.KeyInjective(mode);
      var variables := Latest(gameVariableBuffer);
      map[StatKeys.Key(mode, "/health") := variables[0],
          StatKeys.Key(mode, "/kills") := variables[1],
          StatKeys.Key(mode, "/ammo") := ammoUsed as real,
          StatKeys.Key(mode, "/movement") := movement,
          StatKeys.Key(mode, "/hits_taken") := hitsTaken as real]
    }

    /** `clear_episode_statistics`: both counters and the distance buffer start again from empty. */
    method ClearEpisodeStatistics()
      modifies this
      ensures Valid()
      ensures ammoUsed == 0 && hitsTaken == 0 && distanceBuffer == [] && transitions == []
    {
      ammoUsed := 0;
      hitsTaken := 0;
      distanceBuffer := [];
      transitions := [];
    }

    /**
     * `get_available_actions`: turn is the outer loop, then forward, then
     * attack, and speed innermost only when moving with `add_speed`.  The space
     * has 12 actions (18 with `add_speed`), all legal, none twice, in index order.
     */
    method GetAvailableActions() returns (actions: seq<seq<real>>)
      ensures |actions| == 3 * ActionsPerTurn(addSpeed)
      ensures |actions| == if addSpeed then 18 else 12
      ensures forall k :: 0 <= k < |actions| ==> actions[k] == SeekAndSlayAction(addSpeed, k)
      ensures forall k :: 0 <= k < |actions| ==> LegalSeekAndSlayAction(addSpeed, actions[k])
      ensures forall i, j :: 0 <= i < j < |actions| ==> actions[i] != actions[j]
      ensures forall v :: LegalSeekAndSlayAction(addSpeed, v) ==> v in actions
    {
      actions := [];
      var mForward := [[0.0], [1.0]];
      var tLeftRight := [[0.0, 0.0], [0.0, 1.0], [1.0, 0.0]];
      var attack := [[0.0], [1.0]];
      var speed := [[0.0], [1.0]];
      var p := ActionsPerTurn(addSpeed);

      for ti := 0 to |tLeftRight|
        invariant |actions| == p * ti
        invariant ListsSpacePrefix(addSpeed, actions)
      {
        var t := tLeftRight[ti];
        assert t == Turn(ti);
        for mi := 0 to |mForward|
          invariant |actions| == p * ti + (if mi == 2 then p else 2 * mi)
          invariant ListsSpacePrefix(addSpeed, actions)
        {
          var m := mForward[mi];
          assert m == [Bit(mi == 1)];
          assert mi == 1 ==> p * ti + 2 + (if addSpeed then 4 else 2) == p * (ti + 1);
          for ai := 0 to |attack|
            invariant |actions| == p * ti + 2 * mi + (if addSpeed && mi == 1 then 2 * ai else ai)
            invariant ListsSpacePrefix(addSpeed, actions)
          {
            var a := attack[ai];
            assert a == [Bit(ai == 1)];
            if addSpeed && m == [1.0] {
              assert mi == 1;
              for si := 0 to |speed|
                invariant |actions| == p * ti + 2 + 2 * ai + si
                invariant ListsSpacePrefix(addSpeed, actions)
              {
                var s := speed[si];
                assert s == [Bit(si == 1)];
                EmitSpeedAction(addSpeed, actions, ti, ai, si, t, m, a, s);
                actions := actions + [t + m + a + s];
              }
            } else {
              assert !(addSpeed && mi == 1);
              EmitAction(addSpeed, actions, ti, mi, ai, t, m, a);
              actions := actions + [t + m + a];
            }
          }
        }
      }

      SeekAndSlayActionSpace(addSpeed, actions);
    }
  }

  /**
   * Over an episode each counter is the number of recorded steps on which its
   * variable strictly fell, so it never exceeds the number of steps.
   */
  lemma CountersBounded(s: SeekAndSlayImpl)
    requires s.Valid()
    ensures s.hitsTaken <= |s.distanceBuffer| && s.ammoUsed <= |s.distanceBuffer|
  {
    DropsBounded(s.transitions, 0);
    DropsBounded(s.transitions, 2);
  }
}
