/**
 * The Arms Dealer scenario: the agent picks up weapons and delivers them.  The
 * simulator's USER2 variable holds the number of weapons delivered so far; a
 * step is rewarded when it rises above the highest value seen, and every other
 * step costs a small per-frame penalty.
 */
module ArmsDealerEnv {
  import opened ActionBits

  /** The default `reward_delivery` and `penalty_frame_passed` of the constructor. */
  const DefaultRewardDelivery: real := 1.0
  const DefaultPenaltyFramePassed: real := 0.01

  /** Action `k` of the space: move-forward option `k / 3`, turn option `k % 3`. */
  function ArmsDealerAction(k: nat): seq<real>
    requires k < 6
  {
    Turn(k % 3) + [Bit(k / 3 == 1)]
  }

  /** A legal action: three binary buttons (turn left, turn right, forward), never both turns. */
  predicate LegalArmsDealerAction(v: seq<real>)
  {
    |v| == 3 && AllBinary(v) && !(v[0] == 1.0 && v[1] == 1.0)
  }

  /** The position of a legal action in the space. */
  function ArmsDealerIndex(v: seq<real>): nat
    requires LegalArmsDealerAction(v)
  {
    3 * (if v[2] == 1.0 then 1 else 0) + TurnCode(v)
  }

  /** Every action of the space is legal and sits at its own index. */
  lemma ArmsDealerActionLegal(k: nat)
    requires k < 6
    ensures LegalArmsDealerAction(ArmsDealerAction(k))
    ensures ArmsDealerIndex(ArmsDealerAction(k)) == k
  {
    var v := ArmsDealerAction(k);
    assert v[..2] == Turn(k % 3);
    TurnInjective(TurnCode(v), k % 3);
  }

  /** Every legal action is in the space. */
  lemma ArmsDealerActionComplete(v: seq<real>)
    requires LegalArmsDealerAction(v)
    ensures ArmsDealerIndex(v) < 6 && ArmsDealerAction(ArmsDealerIndex(v)) == v
  {
    var k := ArmsDealerIndex(v);
    var t := TurnCode(v);
    assert k % 3 == t && (k / 3 == 1 <==> v[2] == 1.0);
    BitOfBinary(v[2]);
    assert ArmsDealerAction(k) == v[..2] + [v[2]];
    assert v == v[..2] + [v[2]];
  }

  class ArmsDealer {
    const penaltyFramePassed: real
    const rewardDelivery: real
    /** The highest USER2 value seen so far; 0 before any. */
    var armsDealt: real
    /** The USER2 values read so far. */
    ghost var readings: seq<real>

    ghost predicate Valid()
      reads this
    {
      armsDealt == HighWaterMark(readings)
    }

    constructor (rewardDelivery: real, penaltyFramePassed: real)
      ensures Valid()
      ensures this.rewardDelivery == rewardDelivery && this.penaltyFramePassed == penaltyFramePassed
      ensures armsDealt == 0.0 && readings == []
    {
      this.penaltyFramePassed := penaltyFramePassed;
      this.rewardDelivery := rewardDelivery;
      armsDealt := 0.0;
      readings := [];
    }

    /**
     * `get_available_actions`: forward is the outer loop and turning the inner
     * one, so the space has six legal actions, none twice, in index order.
     */
    method GetAvailableActions() returns (actions: seq<seq<real>>)
      ensures |actions| == 6
      ensures forall k :: 0 <= k < |actions| ==> actions[k] == ArmsDealerAction(k)
      ensures forall k :: 0 <= k < |actions| ==> LegalArmsDealerAction(actions[k])
      ensures forall i, j :: 0 <= i < j < |actions| ==> actions[i] != actions[j]
      ensures forall v :: LegalArmsDealerAction(v) ==> v in actions
    {
      actions := [];
      var mForward := [[0.0], [1.0]];
      var tLeftRight := [[0.0, 0.0], [0.0, 1.0], [1.0, 0.0]];
      for mi := 0 to |mForward|
        invariant |actions| == 3 * mi
        invariant forall k :: 0 <= k < |actions| ==> actions[k] == ArmsDealerAction(k)
      {
        var m := mForward[mi];
        assert m == [Bit(mi == 1)];
        for ti := 0 to |tLeftRight|
          invariant |actions| == 3 * mi + ti
          invariant forall k :: 0 <= k < |actions| ==> actions[k] == ArmsDealerAction(k)
        {
          var t := tLeftRight[ti];
          assert t == Turn(ti);
          assert ArmsDealerAction(3 * mi + ti) == t + m;
          actions := actions + [t + m];
        }
      }
      forall k | 0 <= k < |actions|
        ensures LegalArmsDealerAction(actions[k])
      {
        ArmsDealerActionLegal(k);
      }
      forall i, j | 0 <= i < j < |actions|
        ensures actions[i] != actions[j]
      {
        ArmsDealerActionLegal(i);
        ArmsDealerActionLegal(j);
      }
      forall v | LegalArmsDealerAction(v)
        ensures v in actions
      {
        ArmsDealerActionComplete(v);
        assert actions[ArmsDealerIndex(v)] == v;
      }
    }

    /**
     * `calc_reward`: `user2` is the simulator's USER2 value for this step.  A
     * value above the high-water mark earns `reward_delivery` in place of the
     * frame penalty and becomes the new mark; anything else costs the penalty.
     */
    method CalcReward(user2: real) returns (reward: real)
      requires Valid()
      modifies this
      ensures Valid() && readings == old(readings) + [user2]
      ensures user2 > old(armsDealt) ==> reward == rewardDelivery && armsDealt == user2
      ensures !(user2 > old(armsDealt)) ==> reward == -penaltyFramePassed && armsDealt == old(armsDealt)
      ensures armsDealt >= old(armsDealt) && armsDealt >= user2
    {
      reward := -penaltyFramePassed;
      var dealt := user2;
      assert (readings + [user2])[..|readings|] == readings;
      readings := readings + [user2];
      if dealt > armsDealt {
        reward := rewardDelivery;
        armsDealt := dealt;
      }
    }
  }

  /** The highest of 0 and the given readings: the value `arms_dealt` holds after them. */
  function HighWaterMark(s: seq<real>): real
  {
    if s == [] then 0.0
    else
      var m := HighWaterMark(s[..|s| - 1]);
      if s[|s| - 1] > m then s[|s| - 1] else m
  }

  /** The mark is at least 0 and at least every reading, and it is 0 or one of the readings. */
  lemma {:induction false} HighWaterMarkBounds(s: seq<real>)
    ensures HighWaterMark(s) >= 0.0
    ensures forall i :: 0 <= i < |s| ==> s[i] <= HighWaterMark(s)
    ensures HighWaterMark(s) == 0.0 || HighWaterMark(s) in s
  {
    if s != [] {
      var init := s[..|s| - 1];
      HighWaterMarkBounds(init);
      assert forall i :: 0 <= i < |init| ==> s[i] == init[i];
    }
  }

  /** The reading at position `j` is rewarded exactly when it exceeds the mark of the readings before it. */
  predicate RewardedAt(s: seq<real>, j: nat)
    requires j < |s|
  {
    s[j] > HighWaterMark(s[..j])
  }

  /** A value already read is never rewarded again, however many steps later. */
  lemma NoDoubleReward(s: seq<real>, i: nat, j: nat)
    requires i < j < |s| && s[i] == s[j]
    ensures !RewardedAt(s, j)
  {
    HighWaterMarkBounds(s[..j]);
    assert s[..j][i] == s[i];
  }

  /** With the default penalty, every step whose USER2 value does not exceed the mark yields exactly -0.01. */
  method DefaultStepWithoutDelivery(dealer: ArmsDealer, user2: real) returns (reward: real)
    requires dealer.Valid() && dealer.penaltyFramePassed == DefaultPenaltyFramePassed
    requires user2 <= dealer.armsDealt
    modifies dealer
    ensures dealer.Valid() && dealer.armsDealt == old(dealer.armsDealt)
    ensures reward == -0.01
  {
    reward := dealer.CalcReward(user2);
  }

  /**
   * With the default constants, a USER2 value above the mark earns 1.0 and the
   * same value read again on the next step earns only the -0.01 penalty.
   */
  method DefaultRepeatedDelivery(dealer: ArmsDealer, user2: real) returns (first: real, second: real)
    requires dealer.Valid()
    requires dealer.rewardDelivery == DefaultRewardDelivery && dealer.penaltyFramePassed == DefaultPenaltyFramePassed
    requires user2 > dealer.armsDealt
    modifies dealer
    ensures dealer.Valid() && dealer.armsDealt == user2
    ensures first == 1.0 && second == -0.01
  {
    first := dealer.CalcReward(user2);
    second := dealer.CalcReward(user2);
  }
}
