/**
 * Actions are vectors of button states, each 0.0 (released) or 1.0 (pressed).
 * The first two buttons turn left and right; the three turn options are
 * `[0, 0]`, `[0, 1]` and `[1, 0]`, never both at once.
 */
module ActionBits {

  /** The button state for a condition. */
  function Bit(b: bool): real
  {
    if b then 1.0 else 0.0
  }

  predicate IsBinary(x: real)
  {
    x == 0.0 || x == 1.0
  }

  predicate AllBinary(v: seq<real>)
  {
    forall i :: 0 <= i < |v| ==> IsBinary(v[i])
  }

  /** The turn option with code `t` (0: none, 1: `[0, 1]`, 2: `[1, 0]`). */
  function Turn(t: nat): (v: seq<real>)
    requires t < 3
    ensures |v| == 2 && AllBinary(v) && !(v[0] == 1.0 && v[1] == 1.0)
  {
    [Bit(t == 2), Bit(t == 1)]
  }

  /** The code of a legal turn prefix. */
  function TurnCode(v: seq<real>): (t: nat)
    requires |v| >= 2 && IsBinary(v[0]) && IsBinary(v[1]) && !(v[0] == 1.0 && v[1] == 1.0)
    ensures t < 3 && Turn(t) == v[..2]
  {
    if v[0] == 1.0 then 2 else if v[1] == 1.0 then 1 else 0
  }

  /** Different codes give different turn options. */
  lemma TurnInjective(t1: nat, t2: nat)
    requires t1 < 3 && t2 < 3 && Turn(t1) == Turn(t2)
    ensures t1 == t2
  {
    assert Turn(t1)[0] == Turn(t2)[0] && Turn(t1)[1] == Turn(t2)[1];
  }

  /** The button state of a binary bit, read back as a condition. */
  lemma BitOfBinary(x: real)
    requires IsBinary(x)
    ensures Bit(x == 1.0) == x
  {
  }
}
