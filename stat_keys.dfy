/**
 * Statistics are reported as a dictionary keyed by `f'{mode}/<name>'`.  The
 * keys of one report differ in their name part, so whatever the mode label they
 * never collide and no entry of the report overwrites another.
 */
module StatKeys {

  /** The key `f'{mode}{name}'`; every name used here starts with '/'. */
  function Key(mode: string, name: string): (k: string)
    ensures |k| == |mode| + |name|
    ensures k[..|mode|] == mode && k[|mode|..] == name
  {
    mode + name
  }

  /** Under one mode label, distinct names give distinct keys. */
  lemma KeyInjective(mode: string)
    ensures forall a, b :: Key(mode, a) == Key(mode, b) ==> a == b
  {
    forall a, b | Key(mode, a) == Key(mode, b)
      ensures a == b
    {
      calc {
        a;
        Key(mode, a)[|mode|..];
        Key(mode, b)[|mode|..];
        b;
      }
    }
  }
}
