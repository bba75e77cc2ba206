/**
 * The benchmark's enumerations: replay-buffer kinds, the scenarios, and the
 * continual-learning sequences (curricula) built from them.
 */
module Enums {

  datatype Option<T> = None | Some(value: T)

  /** The replay-buffer kinds, selected by their string value. */
  datatype BufferType = Fifo | Reservoir | Prioritized

  /** The string value of each buffer kind. */
  function BufferTypeValue(b: BufferType): string
  {
    match b
    case Fifo => "fifo"
    case Reservoir => "reservoir"
    case Prioritized => "prioritized"
  }

  /** `BufferType(value)`: the kind with that value, or `None` where Python raises `ValueError`. */
  function BufferTypeOf(value: string): (r: Option<BufferType>)
    ensures r.Some? ==> BufferTypeValue(r.value) == value
    ensures r.None? ==> forall b :: BufferTypeValue(b) != value
  {
    if value == "fifo" then Some(Fifo)
    else if value == "reservoir" then Some(Reservoir)
    else if value == "prioritized" then Some(Prioritized)
    else None
  }

  /** The three values are pairwise distinct, so no member is an alias of another and lookup inverts `value`. */
  lemma BufferTypeValuesDistinct(b1: BufferType, b2: BufferType)
    ensures BufferTypeValue(b1) == BufferTypeValue(b2) <==> b1 == b2
    ensures BufferTypeOf(BufferTypeValue(b1)) == Some(b1)
  {
  }

  datatype DoomScenario =
    | HealthGathering | RunAndGun | Chainsaw | RaiseTheRoof | FloorIsLava
    | HideAndSeek | ArmsDealer | Parkour | Pitfall

  datatype Sequence = CD4 | CD8 | CO4 | CO8 | COC

  /** The `'scenarios'` entry of each sequence: at least one scenario, none twice. */
  function Scenarios(s: Sequence): (r: seq<DoomScenario>)
    ensures |r| >= 1
    ensures forall i, j :: 0 <= i < j < |r| ==> r[i] != r[j]
  {
    match s
    case CD4 => [RunAndGun]
    case CD8 => [RunAndGun]
    case CO4 => [Chainsaw, RaiseTheRoof, RunAndGun, HealthGathering]
    case CO8 => [Pitfall, ArmsDealer, HideAndSeek, FloorIsLava, Chainsaw, RaiseTheRoof, RunAndGun, HealthGathering]
    case COC => [Pitfall, ArmsDealer, HideAndSeek, FloorIsLava, Chainsaw, RaiseTheRoof, RunAndGun, HealthGathering]
  }

  /** The `'envs'` entry of each sequence: at least one environment, none twice. */
  function Envs(s: Sequence): (r: seq<string>)
    ensures |r| >= 1
    ensures forall i, j :: 0 <= i < j < |r| ==> r[i] != r[j]
  {
    match s
    case CD4 => ["default", "red", "blue", "shadows"]
    case CD8 => ["obstacles", "green", "resized", "invulnerable", "default", "red", "blue", "shadows"]
    case CO4 => ["default"]
    case CO8 => ["default"]
    case COC => ["hard"]
  }

  /** The cross-domain sequences vary only the environment of one scenario; CD4 is the second half of CD8. */
  lemma CrossDomainSequences()
    ensures Scenarios(CD4) == Scenarios(CD8) == [RunAndGun]
    ensures |Envs(CD8)| == 8 && Envs(CD4) == Envs(CD8)[4..]
  {
  }

  /** The continual sequences: CO4 is the second half of CO8, and COC is CO8 on the hard environment. */
  lemma ContinualSequences()
    ensures |Scenarios(CO8)| == 8 && Scenarios(CO4) == Scenarios(CO8)[4..]
    ensures Scenarios(COC) == Scenarios(CO8)
    ensures Envs(CO8) == ["default"] && Envs(COC) == ["hard"] && Envs(CO4) == Envs(CO8)
  {
  }

  /** CO8 names eight different scenarios: every scenario except Parkour appears exactly once. */
  lemma CO8Distinct()
    ensures forall i, j :: 0 <= i < j < |Scenarios(CO8)| ==> Scenarios(CO8)[i] != Scenarios(CO8)[j]
    ensures forall d :: d in Scenarios(CO8) <==> d != Parkour
  {
  }

  /** Parkour is part of no sequence, and every sequence names at least one scenario and one environment. */
  lemma ParkourUnused(s: Sequence)
    ensures Parkour !in Scenarios(s)
    ensures |Scenarios(s)| >= 1 && |Envs(s)| >= 1
    ensures forall e :: e in Envs(s) ==> |e| > 0
  {
  }

  /** The sequences have pairwise different values, so none of them is an alias of another. */
  lemma SequenceValuesDistinct(s1: Sequence, s2: Sequence)
    requires s1 != s2
    ensures Scenarios(s1) != Scenarios(s2) || Envs(s1) != Envs(s2)
  {
    if Scenarios(s1) == Scenarios(s2) {
      assert (s1 == CD4 && s2 == CD8) || (s1 == CD8 && s2 == CD4)
          || (s1 == CO8 && s2 == COC) || (s1 == COC && s2 == CO8);
      assert Envs(s1)[0] != Envs(s2)[0] || |Envs(s1)| != |Envs(s2)|;
    }
  }
}
