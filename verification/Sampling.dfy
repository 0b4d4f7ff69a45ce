/** Uniform sampling of an index by rejecting the incomplete residue cycle. */
module Sampling {
  import opened Wrappers

  const TWO_64 := 0x1_0000_0000_0000_0000
  const MAX_SAMPLE_ATTEMPTS := 64

  type U64 = n: nat | n < TWO_64

  datatype SamplingError = EmptyDomain | EntropyFailure | SamplingExhausted

  /** `bound.wrapping_neg() % bound`. */
  function Threshold(bound: U64): U64
    requires bound > 0
  {
    (TWO_64 - bound) % bound
  }

  /** Every draw before `count` was a value below the threshold. */
  predicate Rejected(draws: nat -> Option<U64>, threshold: U64, count: nat) {
    forall i | 0 <= i < count :: draws(i).Some? && draws(i).value < threshold
  }

  /** Draws from a fallible source of 64-bit values until one lies in a complete cycle. */
  method SampleIndex(length: U64, draws: nat -> Option<U64>) returns (result: Result<nat, SamplingError>, used: nat)
    ensures used <= MAX_SAMPLE_ATTEMPTS
    ensures length == 0 <==> result == Err(EmptyDomain)
    ensures length > 0 ==>
      match result
      case Ok(index) =>
        && used > 0 && Rejected(draws, Threshold(length), used - 1)
        && draws(used - 1).Some? && draws(used - 1).value >= Threshold(length)
        && index == draws(used - 1).value % length
      case Err(EntropyFailure) =>
        used > 0 && Rejected(draws, Threshold(length), used - 1) && draws(used - 1).None?
      case Err(SamplingExhausted) =>
        used == MAX_SAMPLE_ATTEMPTS && Rejected(draws, Threshold(length), used)
      case Err(EmptyDomain) => false
  {
    used := 0;
    var bound := length;
    if bound == 0 { return Err(EmptyDomain), used; }
    var threshold := Threshold(bound);
    while used < MAX_SAMPLE_ATTEMPTS
      invariant used <= MAX_SAMPLE_ATTEMPTS && Rejected(draws, threshold, used)
    {
      var value := draws(used);
      used := used + 1;
      if value.None? { return Err(EntropyFailure), used; }
      if value.value >= threshold { return Ok(value.value % bound), used; }
    }
    result := Err(SamplingExhausted);
  }

  /** The accepted values that yield one index. */
  function Representatives(low: nat, high: nat, bound: nat, index: nat): set<nat>
    requires bound > 0
  {
    set value: nat | low <= value < high && value % bound == index
  }

  /**
   * Every index below the bound has equally many accepted values, so a uniform draw
   * that is accepted yields a uniform index; fewer values are rejected than there are indices.
   */
  lemma AcceptedValuesAreUniform(bound: U64, index: nat)
    requires bound > 0 && index < bound
    ensures Threshold(bound) == TWO_64 % bound < bound
    ensures (TWO_64 - Threshold(bound)) % bound == 0
    ensures |Representatives(Threshold(bound), TWO_64, bound, index)| == (TWO_64 - Threshold(bound)) / bound
  {
    var quotient, rest := TWO_64 / bound, TWO_64 % bound;
    Division(TWO_64, bound);
    assert TWO_64 - bound == (quotient - 1) * bound + rest;
    RemainderIsUnique(TWO_64 - bound, quotient - 1, rest, bound);
    assert TWO_64 - rest == quotient * bound + 0;
    RemainderIsUnique(TWO_64 - rest, quotient, 0, bound);
    RepresentativesOfCycles(rest, quotient, bound, index);
  }

  lemma Division(value: int, bound: int)
    requires bound > 0
    ensures value == value / bound * bound + value % bound && 0 <= value % bound < bound
  {}

  lemma RemainderIsUnique(value: int, quotient: int, rest: int, bound: int)
    requires bound > 0 && value == quotient * bound + rest && 0 <= rest < bound
    ensures value % bound == rest && value / bound == quotient
  {
    Division(value, bound);
    var difference := value / bound - quotient;
    assert difference * bound == rest - value % bound;
    MultipleGrows(difference, bound);
  }

  lemma MultipleGrows(factor: int, bound: int)
    requires bound > 0
    ensures factor >= 1 ==> factor * bound >= bound
    ensures factor <= -1 ==> factor * bound <= -bound
  {}

  /** Any stretch of whole cycles holds one representative of the index per cycle. */
  lemma {:induction false} RepresentativesOfCycles(low: nat, cycles: nat, bound: nat, index: nat)
    requires bound > 0 && index < bound
    ensures |Representatives(low, low + cycles * bound, bound, index)| == cycles
  {
    if cycles == 0 {
      assert Representatives(low, low, bound, index) == {};
    } else {
      var start := low + (cycles - 1) * bound;
      assert start + bound == low + cycles * bound;
      RepresentativesOfCycles(low, cycles - 1, bound, index);
      var value := RepresentativeOfCycle(start, bound, index);
      var earlier := Representatives(low, start, bound, index);
      assert Representatives(low, start + bound, bound, index) == earlier + {value};
    }
  }

  /** One cycle, wherever it starts, holds exactly one value of each residue. */
  lemma RepresentativeOfCycle(start: nat, bound: nat, index: nat) returns (value: nat)
    requires bound > 0 && index < bound
    ensures start <= value < start + bound && value % bound == index
    ensures forall other: nat | start <= other < start + bound && other % bound == index :: other == value
  {
    Division(index - start, bound);
    value := start + (index - start) % bound;
    RemainderIsUnique(value, -((index - start) / bound), index, bound);
    forall other: nat | start <= other < start + bound && other % bound == index ensures other == value {
      Division(other, bound);
      Division(value, bound);
      var difference := other / bound - value / bound;
      assert other - value == difference * bound;
      MultipleGrows(difference, bound);
    }
  }
}
