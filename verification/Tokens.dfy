/** Token accounting: saturating 32-bit components and what folding them means. */
module Tokens {
  import opened Std

  const U32_MAX: nat := 0xFFFF_FFFF
  const U64_MAX: nat := 0xFFFF_FFFF_FFFF_FFFF

  type u32 = n: nat | n <= U32_MAX
  type u64 = n: nat | n <= U64_MAX

  function Clamp32(n: nat): u32 {
    if n <= U32_MAX then n else U32_MAX
  }

  function Clamp64(n: nat): u64 {
    if n <= U64_MAX then n else U64_MAX
  }

  /** The four components of one measured turn, message or session. */
  datatype Usage = Usage(input: u32, cacheCreation: u32, cacheRead: u32, output: u32)
  {
    /** Saturating field-wise accumulation. */
    function Add(other: Usage): Usage {
      Usage(Clamp32(input + other.input),
            Clamp32(cacheCreation + other.cacheCreation),
            Clamp32(cacheRead + other.cacheRead),
            Clamp32(output + other.output))
    }

    /** All four components; four 32-bit terms always fit 64 bits. */
    function Total(): u64 {
      input + output + cacheCreation + cacheRead
    }
  }

  const NO_USAGE := Usage(0, 0, 0, 0)

  function InputOf(u: Usage): nat { u.input }
  function CacheCreationOf(u: Usage): nat { u.cacheCreation }
  function CacheReadOf(u: Usage): nat { u.cacheRead }
  function OutputOf(u: Usage): nat { u.output }

  /** Component-wise `min(u32::MAX, exact sum)`. */
  function ClampedSum(us: seq<Usage>): Usage {
    Usage(Clamp32(Sum(us, InputOf)),
          Clamp32(Sum(us, CacheCreationOf)),
          Clamp32(Sum(us, CacheReadOf)),
          Clamp32(Sum(us, OutputOf)))
  }

  /** What a loop of `total.add_assign(u)` computes. */
  function Accumulated(us: seq<Usage>): Usage {
    if us == [] then NO_USAGE else Accumulated(us[..|us| - 1]).Add(Last(us))
  }

  /** Saturating at every step is the same as saturating once at the end. */
  lemma {:induction false} AccumulatedIsClampedSum(us: seq<Usage>)
    ensures Accumulated(us) == ClampedSum(us)
  {
    if us != [] {
      AccumulatedIsClampedSum(us[..|us| - 1]);
    }
  }

  lemma ClampedSumPermutes(us: seq<Usage>, vs: seq<Usage>)
    requires multiset(us) == multiset(vs)
    ensures ClampedSum(us) == ClampedSum(vs)
  {
    SumPermutes(us, vs, InputOf);
    SumPermutes(us, vs, CacheCreationOf);
    SumPermutes(us, vs, CacheReadOf);
    SumPermutes(us, vs, OutputOf);
  }

  lemma ClampedSumSnoc(us: seq<Usage>, u: Usage)
    ensures ClampedSum(us + [u]) == ClampedSum(us).Add(u)
  {
    assert (us + [u])[..|us|] == us;
  }

  function Flatten<T>(parts: seq<seq<T>>): seq<T> {
    if parts == [] then [] else Flatten(parts[..|parts| - 1]) + Last(parts)
  }

  function EachClamped(parts: seq<seq<Usage>>): seq<Usage> {
    if parts == [] then [] else EachClamped(parts[..|parts| - 1]) + [ClampedSum(Last(parts))]
  }

  lemma ClampedSumConcat(us: seq<Usage>, vs: seq<Usage>)
    ensures ClampedSum(us + vs) == ClampedSum(us).Add(ClampedSum(vs))
  {
    SumConcat(us, vs, InputOf);
    SumConcat(us, vs, CacheCreationOf);
    SumConcat(us, vs, CacheReadOf);
    SumConcat(us, vs, OutputOf);
  }

  /** Clamping every part and then the whole is clamping the whole. */
  lemma {:induction false} NestedClamp(parts: seq<seq<Usage>>)
    ensures ClampedSum(EachClamped(parts)) == ClampedSum(Flatten(parts))
  {
    if parts != [] {
      var front := parts[..|parts| - 1];
      NestedClamp(front);
      ClampedSumConcat(Flatten(front), Last(parts));
      ClampedSumSnoc(EachClamped(front), ClampedSum(Last(parts)));
    }
  }
}
