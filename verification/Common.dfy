/** Small shared vocabulary: optional values and the saturating 64-bit arithmetic
    that the runtime uses for every clock and counter. */
module Common {

  datatype Option<+T> = None | Some(value: T)

  /** The largest u64. Clocks and counters are modelled as `nat`; an addition that the
      source writes as `saturating_add` stops here. */
  const U64_MAX: nat := 0xFFFF_FFFF_FFFF_FFFF

  function Min(a: nat, b: nat): nat {
    if a <= b then a else b
  }

  function Max(a: nat, b: nat): nat {
    if a <= b then b else a
  }

  /** `saturating_add` on u64. */
  function SatAdd(a: nat, b: nat): nat {
    Min(a + b, U64_MAX)
  }

  /** `saturating_sub` on u64. */
  function SatSub(a: nat, b: nat): nat {
    if a <= b then 0 else a - b
  }

  /** `saturating_mul` on u64. */
  function SatMul(a: nat, b: nat): nat {
    Min(a * b, U64_MAX)
  }
}
