/// The machine's integer widths, and comparisons.
module Numbers {
  const U32: nat := 0x1_0000_0000
  const U64: nat := 0x1_0000_0000_0000_0000
  const MAX63: nat := 0x7fff_ffff_ffff_ffff

  lemma Widths()
    ensures U32 == 65536 * 65536 && U64 == U32 * U32 && 2 * (MAX63 + 1) == U64
  {
  }

  function Min(a: nat, b: nat): nat {
    if a < b then a else b
  }

  function Max(a: nat, b: nat): nat {
    if a < b then b else a
  }
}
