/** Small datatypes shared by the whole model. */
module Common {
  datatype Option<+T> = None | Some(value: T)

  type VarId = nat

  /** A value for every variable. */
  type Assignment = seq<int>

  /** The elements of a sequence. */
  function Elems<T>(s: seq<T>): set<T>
  {
    set x | x in s
  }

  ghost predicate Distinct<T>(s: seq<T>) {
    forall i, j | 0 <= i < j < |s| :: s[i] != s[j]
  }

  /** `x` fits a signed machine integer of the named width. */
  predicate FitsI32(x: int) { -0x8000_0000 <= x <= 0x7fff_ffff }
  predicate FitsI64(x: int) { -0x8000_0000_0000_0000 <= x <= 0x7fff_ffff_ffff_ffff }
  predicate FitsI128(x: int) {
    -0x8000_0000_0000_0000_0000_0000_0000_0000 <= x <= 0x7fff_ffff_ffff_ffff_ffff_ffff_ffff_ffff
  }

  function Min(a: int, b: int): int { if a <= b then a else b }
  function Max(a: int, b: int): int { if a <= b then b else a }
  function Abs(a: int): int { if a < 0 then -a else a }
}
