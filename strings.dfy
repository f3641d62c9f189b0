/** Go strings as the program sees them: sequences of bytes, compared
    byte by byte and measured in bytes. */
module GoStrings {

  newtype byte = x: int | 0 <= x < 256

  /** A Go `string`: `len` counts its bytes and `<` compares them. */
  type GoString = seq<byte>

  const SPACE: byte := 0x20

  /** `strings.Repeat(" ", n)`. */
  function Spaces(n: nat): GoString
  {
    seq(n, _ => SPACE)
  }

  /** Go's `a < b` on strings: lexicographic order on bytes, where a
      proper prefix comes first. */
  predicate Less(a: GoString, b: GoString)
  {
    if |a| == 0 then |b| > 0
    else if |b| == 0 then false
    else if a[0] != b[0] then a[0] < b[0]
    else Less(a[1..], b[1..])
  }

  lemma {:induction false} LessIrreflexive(a: GoString)
    ensures !Less(a, a)
  {
    if |a| > 0 {
      LessIrreflexive(a[1..]);
    }
  }

  lemma {:induction false} LessTransitive(a: GoString, b: GoString, c: GoString)
    requires Less(a, b) && Less(b, c)
    ensures Less(a, c)
  {
    if |a| > 0 && |b| > 0 && |c| > 0 && a[0] == b[0] && b[0] == c[0] {
      LessTransitive(a[1..], b[1..], c[1..]);
    }
  }

  /** Any two different strings are ordered one way or the other. */
  lemma {:induction false} LessTotal(a: GoString, b: GoString)
    requires a != b
    ensures Less(a, b) || Less(b, a)
  {
    if |a| > 0 && |b| > 0 && a[0] == b[0] {
      assert a == [a[0]] + a[1..] && b == [b[0]] + b[1..];
      LessTotal(a[1..], b[1..]);
    }
  }
}
