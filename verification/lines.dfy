/** Shared vocabulary of the model: optional values, the exceptions the
    program can raise, the line reader, and the C# integer operators. */
module Lines {

  /** A value that may be missing; `None` plays the part of C#'s `null`. */
  datatype Option<T> = None | Some(value: T)

  /** The exceptions (or the endless loop) that end a command early. */
  datatype Error =
    | DivideByZero        // System.DivideByZeroException from `/` or `%`
    | NegativeArraySize   // System.OverflowException from `new T[n]` with n < 0
    | NonTermination      // a loop that never makes progress

  datatype Result<T> = Ok(value: T) | Err(error: Error)

  const Int32Max: int := 0x7FFF_FFFF

  function Min(a: int, b: int): int { if a <= b then a else b }
  function Max(a: int, b: int): int { if a >= b then a else b }

  /** C#'s `/` on int: the quotient is truncated toward zero. */
  function CsDiv(a: int, b: int): (q: int)
    requires b != 0
    ensures (a >= 0) == (b > 0) || a == 0 ==> q >= 0
  {
    if (a >= 0) == (b > 0) then Abs(a) / Abs(b) else -(Abs(a) / Abs(b))
  }

  /** C#'s `%` on int: the remainder takes the sign of the dividend. */
  function CsRem(a: int, b: int): (r: int)
    requires b != 0
    ensures a >= 0 ==> 0 <= r < Abs(b)
    ensures a < 0 ==> -Abs(b) < r <= 0
  {
    if a >= 0 then a % Abs(b) else -((-a) % Abs(b))
  }

  /** The two C# operators fit together: `a == (a / b) * b + a % b`. */
  lemma CsDivRem(a: int, b: int)
    requires b != 0
    ensures a == CsDiv(a, b) * b + CsRem(a, b)
  {
    var q, m := Abs(a) / Abs(b), Abs(a) % Abs(b);
    assert Abs(a) == q * Abs(b) + m;
    if b < 0 {
      assert q * Abs(b) == -(q * b);
    }
  }

  function Abs(a: int): (r: int)
    ensures r >= 0 && (r == a || r == -a)
  {
    if a < 0 then -a else a
  }

  /** `ceil(a / b)` for a positive divisor: how many steps of `b` it
      takes to pass `a`. */
  function CeilDiv(a: int, b: int): nat
    requires b > 0
    decreases a
  {
    if a <= 0 then 0 else 1 + CeilDiv(a - b, b)
  }

  /** CeilDiv is the ceiling: the least `q` with `a <= q * b`. */
  lemma {:induction false} CeilDivIsCeiling(a: int, b: int)
    requires a > 0 && b > 0
    ensures CeilDiv(a, b) >= 1
    ensures (CeilDiv(a, b) - 1) * b < a <= CeilDiv(a, b) * b
    decreases a
  {
    var q := CeilDiv(a - b, b);
    if a - b > 0 {
      CeilDivIsCeiling(a - b, b);
      assert (q - 1) * b + b == q * b;
      assert (q + 1) * b == q * b + b;
    }
  }

  /** Only one `q` brackets `a` between `(q - 1) * b` and `q * b`. */
  lemma CeilDivUnique(a: int, b: int, q: int)
    requires a > 0 && b > 0 && (q - 1) * b < a <= q * b
    ensures q == CeilDiv(a, b)
  {
    CeilDivIsCeiling(a, b);
    var c := CeilDiv(a, b);
    if q < c {
      MulMonotone(q, c - 1, b);
    } else if q > c {
      MulMonotone(c, q - 1, b);
    }
  }

  lemma MulMonotone(x: int, y: int, b: int)
    requires x <= y && b > 0
    ensures x * b <= y * b
  {
  }

  /** Euclidean quotient and remainder are determined by the equation. */
  lemma DivModUnique(x: int, d: int, q: int, m: int)
    requires d > 0 && x == q * d + m && 0 <= m < d
    ensures x / d == q && x % d == m
  {
    var q0, m0 := x / d, x % d;
    assert x == q0 * d + m0;
    if q0 < q {
      MulMonotone(q0 + 1, q, d);
    } else if q0 > q {
      MulMonotone(q + 1, q0, d);
    }
  }

  /** `Char.IsWhiteSpace`: the Unicode space, line and paragraph separators
      together with the control characters U+0009..U+000D and U+0085. */
  predicate IsWhiteSpace(c: char) {
    ('\U{0009}' <= c <= '\U{000D}') || c == '\U{0020}' || c == '\U{0085}' ||
    c == '\U{00A0}' || c == '\U{1680}' || ('\U{2000}' <= c <= '\U{200A}') ||
    c == '\U{2028}' || c == '\U{2029}' || c == '\U{202F}' || c == '\U{205F}' ||
    c == '\U{3000}'
  }

  /** `string.IsNullOrWhiteSpace` on a line read from a file (never null). */
  predicate IsBlank(s: string) {
    forall k :: 0 <= k < |s| ==> IsWhiteSpace(s[k])
  }

  /** What `StreamReader.ReadLine` returns when the cursor is at line `k`:
      the line, or `null` once the end of the file is reached. */
  function ReadAt(lines: seq<string>, k: int): (s: Option<string>)
    ensures s.Some? <==> 0 <= k < |lines|
  {
    if 0 <= k < |lines| then Some(lines[k]) else None
  }

  /** What `StreamWriter.WriteLine(string)` puts in the file: `null` is
      written as an empty line. */
  function Text(s: Option<string>): string {
    match s
    case Some(line) => line
    case None => ""
  }

  /** A fresh sequential scan of a file (`new StreamReader(path)`): the file
      is the sequence of its lines, `position` the number of ReadLine calls. */
  class LineReader {
    const lines: seq<string>
    var position: nat

    constructor (lines: seq<string>)
      ensures this.lines == lines && position == 0
    {
      this.lines := lines;
      position := 0;
    }

    method ReadLine() returns (s: Option<string>)
      modifies this
      ensures position == old(position) + 1
      ensures s == ReadAt(lines, old(position))
    {
      s := ReadAt(lines, position);
      position := position + 1;
    }
  }
}
