/**
 The two order-preserving texts of the Redis backend: the 20-digit offset-binary
 watermark of a schedule, and the ZSET member `<num>:<id>`.
 */
module Encoding {
  import opened Types

  /** Byte-wise string order, as Lua compares strings and Redis sorts members. */
  predicate Less(a: string, b: string) {
    && b != []
    && (|| a == []
        || a[0] < b[0]
        || (a[0] == b[0] && Less(a[1..], b[1..])))
  }

  function Digit(d: nat): char
    requires d < 10
  {
    '0' + d as char
  }

  predicate IsDigit(c: char) {
    '0' <= c <= '9'
  }

  function Pow10(w: nat): nat {
    if w == 0 then 1 else 10 * Pow10(w - 1)
  }

  /** The last `w` decimal digits of `n`, zero-padded. */
  function Pad(n: nat, w: nat): (s: string)
    ensures |s| == w
    ensures forall i :: 0 <= i < w ==> IsDigit(s[i])
  {
    if w == 0 then "" else Pad(n / 10, w - 1) + [Digit(n % 10)]
  }

  lemma {:induction false} LessLast(a: string, c: char, b: string, d: char)
    requires |a| == |b|
    ensures Less(a + [c], b + [d]) <==> Less(a, b) || (a == b && c < d)
  {
    if a == [] {
      assert a + [c] == [c] && b + [d] == [d];
      assert !Less([c][1..], [d][1..]);
    } else {
      LessLast(a[1..], c, b[1..], d);
      assert (a + [c])[1..] == a[1..] + [c] && (b + [d])[1..] == b[1..] + [d];
      assert a == [a[0]] + a[1..] && b == [b[0]] + b[1..];
    }
  }

  /** Padded texts compare as the numbers do. */
  lemma {:induction false} PadOrder(a: nat, b: nat, w: nat)
    requires a < Pow10(w) && b < Pow10(w)
    ensures Less(Pad(a, w), Pad(b, w)) <==> a < b
    ensures Pad(a, w) == Pad(b, w) <==> a == b
  {
    if w > 0 {
      PadOrder(a / 10, b / 10, w - 1);
      LessLast(Pad(a / 10, w - 1), Digit(a % 10), Pad(b / 10, w - 1), Digit(b % 10));
      var x, y := Pad(a, w), Pad(b, w);
      assert x[..w - 1] == Pad(a / 10, w - 1) && y[..w - 1] == Pad(b / 10, w - 1);
      assert x[w - 1] == Digit(a % 10) && y[w - 1] == Digit(b % 10);
      assert a == 10 * (a / 10) + a % 10 && b == 10 * (b / 10) + b % 10;
    }
  }

  // -------------------------------------------------------------- watermarks

  const I64_MIN: int := -0x8000_0000_0000_0000

  predicate IsI64(n: int) {
    I64_MIN <= n <= I64_MAX
  }

  /** `format!("{:020}", occurrence + 2^63)`. */
  function Watermark(n: int): string
    requires IsI64(n)
  {
    Pad(n - I64_MIN, 20)
  }

  lemma Pow20()
    ensures Pow10(20) == 100_000_000_000_000_000_000
  {
    assert Pow10(4) == 10_000;
    assert Pow10(8) == 100_000_000;
    assert Pow10(12) == 1_000_000_000_000;
    assert Pow10(16) == 10_000_000_000_000_000;
  }

  /** For all `i64` values, watermark texts compare as the occurrences do, and tell them apart. */
  lemma WatermarkOrder(a: int, b: int)
    requires IsI64(a) && IsI64(b)
    ensures Less(Watermark(a), Watermark(b)) <==> a < b
    ensures Watermark(a) == Watermark(b) <==> a == b
  {
    Pow20();
    PadOrder(a - I64_MIN, b - I64_MIN, 20);
  }

  // ----------------------------------------------------------------- members

  /** The ZSET member: the padded sequence number, a colon, the id. */
  function FifoMember(num: nat, id: string): string {
    Pad(num, 20) + ":" + id
  }

  function LeadingDigits(t: string): (n: nat)
    ensures n <= |t|
    ensures forall i :: 0 <= i < n ==> IsDigit(t[i])
    ensures n < |t| ==> !IsDigit(t[n])
  {
    if t == [] || !IsDigit(t[0]) then 0 else 1 + LeadingDigits(t[1..])
  }

  /** What the pattern `^%d+:(.+)$` captures. */
  function FifoId(t: string): Option<string> {
    var n := LeadingDigits(t);
    if 0 < n && n + 1 < |t| && t[n] == ':' then Some(t[n + 1..]) else None
  }

  /** The member gives its id back, whatever characters the id holds. */
  lemma FifoIdInverts(num: nat, id: string)
    requires id != []
    ensures FifoId(FifoMember(num, id)) == Some(id)
  {
    var t := FifoMember(num, id);
    assert t[..20] == Pad(num, 20) && t[20] == ':' && t[21..] == id;
    assert LeadingDigits(t) == 20;
  }

  lemma {:induction false} LessPrefix(a: string, b: string, x: string, y: string)
    requires |a| == |b|
    ensures Less(a + x, b + y) <==> Less(a, b) || (a == b && Less(x, y))
  {
    if a == [] {
      assert a + x == x && b + y == y;
    } else {
      LessPrefix(a[1..], b[1..], x, y);
      assert (a + x)[1..] == a[1..] + x && (b + y)[1..] == b[1..] + y;
      assert a == [a[0]] + a[1..] && b == [b[0]] + b[1..];
    }
  }

  lemma ColonOrder(p: string, q: string, x: string, y: string)
    requires |p| == |q|
    ensures Less(p + ":" + x, q + ":" + y) <==> Less(p, q) || (p == q && Less(x, y))
  {
    LessPrefix(p, q, ":" + x, ":" + y);
    LessPrefix(":", ":", x, y);
    assert p + ":" + x == p + (":" + x) && q + ":" + y == q + (":" + y);
  }

  /** Members sort by sequence number; the id decides only between equal numbers. */
  lemma FifoOrder(m: nat, x: string, n: nat, y: string)
    requires m < Pow10(20) && n < Pow10(20)
    ensures m < n ==> Less(FifoMember(m, x), FifoMember(n, y))
    ensures m == n ==> (Less(FifoMember(m, x), FifoMember(n, y)) <==> Less(x, y))
  {
    PadOrder(m, n, 20);
    ColonOrder(Pad(m, 20), Pad(n, 20), x, y);
  }
}
