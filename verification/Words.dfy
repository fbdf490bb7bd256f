/** Machine words: bytes, 32-bit integers and the byte orders used in the bytecode. */
module Words {

  datatype Option<+T> = None | Some(value: T)

  type byte = x: int | 0 <= x < 256

  type int32 = x: int | -0x8000_0000 <= x < 0x8000_0000

  const INT32_MIN: int32 := -0x8000_0000

  /** Two's-complement wrap-around of a 32-bit result. */
  function Wrap(x: int): int32 {
    (x + 0x8000_0000) % 0x1_0000_0000 - 0x8000_0000
  }

  /** C division: the quotient is truncated towards zero. */
  function TruncDiv(a: int, b: int): int
    requires b != 0
  {
    if a >= 0 then a / b else -((-a) / b)
  }

  /** The two operand bytes of a jump or call, high byte first. */
  function Be16(n: nat): seq<byte>
    requires n < 0x1_0000
  {
    [n / 0x100, n % 0x100]
  }

  function FromBe16(hi: byte, lo: byte): (n: nat)
    ensures n < 0x1_0000
  {
    hi * 0x100 + lo
  }

  lemma Be16RoundTrip(n: nat)
    requires n < 0x1_0000
    ensures FromBe16(Be16(n)[0], Be16(n)[1]) == n
  {
  }

  /** `htobe32` of the unsigned image of a signed word. */
  function Be32(v: int32): (bs: seq<byte>)
    ensures |bs| == 4
  {
    var u := if v < 0 then v + 0x1_0000_0000 else v;
    [u / 0x100_0000, u / 0x1_0000 % 0x100, u / 0x100 % 0x100, u % 0x100]
  }

  function FromBe32(b0: byte, b1: byte, b2: byte, b3: byte): int32 {
    var u := ((b0 * 0x100 + b1) * 0x100 + b2) * 0x100 + b3;
    if u >= 0x8000_0000 then u - 0x1_0000_0000 else u
  }

  lemma Be32RoundTrip(v: int32)
    ensures var b := Be32(v); FromBe32(b[0], b[1], b[2], b[3]) == v
  {
    var u := if v < 0 then v + 0x1_0000_0000 else v;
    assert u == u / 0x100 * 0x100 + u % 0x100;
    assert u / 0x100 == u / 0x100 / 0x100 * 0x100 + u / 0x100 % 0x100;
    assert u / 0x100 / 0x100 == u / 0x1_0000;
    assert u / 0x1_0000 == u / 0x1_0000 / 0x100 * 0x100 + u / 0x1_0000 % 0x100;
    assert u / 0x1_0000 / 0x100 == u / 0x100_0000;
  }

  // ---- remainders ----

  lemma ModOf(q: nat, n: nat, r: nat)
    requires r < n
    ensures (q * n + r) % n == r
  {
    var x := q * n + r;
    var p, m := x / n, x % n;
    assert (p - q) * n == r - m && (q - p) * n == m - r;
    if p > q { AtLeast(p - q, n); }
    if p < q { AtLeast(q - p, n); }
  }

  lemma AtLeast(a: int, b: nat)
    requires a >= 1
    ensures a * b >= b
  {
  }

  // ---- byte strings in pieces ----

  function Flat(chunks: seq<seq<byte>>): seq<byte> {
    if chunks == [] then [] else chunks[0] + Flat(chunks[1..])
  }

  lemma {:induction false} FlatAppend(a: seq<seq<byte>>, b: seq<seq<byte>>)
    ensures Flat(a + b) == Flat(a) + Flat(b)
  {
    if a == [] {
      assert a + b == b;
    } else {
      assert (a + b)[1..] == a[1..] + b;
      FlatAppend(a[1..], b);
    }
  }

  lemma FlatSnoc(a: seq<seq<byte>>, c: seq<byte>)
    ensures Flat(a + [c]) == Flat(a) + c
  {
    FlatAppend(a, [c]);
    assert Flat([c]) == c + Flat([]);
  }
}
