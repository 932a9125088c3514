// The variable-length integers of the history log: the writer's shortest two's-complement
// big-endian form (classes/history/history.c) and the reader's sign-extending loop
// (classes/history/hakit-history.c).
module IntCodec {

  type byte = b: int | 0 <= b < 256
  type int64 = v: int | -0x8000_0000_0000_0000 <= v < 0x8000_0000_0000_0000

  // 256^k
  function Pow(k: nat): (p: nat)
    ensures p > 0
  {
    if k == 0 then 1 else 256 * Pow(k - 1)
  }

  // The n low bytes of v in two's complement, most significant first.
  function Bytes(v: int, n: nat): (s: seq<byte>)
    ensures |s| == n
    decreases n
  {
    if n == 0 then [] else Bytes(v / 256, n - 1) + [v % 256]
  }

  // v shifted right by n bytes.
  function Top(v: int, n: nat): int
    decreases n
  {
    if n == 0 then v else Top(v / 256, n - 1)
  }

  // Bytes read most significant first, over a field of ones (neg) or zeros.
  function Signed(neg: bool, s: seq<byte>): int {
    if s == [] then (if neg then -1 else 0)
    else 256 * Signed(neg, s[..|s| - 1]) + s[|s| - 1]
  }

  // v is representable on n bytes.
  predicate InRange(v: int, n: nat)
    requires n >= 1
  {
    -128 * Pow(n - 1) <= v < 128 * Pow(n - 1)
  }

  // What the writer can emit: forms of one to seven bytes.
  predicate Fits(v: int) {
    -0x80_0000_0000_0000 <= v < 0x80_0000_0000_0000
  }

  // The least number of bytes, up to 7, that represents v; 0 when there is none.
  function Len(v: int): (n: nat)
    ensures n <= 7
    ensures n == 0 <==> !Fits(v)
    ensures n > 0 ==> InRange(v, n) && forall m :: 1 <= m < n ==> !InRange(v, m)
  {
    PowValues();
    if InRange(v, 1) then 1 else if InRange(v, 2) then 2 else if InRange(v, 3) then 3
    else if InRange(v, 4) then 4 else if InRange(v, 5) then 5 else if InRange(v, 6) then 6
    else if InRange(v, 7) then 7 else 0
  }

  lemma PowValues()
    ensures Pow(0) == 1 && Pow(1) == 0x100 && Pow(2) == 0x1_0000 && Pow(3) == 0x100_0000
    ensures Pow(4) == 0x1_0000_0000 && Pow(5) == 0x100_0000_0000 && Pow(6) == 0x1_0000_0000_0000
  {
    assert Pow(2) == 256 * Pow(1);
    assert Pow(4) == 256 * Pow(3) && Pow(3) == 256 * Pow(2);
    assert Pow(6) == 256 * Pow(5) && Pow(5) == 256 * Pow(4);
  }

  // The log entry for opcode op and value v, empty when v does not fit.
  function Entry(op: byte, v: int): seq<byte>
    requires op < 16
  {
    if Len(v) == 0 then [] else [op + 16 * (Len(v) - 1)] + Bytes(v, Len(v))
  }

  // Decoded value of an operand.
  function Value(s: seq<byte>): int
    requires |s| > 0
  {
    Signed(s[0] >= 128, s)
  }

  lemma {:induction false} SignedBytes(neg: bool, v: int, n: nat)
    requires Top(v, n) == if neg then -1 else 0
    ensures Signed(neg, Bytes(v, n)) == v
    decreases n
  {
    if n > 0 {
      SignedBytes(neg, v / 256, n - 1);
      assert Bytes(v, n)[..n - 1] == Bytes(v / 256, n - 1);
    }
  }

  lemma {:induction false} TopRange(v: int, n: nat)
    requires -128 * Pow(n) <= v < 128 * Pow(n)
    ensures -128 <= Top(v, n) < 128
    decreases n
  {
    if n > 0 {
      TopRange(v / 256, n - 1);
    }
  }

  lemma {:induction false} TopStep(v: int, n: nat)
    ensures Top(v, n + 1) == Top(v, n) / 256
    decreases n
  {
    if n > 0 {
      TopStep(v / 256, n - 1);
    }
  }

  lemma {:induction false} FirstByte(v: int, n: nat)
    requires n > 0
    ensures Bytes(v, n)[0] == Top(v, n - 1) % 256
    decreases n
  {
    if n > 1 {
      FirstByte(v / 256, n - 1);
    }
  }

  // Any n-byte form of a representable value reads back as that value.
  lemma RoundTrip(v: int, n: nat)
    requires n >= 1 && InRange(v, n)
    ensures Value(Bytes(v, n)) == v
  {
    TopRange(v, n - 1);
    TopStep(v, n - 1);
    FirstByte(v, n);
    SignedBytes(Top(v, n - 1) < 0, v, n);
  }

  // The writer emits a value, and then the shortest form of it, iff it fits 56 bits; what it
  // emits is read back unchanged.
  lemma EntryReadsBack(op: byte, v: int)
    requires op < 16
    ensures Entry(op, v) == [] <==> !Fits(v)
    ensures Fits(v) ==>
              var e := Entry(op, v);
              var n := e[0] / 16 + 1;
              && e[0] < 128 && e[0] % 16 == op && |e| == n + 1 && Value(e[1..]) == v
              && forall m :: 1 <= m < n ==> !InRange(v, m)
  {
    if Fits(v) {
      RoundTrip(v, Len(v));
      assert Entry(op, v)[1..] == Bytes(v, Len(v));
    }
  }

  lemma ConcatAssoc(a: seq<byte>, b: seq<byte>, c: seq<byte>)
    ensures a + b + c == a + (b + c)
  {
  }

  lemma EntryOfLen(op: byte, v: int, n: nat)
    requires op < 16 && 1 <= n <= 7 && InRange(v, n) && forall m :: 1 <= m < n ==> !InRange(v, m)
    ensures Entry(op, v) == [op + 16 * (n - 1)] + Bytes(v, n)
  {
    assert Len(v) == n;
  }

  lemma NoEntry(op: byte, v: int)
    requires op < 16 && forall m :: 1 <= m <= 7 ==> !InRange(v, m)
    ensures Entry(op, v) == []
  {
  }

  // The bounds the writer compares with for a form of n bytes. 1 << 63 is the most negative long
  // long, which is its own opposite: no value passes the test for 8 bytes.
  function Lim(n: nat): int
    requires 1 <= n <= 8
  {
    if n == 8 then -0x8000_0000_0000_0000 else 128 * Pow(n - 1)
  }

  function Low(n: nat): int
    requires 1 <= n <= 8
  {
    if n == 8 then Lim(n) else -Lim(n)
  }

  // The parts of an entry.
  lemma EntryParts(op: byte, v: int) returns (n: nat)
    requires op < 16 && Fits(v)
    ensures 1 <= n <= 7 && Entry(op, v) == [op + 16 * (n - 1)] + Bytes(v, n) && Value(Bytes(v, n)) == v
    ensures (op + 16 * (n - 1)) / 16 == n - 1 && (op + 16 * (n - 1)) % 16 == op && op + 16 * (n - 1) < 128
  {
    n := Len(v);
    RoundTrip(v, n);
  }

  // history_append_value
  method AppendValue(buf: seq<byte>, op: byte, value: int64) returns (r: seq<byte>)
    requires op < 16
    ensures r == buf + Entry(op, value)
  {
    var i := 0;
    while i < 8
      invariant 0 <= i <= 8
      invariant forall m :: 1 <= m <= i && m < 8 ==> !InRange(value, m)
    {
      var len := i + 1;
      if Low(len) <= value < Lim(len) {
        EntryOfLen(op, value, len);
        r := AppendForm(buf + [op + 16 * i], value, len);
        ConcatAssoc(buf, [op + 16 * i], Bytes(value, len));
        return;
      }
      i := i + 1;
    }
    NoEntry(op, value);
    r := buf;
  }

  // The inner loop of history_append_value: the value shifted right byte by byte.
  method AppendForm(buf: seq<byte>, value: int64, len: nat) returns (r: seq<byte>)
    ensures r == buf + Bytes(value, len)
  {
    r := buf;
    var j := 0;
    while j < len
      invariant 0 <= j <= len
      invariant r == buf + Bytes(value, len)[..j]
    {
      ByteAt(value, len, j);
      var c: byte := (value / Pow(len - j - 1)) % 256;
      r := r + [c];
      j := j + 1;
    }
  }

  lemma {:induction false} ByteAt(v: int, n: nat, j: nat)
    requires j < n
    ensures Bytes(v, n)[j] == (v / Pow(n - j - 1)) % 256
    decreases n
  {
    if j < n - 1 {
      ByteAt(v / 256, n - 1, j);
      DivPow(v, n - j - 2);
    }
  }

  lemma DivPow(v: int, k: nat)
    ensures (v / 256) / Pow(k) == v / Pow(k + 1)
  {
    var p := Pow(k);
    var q := v / 256;
    var a := q / p;
    assert q == a * p + q % p;
    assert v == 256 * (a * p + q % p) + v % 256;
    assert 256 * (a * p) == a * (256 * p);
    var r := 256 * (q % p) + v % 256;
    assert 0 <= r < 256 * p;
    DivUnique(v, 256 * p, a, r);
  }

  lemma {:induction false} MulLess(x: int, y: int, d: int)
    requires x < y && d > 0
    ensures x * d + d <= y * d
    decreases y - x
  {
    if x + 1 < y {
      MulLess(x, y - 1, d);
    }
    assert y * d == (y - 1) * d + d;
  }

  lemma DivUnique(v: int, d: int, a: int, r: int)
    requires d > 0 && v == a * d + r && 0 <= r < d
    ensures v / d == a
  {
    var b, m := v / d, v % d;
    assert v == b * d + m;
    if a < b {
      MulLess(a, b, d);
    } else if b < a {
      MulLess(b, a, d);
    }
  }

  // (value & ~(0xFF << 8k)) | (b << 8k) on two's-complement numbers: byte k is replaced by b.
  function SetByte(value: int, k: nat, b: byte): int {
    value + (b - (value / Pow(k)) % 256) * Pow(k)
  }

  // history_read_value: a field of sign bits, overwritten byte by byte.
  method ReadValue(buf: seq<byte>) returns (value: int)
    requires |buf| > 0
    ensures value == Value(buf)
  {
    ghost var neg := buf[0] >= 128;
    value := if buf[0] >= 128 then -1 else 0;
    var i := 0;
    while i < |buf|
      invariant 0 <= i <= |buf|
      invariant value == Filled(neg, buf[..i], |buf| - i)
    {
      FillOne(neg, buf[..i], |buf| - i, buf[i]);
      assert buf[..i + 1] == buf[..i] + [buf[i]];
      value := SetByte(value, |buf| - i - 1, buf[i]);
      i := i + 1;
    }
    assert buf[..i] == buf;
  }

  // The bytes s followed by k bytes still holding the sign.
  function Filled(neg: bool, s: seq<byte>, k: nat): int {
    Signed(neg, s) * Pow(k) + if neg then Pow(k) - 1 else 0
  }

  // The next byte to be read still holds the sign.
  lemma FilledSplit(neg: bool, s: seq<byte>, k: nat)
    requires k > 0
    ensures var f := if neg then 255 else 0;
            Filled(neg, s, k) == (256 * Signed(neg, s) + f) * Pow(k - 1) + if neg then Pow(k - 1) - 1 else 0
  {
    hide Signed;
    var p, x := Pow(k - 1), Signed(neg, s);
    assert Pow(k) == 256 * p;
    NextDigit(x, p, if neg then 255 else 0);
  }

  lemma NextDigit(x: int, p: int, f: int)
    ensures x * (256 * p) + f * p == (256 * x + f) * p
  {
  }

  // The digit f of v in base p, replaced by b.
  lemma Replaced(v: int, p: int, y: int, f: int, b: int, r: int)
    requires p > 0 && 0 <= r < p && v == (256 * y + f) * p + r && 0 <= f < 256
    ensures v + (b - (v / p) % 256) * p == (256 * y + b) * p + r
  {
    DivUnique(v, p, 256 * y + f, r);
    assert (256 * y + f) % 256 == f;
    NextDigit(y, p, f);
    NextDigit(y, p, b);
  }

  lemma FilledOneMore(neg: bool, s: seq<byte>, k: nat, b: byte)
    ensures Filled(neg, s + [b], k) == (256 * Signed(neg, s) + b) * Pow(k) + if neg then Pow(k) - 1 else 0
  {
    assert (s + [b])[..|s|] == s;
  }

  lemma FillOne(neg: bool, s: seq<byte>, k: nat, b: byte)
    requires k > 0
    ensures SetByte(Filled(neg, s, k), k - 1, b) == Filled(neg, s + [b], k - 1)
  {
    hide Signed, Pow, Filled;
    FilledSplit(neg, s, k);
    FilledOneMore(neg, s, k - 1, b);
    var p := Pow(k - 1);
    Replaced(Filled(neg, s, k), p, Signed(neg, s), if neg then 255 else 0, b, if neg then p - 1 else 0);
  }
}
