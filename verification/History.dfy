// The history log: what the writer (classes/history/history.c) puts in a file, and what the
// reader makes of it.
module History {
  import opened IntCodec
  import opened HistoryReader

  // What time() returns: seconds, or -1.
  type instant = t: int | -1 <= t < 0x4000_0000_0000_0000

  type int32 = v: int | -0x8000_0000 <= v < 0x8000_0000

  const CLOCK: int := 0x80_0000_0000_0000   // times stay below 2^55

  // One call of history_feed: a signal, its value as text, the time it was called.
  datatype Fed = Fed(id: int32, value: seq<byte>, now: int)

  predicate IsDigits(s: seq<byte>) {
    forall k :: 0 <= k < |s| ==> 48 <= s[k] <= 57
  }

  // strtoll without its upper limit
  function Number(s: seq<byte>): (n: nat)
    requires IsDigits(s)
  {
    if s == [] then 0 else 10 * Number(s[..|s| - 1]) + (s[|s| - 1] - 48)
  }

  // The decimal form of n: its digits by division, in ASCII, after any number of zeros.
  function Decimal(n: nat): seq<byte> {
    if n < 10 then [48 + n] else Decimal(n / 10) + [48 + n % 10]
  }

  function Zeros(z: nat): seq<byte> {
    seq(z, _ => 48)
  }

  // Decimal forms are digits, and are read as their number.
  lemma {:induction false} NumberOfDecimal(z: nat, n: nat)
    ensures IsDigits(Zeros(z) + Decimal(n)) && Number(Zeros(z) + Decimal(n)) == n
    decreases n
  {
    var s := Zeros(z) + Decimal(n);
    assert s == s[..|s| - 1] + [48 + n % 10];
    if n < 10 {
      assert s[..|s| - 1] == Zeros(z);
      NumberOfZeros(z);
    } else {
      NumberOfDecimal(z, n / 10);
      assert s[..|s| - 1] == Zeros(z) + Decimal(n / 10);
    }
  }

  lemma {:induction false} NumberOfZeros(z: nat)
    ensures Number(Zeros(z)) == 0
  {
    if z > 0 {
      NumberOfZeros(z - 1);
      assert Zeros(z)[..z - 1] == Zeros(z - 1);
    }
  }

  // There are no other digits: a text is one of these exactly if it is not empty and all its
  // characters are digits.
  lemma {:induction false} DigitsIff(s: seq<byte>)
    ensures s != [] && IsDigits(s) <==> exists z, n: nat :: s == Zeros(z) + Decimal(n)
    decreases |s|
  {
    if s != [] && IsDigits(s) {
      var z := DecimalOf(s);
    }
    forall z, n: nat | s == Zeros(z) + Decimal(n) ensures s != [] && IsDigits(s) {
      NumberOfDecimal(z, n);
    }
  }

  lemma {:induction false} DecimalOf(s: seq<byte>) returns (z: nat)
    requires s != [] && IsDigits(s)
    ensures s == Zeros(z) + Decimal(Number(s))
    decreases |s|
  {
    var f, d := s[..|s| - 1], s[|s| - 1] - 48;
    z := 0;
    if f == [] {
      assert s == Zeros(0) + [48 + d];
    } else {
      z := DecimalOf(f);
      assert s == f + [48 + d];
      if Number(f) == 0 {
        assert f == Zeros(z + 1);
        z := z + 1;
        assert Decimal(Number(s)) == [48 + d];
      } else {
        assert Number(s) / 10 == Number(f) && Number(s) % 10 == d;
        assert Decimal(Number(s)) == Decimal(Number(f)) + [48 + d];
      }
    }
  }

  function StrToLL(s: seq<byte>): (n: int64)
    requires IsDigits(s)
    ensures Fits(n) <==> Fits(Number(s))
    ensures Fits(n) ==> n == Number(s)
  {
    if Number(s) > 0x7FFF_FFFF_FFFF_FFFF then 0x7FFF_FFFF_FFFF_FFFF else Number(s)
  }

  // ---------------------------------------------------------------- what the reader gets back

  function LastTime(t0: int, fed: seq<Fed>): int {
    if fed == [] then t0 else fed[|fed| - 1].now
  }

  // How far the reader's clock moves when the writer's moves by dt: a step back wraps modulo 64.
  function Advance(dt: int): int {
    if dt < 64 then dt % 64 else dt
  }

  // How far the reader's clock is ahead of the writer's.
  function Drift(t0: int, fed: seq<Fed>): int {
    if fed == [] then 0
    else
      var p := fed[..|fed| - 1];
      var dt := fed[|fed| - 1].now - LastTime(t0, p);
      Drift(t0, p) + Advance(dt) - dt
  }

  // The line printed for one call, if any: a number that does not fit leaves none, a text loses
  // its first byte.
  function Line(syms: seq<Sym>, f: Fed, drift: int): seq<Rec> {
    if !IsDigits(f.value) then [Rec(f.now + drift, FindSym(syms, f.id), Str(f.value[1..]))]
    else if Fits(Number(f.value)) then [Rec(f.now + drift, FindSym(syms, f.id), Int(Number(f.value)))]
    else []
  }

  function Recovered(syms: seq<Sym>, t0: int, fed: seq<Fed>): seq<Rec> {
    if fed == [] then []
    else Recovered(syms, t0, fed[..|fed| - 1]) + Line(syms, fed[|fed| - 1], Drift(t0, fed))
  }

  // What one would want back: every call, at its time, with its number, or its text less one byte.
  function Wanted(syms: seq<Sym>, fed: seq<Fed>): (r: seq<Rec>)
    ensures |r| == |fed|
  {
    if fed == [] then []
    else
      var f := fed[|fed| - 1];
      Wanted(syms, fed[..|fed| - 1]) +
        [Rec(f.now, FindSym(syms, f.id), if IsDigits(f.value) then Int(Number(f.value)) else Str(f.value[1..]))]
  }

  // Numbers below 2^55, and a clock that never goes back.
  predicate Faithful(t0: int, fed: seq<Fed>) {
    fed == [] ||
    (var p, f := fed[..|fed| - 1], fed[|fed| - 1];
     && Faithful(t0, p) && f.now >= LastTime(t0, p)
     && (IsDigits(f.value) ==> Fits(Number(f.value))))
  }

  lemma NothingFed(syms: seq<Sym>, t0: int)
    ensures Recovered(syms, t0, []) == [] && Drift(t0, []) == 0
  {
  }

  lemma FedOneMore(syms: seq<Sym>, t0: int, fed: seq<Fed>, f: Fed)
    ensures var all := fed + [f];
            var dt := f.now - LastTime(t0, fed);
            && LastTime(t0, all) == f.now && Drift(t0, all) == Drift(t0, fed) + Advance(dt) - dt
            && Recovered(syms, t0, all) == Recovered(syms, t0, fed) + Line(syms, f, Drift(t0, all))
  {
    assert (fed + [f])[..|fed|] == fed;
  }

  lemma {:induction false} DriftSigns(t0: int, fed: seq<Fed>)
    ensures Drift(t0, fed) >= 0
    ensures Faithful(t0, fed) ==> Drift(t0, fed) == 0
  {
    if fed != [] {
      DriftSigns(t0, fed[..|fed| - 1]);
    }
  }

  lemma {:induction false} RecoveredLen(syms: seq<Sym>, t0: int, fed: seq<Fed>)
    ensures |Recovered(syms, t0, fed)| <= |fed|
  {
    if fed != [] {
      RecoveredLen(syms, t0, fed[..|fed| - 1]);
    }
  }

  // The reader recovers every call exactly when all numbers fit and the clock never went back.
  lemma {:induction false} RecoversIff(syms: seq<Sym>, t0: int, fed: seq<Fed>)
    ensures Recovered(syms, t0, fed) == Wanted(syms, fed) <==> Faithful(t0, fed)
  {
    if fed != [] {
      var p, f := fed[..|fed| - 1], fed[|fed| - 1];
      RecoversIff(syms, t0, p);
      RecoveredLen(syms, t0, p);
      DriftSigns(t0, p);
      var r, w := Recovered(syms, t0, p), Wanted(syms, p);
      var line := Line(syms, f, Drift(t0, fed));
      var want := Rec(f.now, FindSym(syms, f.id), if IsDigits(f.value) then Int(Number(f.value)) else Str(f.value[1..]));
      if r + line == w + [want] {
        assert |line| == 1 && |r| == |w|;
        assert r == (r + line)[..|r|] == (w + [want])[..|w|] == w;
        assert line[0] == (r + line)[|r|] == (w + [want])[|w|] == want;
      }
    }
  }

  function LastId(syms: seq<Sym>): int {
    if syms == [] then -1 else syms[|syms| - 1].id
  }

  // A signal with a new id is found under that id.
  lemma {:induction false} FindLast(syms: seq<Sym>, s: Sym)
    requires FindSym(syms, s.id) == NoSym
    ensures FindSym(syms + [s], s.id) == IsSym(s)
  {
    if syms != [] {
      assert (syms + [s])[1..] == syms[1..] + [s];
      FindLast(syms[1..], s);
    }
  }

  // The line of a decimal number is that number, unless it takes more than 55 bits.
  lemma LineOfDecimal(syms: seq<Sym>, f: Fed, drift: int, z: nat, n: nat)
    requires f.value == Zeros(z) + Decimal(n)
    ensures Line(syms, f, drift) ==
            if n < 0x80_0000_0000_0000 then [Rec(f.now + drift, FindSym(syms, f.id), Int(n))] else []
  {
    NumberOfDecimal(z, n);
  }

  // A faithful log gives back every call at its time, with the number its text stands for, or the
  // text less its first byte.
  lemma EachRecovered(syms: seq<Sym>, t0: int, fed: seq<Fed>, k: nat)
    requires Faithful(t0, fed) && k < |fed|
    ensures |Recovered(syms, t0, fed)| == |fed|
    ensures var r, v := Recovered(syms, t0, fed)[k], fed[k].value;
            && r.t == fed[k].now && r.sym == FindSym(syms, fed[k].id)
            && (forall z, n: nat :: v == Zeros(z) + Decimal(n) ==> r.val == Int(n) && n < 0x80_0000_0000_0000)
            && ((exists j :: 0 <= j < |v| && !(48 <= v[j] <= 57)) ==> r.val == Str(v[1..]))
  {
    RecoversIff(syms, t0, fed);
    WantedAt(syms, t0, fed, k);
    forall z, n: nat | fed[k].value == Zeros(z) + Decimal(n)
      ensures Recovered(syms, t0, fed)[k].val == Int(n) && n < 0x80_0000_0000_0000
    {
      NumberOfDecimal(z, n);
    }
  }

  lemma {:induction false} WantedAt(syms: seq<Sym>, t0: int, fed: seq<Fed>, k: nat)
    requires k < |fed|
    ensures var f := fed[k];
            Wanted(syms, fed)[k] ==
            Rec(f.now, FindSym(syms, f.id), if IsDigits(f.value) then Int(Number(f.value)) else Str(f.value[1..]))
    ensures Faithful(t0, fed) && IsDigits(fed[k].value) ==> Fits(Number(fed[k].value))
    decreases |fed|
  {
    if k < |fed| - 1 {
      WantedAt(syms, t0, fed[..|fed| - 1], k);
    }
  }

  // ---------------------------------------------------------------- single log entries

  lemma RunNumber(op: byte, v: int, st: State)
    requires 1 <= op <= 4 && Fits(v)
    ensures Run(Entry(op, v), st) == Result(true, Numeric(op, v, st).0, Numeric(op, v, st).1)
  {
    hide Entry, Value, Len;
    var n := EntryParts(op, v);
    var e := Entry(op, v);
    assert e[0] / 16 + 1 == n && e[0] % 16 == op;
    assert e[1..n + 1] == Bytes(v, n);
    assert e[n + 1..] == [];
    RunOne(e, st);
  }

  lemma IdKept(id: int32)
    ensures ToInt(id) == id
  {
  }

  lemma RunDeclare(id: int32, name: seq<byte>, st: State)
    requires 0 !in name
    ensures var sym := Sym(id, name);
            Run(Entry(0, id) + name + [0], st) == Result(true, st.(syms := st.syms + [sym], cur := IsSym(sym)), [])
  {
    hide Entry, Value, Len, ToInt;
    assert ToInt(id) == id by {
      IdKept(id);
    }
    var n := EntryParts(0, id);
    var e, z := Entry(0, id), name + [0];
    var s := e + z;
    ConcatAssoc(e, name, [0]);
    assert s[0] / 16 + 1 == n && s[0] % 16 == 0;
    assert s[1..n + 1] == Bytes(id, n);
    assert s[n + 1..] == z;
    assert z == name + [0] + [];
    ReadStrFront(name, []);
    RunOne(s, st);
  }

  lemma RunText(text: seq<byte>, st: State)
    requires text != [] && 0 !in text
    ensures Run([5] + text + [0], st) == Result(true, st, [Rec(st.t, st.cur, Str(text[1..]))])
  {
    var s := [5] + text + [0];
    assert s[2..] == text[1..] + [0] + [];
    ReadStrFront(text[1..], []);
    RunOne(s, st);
  }

  lemma RunShort(b: byte, st: State)
    requires b >= 0x80
    ensures Run([b], st) == Result(true, if b >= 0xC0 then st.(t := st.t + b % 64) else st,
                                   if b >= 0xC0 then [] else [Rec(st.t, st.cur, Int(b % 64))])
  {
    RunOne([b], st);
  }

  // ---------------------------------------------------------------- the writer

  function SelectBytes(current: int, id: int): seq<byte> {
    if id != current then Entry(1, id) else []
  }

  // (0xC0 | dt) cut to a byte keeps the low six bits of dt, whatever its sign.
  function TimeBytes(dt: int): seq<byte> {
    if dt == 0 then [] else if dt < 64 then [0xC0 + dt % 64] else Entry(3, dt)
  }

  function NumberBytes(v: int): seq<byte> {
    if -32 <= v < 31 then [0x80 + v % 128] else Entry(4, v)
  }

  function ValueBytes(value: seq<byte>): seq<byte> {
    if IsDigits(value) then NumberBytes(StrToLL(value)) else [5] + value + [0]
  }

  // The bytes themselves: in the first, the operation in the low four bits and the length of its
  // operand, less one, in the next three; the operand most significant byte first.
  lemma EntryLayout(op: byte, v: nat)
    requires op < 16
    ensures v < 0x80 ==> Entry(op, v) == [op, v]
    ensures 0x80 <= v < 0x8000 ==> Entry(op, v) == [op + 0x10, v / 0x100, v % 0x100]
  {
    PowValues();
    if v < 0x80 {
      assert Bytes(v, 1) == Bytes(v / 256, 0) + [v % 256] == [v];
      EntryOfLen(op, v, 1);
    } else if v < 0x8000 {
      assert Bytes(v / 256, 1) == Bytes(v / 256 / 256, 0) + [v / 256];
      assert Bytes(v, 2) == Bytes(v / 256, 1) + [v % 256];
      EntryOfLen(op, v, 2);
    }
  }

  // Bit 7 marks the short forms, bit 6 a short time.
  lemma Layout(v: nat)
    ensures SelectBytes(v, v) == TimeBytes(0) == []
    ensures 0 < v < 0x80 ==> SelectBytes(0, v) == [0x01, v]
    ensures 0 < v < 64 ==> TimeBytes(v) == [0xC0 + v]
    ensures 64 <= v < 0x80 ==> TimeBytes(v) == [0x03, v]
    ensures v < 31 ==> NumberBytes(v) == [0x80 + v]
    ensures 31 <= v < 0x80 ==> NumberBytes(v) == [0x04, v]
    ensures ValueBytes([97, v % 256]) == [0x05, 97, v % 256, 0x00]
  {
    hide Entry;
    EntryLayout(1, v);
    EntryLayout(3, v);
    EntryLayout(4, v);
    var text: seq<byte> := [97, v % 256];
    assert text[0] == 97;
  }

  // What one call appends is read as the line wanted for it, in lockstep with the writer.
  lemma RunFeed(syms: seq<Sym>, current: int, t: int, drift: int, f: Fed)
    requires FindSym(syms, f.id).IsSym? && 0 !in f.value
    requires 0 <= t < CLOCK && 0 <= f.now < CLOCK
    ensures var cur := FindSym(syms, current);
            var dt := f.now - t;
            var drift' := drift + Advance(dt) - dt;
            Run(SelectBytes(current, f.id) + TimeBytes(dt) + ValueBytes(f.value), State(t + drift, syms, cur))
            == Result(true, State(f.now + drift', syms, FindSym(syms, f.id)), Line(syms, f, drift'))
  {
    hide Run, SelectBytes, TimeBytes, ValueBytes, Number, IsDigits, FindSym, Advance;
    var st := State(t + drift, syms, FindSym(syms, current));
    var a, b, c := SelectBytes(current, f.id), TimeBytes(f.now - t), ValueBytes(f.value);
    RunSelect(current, f.id, st);
    var st1 := st.(cur := FindSym(syms, f.id));
    RunTime(f.now - t, st1);
    var st2 := st1.(t := st1.t + Advance(f.now - t));
    RunValue(f.value, st2);
    RunAppend(a, b, st);
    RunAppend(a + b, c, st);
  }

  lemma RunSelect(current: int, id: int32, st: State)
    requires FindSym(st.syms, id).IsSym? && st.cur == FindSym(st.syms, current)
    ensures Run(SelectBytes(current, id), st) == Result(true, st.(cur := FindSym(st.syms, id)), [])
  {
    hide Next, Entry, FindSym;
    if id != current {
      RunNumber(1, id, st);
    }
  }

  lemma RunTime(dt: int, st: State)
    requires dt < CLOCK
    ensures Run(TimeBytes(dt), st) == Result(true, st.(t := st.t + Advance(dt)), [])
  {
    hide Next, Entry;
    if dt == 0 {
    } else if dt < 64 {
      RunShort(0xC0 + dt % 64, st);
    } else {
      RunNumber(3, dt, st);
    }
  }

  lemma RunDigits(v: int, st: State)
    requires v >= 0
    ensures Run(NumberBytes(v), st) == Result(true, st, if Fits(v) then [Rec(st.t, st.cur, Int(v))] else [])
  {
    hide Next, Entry;
    if v < 31 {
      RunShort(0x80 + v % 128, st);
    } else if Fits(v) {
      RunNumber(4, v, st);
    } else {
      EntryReadsBack(4, v);
    }
  }

  lemma RunValue(value: seq<byte>, st: State)
    requires 0 !in value
    ensures Run(ValueBytes(value), st) == Result(true, st,
              if !IsDigits(value) then [Rec(st.t, st.cur, Str(value[1..]))]
              else if Fits(Number(value)) then [Rec(st.t, st.cur, Int(Number(value)))]
              else [])
  {
    hide Next, Entry, Number;
    if !IsDigits(value) {
      RunText(value, st);
    } else {
      RunDigits(StrToLL(value), st);
    }
  }

  lemma FrontKept(a: seq<byte>, b: seq<byte>, n: nat)
    requires n <= |a| <= |b| && b[..|a|] == a
    ensures b[..n] == a[..n]
  {
    assert b[..n] == b[..|a|][..n];
  }

  // The bucket with one more call in it.
  lemma FeedKeeps(b: seq<byte>, st: State, syms: seq<Sym>, t0: int, fed: seq<Fed>, cur: int, f: Fed)
    requires FindSym(syms, f.id).IsSym? && 0 !in f.value
    requires var last := LastTime(t0, fed); 0 <= last < CLOCK && 0 <= f.now < CLOCK
    requires Run(b, st) == Result(true, State(LastTime(t0, fed) + Drift(t0, fed), syms, FindSym(syms, cur)),
                                  Recovered(syms, t0, fed))
    ensures Run(b + SelectBytes(cur, f.id) + TimeBytes(f.now - LastTime(t0, fed)) + ValueBytes(f.value), st)
         == Result(true, State(f.now + Drift(t0, fed + [f]), syms, FindSym(syms, f.id)),
                   Recovered(syms, t0, fed + [f]))
    ensures LastTime(t0, fed + [f]) == f.now
  {
    hide Run, Entry, Drift, Recovered, Line, LastTime, FindSym, Advance, SelectBytes, TimeBytes, ValueBytes;
    var last := LastTime(t0, fed);
    var a, d, c := SelectBytes(cur, f.id), TimeBytes(f.now - last), ValueBytes(f.value);
    ConcatAssoc(b, a, d);
    ConcatAssoc(b, a + d, c);
    RunFeed(syms, cur, last, Drift(t0, fed), f);
    RunAppend(b, a + d + c, st);
    FedOneMore(syms, t0, fed, f);
  }

  // What the file becomes when the rest of the bucket is written, after the header if it is the first time.
  lemma Completed(file: seq<byte>, hdr: seq<byte>, buf: seq<byte>, n: nat)
    requires n <= |buf|
    ensures var all := file + (if n == 0 && buf != [] then hdr else []) + buf[n..];
            && (n == |buf| ==> all == file)
            && (n == 0 && buf != [] ==> all == file + hdr + buf[n..])
            && (n > 0 ==> all == file + buf[n..])
            && (buf != [] && file == (if n == 0 then [] else hdr + buf[..n]) ==> all == hdr + buf)
    ensures buf[..|buf|] == buf
  {
    assert buf[..n] + buf[n..] == buf;
    assert hdr + buf[..n] + buf[n..] == hdr + (buf[..n] + buf[n..]);
  }

  class History {
    var hdr: seq<byte>       // signal declarations
    var buf: seq<byte>       // the bucket
    var fpos: nat            // how much of the bucket is in the file
    var t: instant
    var currentId: int
    var file: seq<byte>
    ghost var t0: int
    ghost var syms: seq<Sym>
    ghost var fed: seq<Fed>
    // The calls so far: distinct signals declared before the first feed and the first flush, feeds
    // of declared signals only, no NUL inside texts, times in [0, 2^55).
    ghost var proper: bool

    // Writer and reader in lockstep: reading the declarations, then the bucket, leaves the reader
    // with the writer's current signal, and with its time up to the drift.
    ghost predicate Valid()
      reads this
    {
      && fpos <= |buf|
      && (proper ==>
            && Run(hdr, INIT) == Result(true, State(0, syms, FindSym(syms, LastId(syms))), [])
            && Run(buf, State(0, syms, FindSym(syms, LastId(syms))))
               == Result(true, State(t + Drift(t0, fed), syms, FindSym(syms, currentId)), Recovered(syms, t0, fed))
            && t == LastTime(t0, fed) && 0 <= t < CLOCK && 0 <= t0 < CLOCK
            && (fed == [] ==> buf == Entry(2, t0) && currentId == LastId(syms)) && buf != []
            && (forall k :: 0 <= k < |syms| ==> 0 <= syms[k].id)
            && file == if fpos == 0 then [] else hdr + buf[..fpos])
    }

    // history_init and history_bucket_start
    constructor (now: instant)
      ensures Valid() && t0 == now && syms == [] && fed == []
      ensures proper == (0 <= now < CLOCK)
    {
      hdr, fpos, currentId, t, file := [], 0, -1, now, [];
      var b := AppendValue([], 2, now);
      buf := b;
      t0, syms, fed := now, [], [];
      proper := 0 <= now < CLOCK;
      new;
      assert [] + Entry(2, now) == Entry(2, now);
      if proper {
        RunNumber(2, now, INIT);
      }
    }

    // history_signal_declare
    method Declare(id: int32, name: seq<byte>)
      requires Valid()
      modifies this
      ensures Valid() && fed == old(fed) && t0 == old(t0) && syms == old(syms) + [Sym(id, name)]
      ensures hdr == old(hdr) + Entry(0, id) + name + [0] && currentId == id
      ensures buf == old(buf) && fpos == old(fpos) && t == old(t) && file == old(file)
      ensures proper == (old(proper) && old(fed) == [] && old(fpos) == 0 && 0 <= id && 0 !in name
                         && FindSym(old(syms), id) == NoSym)
    {
      hide Run, Entry, FindSym, Recovered, Drift;
      ghost var h := hdr;
      var e := AppendValue(hdr, 0, id);
      hdr := e + name + [0];
      currentId := id;
      proper := proper && fed == [] && fpos == 0 && 0 <= id && 0 !in name && FindSym(syms, id) == NoSym;
      syms := syms + [Sym(id, name)];
      if proper {
        ghost var st := State(0, old(syms), FindSym(old(syms), LastId(old(syms))));
        assert hdr == h + (Entry(0, id) + name + [0]);
        RunDeclare(id, name, st);
        RunAppend(h, Entry(0, id) + name + [0], INIT);
        FindLast(old(syms), Sym(id, name));
        RunNumber(2, t0, State(0, syms, FindSym(syms, id)));
        NothingFed(syms, t0);
      }
    }

    // history_select
    method Select(id: int32, now: instant)
      modifies this`buf, this`t, this`currentId
      ensures buf == old(buf) + SelectBytes(old(currentId), id) + TimeBytes(now - old(t))
      ensures t == now && currentId == id
    {
      if id != currentId {
        currentId := id;
        buf := AppendValue(buf, 1, id);
      } else {
        assert buf == buf + [];
      }
      if now != t {
        var dt := now - t;
        t := now;
        if dt < 64 {
          buf := buf + [0xC0 + dt % 64];
        } else {
          buf := AppendValue(buf, 3, dt);
        }
      }
    }

    // history_feed_str
    method FeedStr(value: seq<byte>)
      modifies this`buf
      ensures buf == old(buf) + ([5] + value + [0])
    {
      buf := buf + [5];
      buf := buf + value + [0];
    }

    // history_feed_int
    method FeedInt(value: int64)
      modifies this`buf
      ensures buf == old(buf) + NumberBytes(value)
    {
      if -32 <= value < 31 {
        buf := buf + [0x80 + value % 128];
      } else {
        buf := AppendValue(buf, 4, value);
      }
    }

    // The value part of history_feed: digits, even none, are logged as a number.
    method FeedValue(value: seq<byte>)
      modifies this`buf
      ensures buf == old(buf) + ValueBytes(value)
    {
      hide Number, Entry;
      var k := 0;
      while k < |value| && 48 <= value[k] <= 57
        invariant 0 <= k <= |value| && IsDigits(value[..k])
      {
        k := k + 1;
      }
      if k == |value| {
        assert value[..k] == value;
        FeedInt(StrToLL(value));
      } else {
        assert !IsDigits(value);
        FeedStr(value);
      }
    }

    // history_feed. The rotation test looks at a static object that is never fed, so that the
    // bucket never changes.
    method Feed(id: int32, value: seq<byte>, now: instant)
      requires Valid()
      modifies this`buf, this`t, this`currentId, this`fed, this`proper
      ensures Valid() && fed == old(fed) + [Fed(id, value, now)] && t == now && currentId == id
      ensures buf == old(buf) + SelectBytes(old(currentId), id) + TimeBytes(now - old(t)) + ValueBytes(value)
      ensures proper == (old(proper) && FindSym(syms, id).IsSym? && 0 !in value && 0 <= now < CLOCK)
    {
      hide Run, Entry, Drift, Recovered, LastTime, FindSym, SelectBytes, TimeBytes, ValueBytes;
      ghost var b, cur, last := buf, currentId, t;
      ghost var f := Fed(id, value, now);
      Select(id, now);
      FeedValue(value);
      proper := proper && FindSym(syms, id).IsSym? && 0 !in value && 0 <= now < CLOCK;
      fed := fed + [f];
      if proper {
        FeedKeeps(b, State(0, syms, FindSym(syms, LastId(syms))), syms, t0, old(fed), cur, f);
        FrontKept(b, buf, fpos);
      }
    }

    // history_bucket_flush, when the file could be opened and written. Once a proper log is
    // flushed, the file is the declarations followed by the bucket, and reads back as Recovered.
    method Flush()
      requires Valid()
      modifies this`fpos, this`file
      ensures Valid() && fpos == |buf|
      ensures file == old(file) + (if old(fpos) == 0 && buf != [] then hdr else []) + buf[old(fpos)..]
      ensures proper ==> fpos == |buf| && file == hdr + buf
      ensures proper ==> Run(file, INIT).ok && Run(file, INIT).out == Recovered(syms, t0, fed)
    {
      hide Run, Entry, Drift, Recovered, FindSym, LastTime, LastId;
      Completed(file, hdr, buf, fpos);
      if proper {
        RunAppend(hdr, buf, INIT);
      }
      var len := |buf| - fpos;
      if len > 0 {
        if fpos == 0 {
          file := file + hdr;
        }
        file := file + buf[fpos..];
        fpos := |buf|;
      }
    }
  }
}
