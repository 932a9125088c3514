// The reader of history files (decode loop of classes/history/hakit-history.c).
module HistoryReader {
  import opened IntCodec

  datatype Sym = Sym(id: int, name: seq<byte>)
  datatype MaybeSym = NoSym | IsSym(sym: Sym)
  datatype Val = Int(v: int) | Str(s: seq<byte>) | NoStr   // NoStr is printed for a missing string
  datatype Rec = Rec(t: int, sym: MaybeSym, val: Val)   // one printed line

  // Reader variables: the time stamp, the symbol table and the current symbol.
  datatype State = State(t: int, syms: seq<Sym>, cur: MaybeSym)
  const INIT := State(0, [], NoSym)

  // One operation read off the front of s: what remains, the new variables, what is printed.
  // Cut when the input ends inside it.
  datatype Step = Cut | Step(rest: seq<byte>, st: State, out: seq<Rec>)

  // history_read_str: the bytes up to the first NUL, if there is one.
  function ReadStr(s: seq<byte>): (r: (bool, seq<byte>, seq<byte>))
    ensures r.0 ==> |r.2| < |s| && s == r.1 + [0] + r.2 && 0 !in r.1
    ensures !r.0 ==> 0 !in s
  {
    if s == [] then (false, [], [])
    else if s[0] == 0 then (true, [], s[1..])
    else
      var (ok, str, rest) := ReadStr(s[1..]);
      assert s == [s[0]] + s[1..];
      (ok, [s[0]] + str, rest)
  }

  function FindSym(syms: seq<Sym>, id: int): (r: MaybeSym)
    ensures r == NoSym <==> forall k :: 0 <= k < |syms| ==> syms[k].id != id
    ensures r.IsSym? ==> r.sym in syms && r.sym.id == id
  {
    if syms == [] then NoSym
    else if syms[0].id == id then IsSym(syms[0])
    else FindSym(syms[1..], id)
  }

  // Identifiers are read into an int: 32 bits are kept.
  function ToInt(v: int): int {
    (v + 0x8000_0000) % 0x1_0000_0000 - 0x8000_0000
  }

  // Select a signal, set the time, advance the time, print a value; other codes do nothing.
  function Numeric(code: nat, value: int, st: State): (State, seq<Rec>) {
    match code
    case 1 =>
      var found := FindSym(st.syms, ToInt(value));
      (if found.IsSym? then st.(cur := found) else st, [])
    case 2 => (st.(t := value), [])
    case 3 => (st.(t := st.t + value), [])
    case 4 => (st, [Rec(st.t, st.cur, Int(value))])
    case _ => (st, [])
  }

  // One turn of the loop. A string operation first takes one operand byte, like every other
  // operation below 0x80, so that the printed string lacks its first byte.
  function Next(s: seq<byte>, st: State): (r: Step)
    requires s != []
    ensures r.Step? ==> |r.rest| < |s|
  {
    var op := s[0];
    if op >= 0x80 then
      var v := op % 64;
      if op >= 0xC0 then Step(s[1..], st.(t := st.t + v), [])
      else Step(s[1..], st, [Rec(st.t, st.cur, Int(v))])
    else
      var len := op / 16 + 1;
      if |s| < len + 1 then Cut
      else
        var arg, rest := s[1..len + 1], s[len + 1..];
        var (ok, str, tail) := ReadStr(rest);
        if op % 16 == 0 then
          if !ok then Cut
          else
            var sym := Sym(ToInt(Value(arg)), str);
            Step(tail, st.(syms := st.syms + [sym], cur := IsSym(sym)), [])
        else if op % 16 == 5 then
          if !ok then Cut else Step(tail, st, [Rec(st.t, st.cur, Str(str))])
        else
          var (st', out) := Numeric(op % 16, Value(arg), st);
          Step(rest, st', out)
  }

  // What the whole input prints; `ok` when it ends between two operations.
  datatype Result = Result(ok: bool, st: State, out: seq<Rec>)

  function Run(s: seq<byte>, st: State): Result
    decreases |s|
  {
    if s == [] then Result(true, st, [])
    else
      match Next(s, st)
      case Cut => Result(false, st, [])
      case Step(rest, st', out) =>
        var r := Run(rest, st');
        Result(r.ok, r.st, out + r.out)
  }

  lemma {:induction false} ReadStrFront(str: seq<byte>, rest: seq<byte>)
    requires 0 !in str
    ensures ReadStr(str + [0] + rest) == (true, str, rest)
  {
    var s := str + [0] + rest;
    if str == [] {
      assert s == [0] + rest;
    } else {
      assert s[1..] == str[1..] + [0] + rest;
      ReadStrFront(str[1..], rest);
      assert str == [str[0]] + str[1..];
    }
  }

  // More input does not change an operation that was complete.
  lemma NextFront(a: seq<byte>, b: seq<byte>, st: State)
    requires a != [] && Next(a, st).Step?
    ensures Next(a + b, st) == Next(a, st).(rest := Next(a, st).rest + b)
  {
    hide ToInt, Value, Numeric, ReadStr;
    var s := a + b;
    if a[0] < 0x80 {
      var len := a[0] / 16 + 1;
      assert s[1..len + 1] == a[1..len + 1];
      var rest := a[len + 1..];
      assert s[len + 1..] == rest + b;
      var r := ReadStr(rest);
      if r.0 {
        ReadStrFront(r.1, r.2 + b);
        ConcatAssoc(r.1 + [0], r.2, b);
      }
    } else {
      assert s[1..] == a[1..] + b;
    }
  }

  // Reading is sequential: complete input followed by more reads as the one, then the other.
  lemma {:induction false} RunAppend(a: seq<byte>, b: seq<byte>, st: State)
    requires Run(a, st).ok
    ensures var r := Run(a, st);
            Run(a + b, st) == Result(Run(b, r.st).ok, Run(b, r.st).st, r.out + Run(b, r.st).out)
    decreases |a|
  {
    if a == [] {
      assert a + b == b;
    } else {
      NextFront(a, b, st);
      var step := Next(a, st);
      RunAppend(step.rest, b, step.st);
      var r := Run(step.rest, step.st);
      Assoc(step.out, r.out, Run(b, r.st).out);
    }
  }

  lemma Assoc(a: seq<Rec>, b: seq<Rec>, c: seq<Rec>)
    ensures a + b + c == a + (b + c)
  {
  }

  // A single complete operation.
  lemma RunOne(a: seq<byte>, st: State)
    requires a != [] && Next(a, st).Step? && Next(a, st).rest == []
    ensures Run(a, st) == Result(true, Next(a, st).st, Next(a, st).out)
  {
    assert Run([], Next(a, st).st) == Result(true, Next(a, st).st, []);
    assert Next(a, st).out + [] == Next(a, st).out;
  }

  // ---------------------------------------------------------------- files cut inside an operation

  // Where the input is cut: what is left when Next finds the operation incomplete.
  function CutAt(s: seq<byte>, st: State): (r: seq<byte>)
    ensures !Run(s, st).ok ==> r != [] && r[0] < 0x80 && Next(r, Run(s, st).st) == Cut
    decreases |s|
  {
    if s == [] then []
    else
      match Next(s, st)
      case Cut => s
      case Step(rest, st', out) => CutAt(rest, st')
  }

  lemma CutIsShort(s: seq<byte>, st: State)
    requires s != []
    ensures Next(s, st) == Cut ==> s[0] < 0x80
  {
  }

  // What becomes of a cut operation: an operand is completed by what its buffer held, a missing
  // string is printed as such, a declaration without its name fails.
  function Last(s: seq<byte>, st: State, junk: seq<byte>): (bool, seq<Rec>)
    requires s != [] && s[0] < 0x80 && |junk| >= 8
  {
    var code, len := s[0] % 16, s[0] / 16 + 1;
    if code == 0 then (false, [])
    else if code == 5 then (true, [Rec(st.t, st.cur, NoStr)])
    else (true, Numeric(code, Value(Operand(s, len, junk)), st).1)
  }

  function Operand(s: seq<byte>, len: nat, junk: seq<byte>): (r: seq<byte>)
    requires s != [] && 0 < len && len <= |s| - 1 + |junk|
    ensures |r| == len
  {
    (s[1..] + junk)[..len]
  }

  // history_dump_file, from the opened file to the printed lines. `junk` is what the operand
  // buffer holds when it is not filled.
  method DumpFile(file: seq<byte>, junk: seq<byte>) returns (ok: bool, out: seq<Rec>)
    requires |junk| >= 8
    ensures var r := Run(file, INIT);
            if r.ok then ok && out == r.out
            else (ok, out) == (Last(CutAt(file, INIT), r.st, junk).0, r.out + Last(CutAt(file, INIT), r.st, junk).1)
  {
    hide Next, Last;
    var st := INIT;
    var pos := 0;
    out := [];
    ok := true;
    ghost var cut := false;
    while ok && pos < |file|
      invariant 0 <= pos <= |file| && (!ok ==> cut)
      invariant var r, all := Run(file[pos..], st), Run(file, INIT);
                if cut then !all.ok && pos == |file|
                            && (ok, out) == (Last(CutAt(file, INIT), all.st, junk).0,
                                             all.out + Last(CutAt(file, INIT), all.st, junk).1)
                else all == Result(r.ok, r.st, out + r.out) && CutAt(file, INIT) == CutAt(file[pos..], st)
      decreases |file| - pos
    {
      ghost var before, rest, st0 := out, file[pos..], st;
      cut := Next(rest, st) == Cut;
      CutIsShort(rest, st);
      var lines;
      ok, pos, st, lines := ReadOp(file, pos, st, junk);
      out := out + lines;
      if cut {
        assert Run(rest, st0) == Result(false, st0, []) && before + [] == before;
      } else {
        Assoc(before, lines, Run(file[pos..], st).out);
      }
    }
    assert file[|file|..] == [];
  }

  // One turn of the decode loop.
  method ReadOp(file: seq<byte>, pos: nat, st: State, junk: seq<byte>)
    returns (ok: bool, next: nat, st': State, lines: seq<Rec>)
    requires pos < |file| && |junk| >= 8
    ensures pos < next <= |file|
    ensures Next(file[pos..], st).Step? ==> ok && Next(file[pos..], st) == Step(file[next..], st', lines)
    ensures Next(file[pos..], st).Cut? ==> next == |file| && (ok, lines) == Last(file[pos..], st, junk)
  {
    st', lines, ok, next := st, [], true, pos + 1;
    var op := file[pos];
    ghost var s := file[pos..];
    if op >= 0x80 {
      var v := op % 64;
      if op >= 0xC0 {
        st' := st.(t := st.t + v);
      } else {
        lines := [Rec(st.t, st.cur, Int(v))];
      }
      return;
    }
    var len := op / 16 + 1;
    next := if pos + 1 + len <= |file| then pos + 1 + len else |file|;
    var arg := (file[pos + 1..] + junk)[..len];
    assert s[1..] == file[pos + 1..] && arg == Operand(s, len, junk);
    if len + 1 <= |s| {
      assert arg == s[1..len + 1] && file[next..] == s[len + 1..];
    }
    if op % 16 == 0 || op % 16 == 5 {
      assert file[|file|..] == [] && !ReadStr([]).0;
      var found, str, end := ScanStr(file, next);
      next := end;
      if op % 16 == 0 {
        if !found {
          return false, |file|, st, [];
        }
        var value := ReadValue(arg);
        var sym := Sym(ToInt(value), str);
        st' := st.(syms := st.syms + [sym], cur := IsSym(sym));
      } else {
        lines := [Rec(st.t, st.cur, if found then Str(str) else NoStr)];
      }
    } else {
      st', lines := ReadNumber(op % 16, arg, st);
    }
  }

  // The operations whose operand is a number.
  method ReadNumber(code: nat, arg: seq<byte>, st: State) returns (st': State, lines: seq<Rec>)
    requires |arg| > 0
    ensures (st', lines) == Numeric(code, Value(arg), st)
  {
    st', lines := st, [];
    var value := ReadValue(arg);
    match code
    case 1 =>
      var found := FindSym(st.syms, ToInt(value));
      if found.IsSym? {
        st' := st.(cur := found);
      }
    case 2 => st' := st.(t := value);
    case 3 => st' := st.(t := st.t + value);
    case 4 => lines := [Rec(st.t, st.cur, Int(value))];
    case _ =>
  }

  // The byte loop of history_read_str.
  method ScanStr(file: seq<byte>, pos: nat) returns (found: bool, str: seq<byte>, next: nat)
    requires pos <= |file|
    ensures found == ReadStr(file[pos..]).0
    ensures found ==> pos < next <= |file| && (true, str, file[next..]) == ReadStr(file[pos..])
    ensures !found ==> next == |file|
  {
    next := pos;
    str := [];
    while next < |file|
      invariant pos <= next <= |file| && str == file[pos..next] && 0 !in str
    {
      if file[next] == 0 {
        assert file[pos..] == str + [0] + file[next + 1..];
        ReadStrFront(str, file[next + 1..]);
        return true, str, next + 1;
      }
      str := str + [file[next]];
      next := next + 1;
    }
    assert file[pos..next] == file[pos..];
    found := false;
  }
}
