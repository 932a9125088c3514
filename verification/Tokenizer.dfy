// Splitting a command line in place (core/str_argv.c) and the token list it denotes.
module Tokenizer {
  import opened Chars

  // At most a space, as the C code compares characters.
  predicate Blank(c: char) {
    c <= ' ' || (SIGNED && c >= 128 as char)
  }

  // ---------------------------------------------------------------- the token list

  function SkipBlanks(s: string): (r: string)
    ensures |r| <= |s| && s[|s| - |r|..] == r
    ensures r == "" || !Blank(r[0])
  {
    if s != "" && Blank(s[0]) then SkipBlanks(s[1..]) else s
  }

  // One argument read off the front: its text, and what remains after the blank that ends it.
  // Outside quotes a backslash takes the next character as it is; a quote opens a quoted part.
  function Bare(s: string): (r: (string, string))
    ensures |r.1| <= |s|
    ensures s != "" && !Blank(s[0]) ==> |r.1| < |s|
  {
    if s == "" then ("", "")
    else if Blank(s[0]) then ("", s[1..])
    else if s[0] == '\\' then
      if |s| == 1 then ("", "") else var r := Bare(s[2..]); ([s[1]] + r.0, r.1)
    else if s[0] == '"' then Quoted(s[1..])
    else var r := Bare(s[1..]); ([s[0]] + r.0, r.1)
  }

  // Inside quotes. What follows the closing quote, up to the next unquoted blank, is dropped.
  function Quoted(s: string): (r: (string, string))
    ensures |r.1| <= |s|
  {
    if s == "" then ("", "")
    else if s[0] == '"' then ("", Bare(s[1..]).1)
    else if s[0] == '\\' then
      if |s| == 1 then ("", "") else var r := Quoted(s[2..]); ([s[1]] + r.0, r.1)
    else var r := Quoted(s[1..]); ([s[0]] + r.0, r.1)
  }

  // The argument vector. What is left after the last argument, if anything, gives one more, empty.
  function Tokens(s: string): seq<string>
    decreases |s|
  {
    if s == "" then []
    else
      var t := SkipBlanks(s);
      var r := Bare(t);
      [r.0] + Tokens(r.1)
  }

  // The arguments proper, each begun by a character that is not a blank.
  function Words(s: string): seq<string>
    decreases |s|
  {
    var t := SkipBlanks(s);
    if t == "" then [] else [Bare(t).0] + Words(Bare(t).1)
  }

  // What is left unread after the last of them: blanks only.
  function Unread(s: string): (r: string)
    ensures forall k :: 0 <= k < |r| ==> Blank(r[k])
    decreases |s|
  {
    var t := SkipBlanks(s);
    if t == "" then
      AllBlank(s);
      s
    else Unread(Bare(t).1)
  }

  lemma SkipOne(s: string)
    requires s != "" && SkipBlanks(s) == ""
    ensures Blank(s[0]) && SkipBlanks(s[1..]) == ""
  {
  }

  lemma {:induction false} AllBlank(s: string)
    requires SkipBlanks(s) == ""
    ensures forall k :: 0 <= k < |s| ==> Blank(s[k])
    decreases |s|
  {
    if s != "" {
      assert Blank(s[0]) && SkipBlanks(s[1..]) == "" by {
        SkipOne(s);
      }
      hide SkipBlanks;
      AllBlank(s[1..]);
      assert forall k :: 0 < k < |s| ==> s[k] == s[1..][k - 1];
    }
  }

  // The last argument is an extra empty one exactly when something is left unread.
  lemma {:induction false} ExtraIff(s: string)
    ensures Tokens(s) == Words(s) + if Unread(s) == "" then [] else [""]
    ensures Tokens(s) == Words(s) <==> Unread(s) == ""
    decreases |s|
  {
    hide Bare, SkipBlanks;
    var t := SkipBlanks(s);
    if s != "" {
      var r := Bare(t);
      if t == "" {
        assert r == ("", "") && Tokens("") == [] by {
          NothingRead();
        }
      } else {
        ExtraIff(r.1);
        assert Tokens(s) == [r.0] + Tokens(r.1);
        assert [r.0] + (Words(r.1) + [""]) == [r.0] + Words(r.1) + [""];
      }
    }
  }

  lemma NothingRead()
    ensures Bare("") == ("", "") && Tokens("") == []
  {
  }

  // Without quotes and backslashes an argument ends before the first blank, which is read with it.
  lemma {:induction false} WordEnds(t: string) returns (n: nat)
    requires '"' !in t && '\\' !in t
    ensures n <= |t| && (forall k :: 0 <= k < n ==> !Blank(t[k])) && (n < |t| ==> Blank(t[n]))
    ensures Bare(t).1 == if n == |t| then "" else t[n + 1..]
    decreases |t|
  {
    n := 0;
    if t != "" && !Blank(t[0]) {
      assert t[0] in t && forall c <- t[1..] :: c in t;
      var m := WordEnds(t[1..]);
      n := m + 1;
      assert forall k :: 0 < k < n ==> t[k] == t[1..][k - 1];
      assert m < |t[1..]| ==> t[1..][m] == t[n] && t[1..][m + 1..] == t[n + 1..];
    }
  }

  // In text without quotes and backslashes, that is when it is one blank, or ends with two.
  lemma {:induction false} UnreadPlain(s: string)
    requires '"' !in s && '\\' !in s
    ensures Unread(s) != "" <==> s != "" && Blank(s[|s| - 1]) && (|s| == 1 || Blank(s[|s| - 2]))
    decreases |s|
  {
    hide Bare, SkipBlanks;
    var t := SkipBlanks(s);
    if t == "" {
      AllBlank(s);
    } else {
      var k := |s| - |t|;
      assert t == s[k..] && forall c <- t :: c in s;
      var n := WordEnds(t);
      var r := Bare(t).1;
      assert n > 0 && s[k + n - 1] == t[n - 1];
      if n < |t| {
        assert s[k + n] == t[n] && r == s[k + n + 1..] && forall c <- r :: c in s;
      }
      UnreadPlain(r);
      assert Unread(s) == Unread(r);
    }
  }

  // ---------------------------------------------------------------- the buffer

  // The C string starting at p.
  function CStr(b: seq<char>, p: nat): (r: string)
    ensures NUL !in r
    decreases |b| - p
  {
    if p >= |b| || b[p] == NUL then "" else [b[p]] + CStr(b, p + 1)
  }

  lemma {:induction false} CStrIs(b: seq<char>, p: nat, n: nat)
    requires p <= n < |b| && b[n] == NUL && NUL !in b[p..n]
    ensures CStr(b, p) == b[p..n]
    decreases n - p
  {
    if p < n {
      assert b[p] == b[p..n][0];
      assert b[p + 1..n] == b[p..n][1..];
      CStrIs(b, p + 1, n);
      assert b[p..n] == [b[p]] + b[p + 1..n];
    }
  }

  // The scan of one argument that starts at p: the unread text `rest` runs from s to the
  // terminating NUL at n; the text read so far is still open and ends at s, or was closed by a
  // NUL at e.
  datatype Scan = Scan(s: nat, n: nat, rest: string, closed: bool, e: nat, text: string)

  ghost predicate At(b: seq<char>, s: nat, n: nat, rest: string) {
    s <= n < |b| && b[s..n] == rest && b[n] == NUL && NUL !in rest
  }

  ghost predicate Scanned(b: seq<char>, p: nat, x: Scan) {
    && At(b, x.s, x.n, x.rest)
    && p <= x.e <= x.s && NUL !in x.text && b[p..x.e] == x.text
    && (if x.closed then x.e < x.s && b[x.e] == NUL else x.e == x.s)
  }

  // b and c agree below p and from n on.
  ghost predicate SameAround(b: seq<char>, c: seq<char>, p: nat, n: nat) {
    |b| == |c| && p <= n <= |b| && c[..p] == b[..p] && c[n..] == b[n..]
  }

  // What is left to read continues the argument `all`.
  ghost predicate Continues(all: (string, string), x: Scan, more: (string, string)) {
    all.1 == more.1 && all.0 == if x.closed then x.text else x.text + more.0
  }

  // One more character c of text.
  function Grown(x: Scan, c: char): Scan {
    if x.closed then x else x.(e := x.s + 1, text := x.text + [c])
  }

  lemma AtLook(b: seq<char>, s: nat, n: nat, rest: string)
    requires At(b, s, n, rest)
    ensures b[s] == NUL <==> rest == ""
    ensures rest != "" ==> s < n && b[s] == rest[0] && At(b, s + 1, n, rest[1..])
  {
    if rest != "" {
      assert b[s..n][0] == b[s];
      assert b[s + 1..n] == b[s..n][1..];
    }
  }

  lemma ScanLook(b: seq<char>, p: nat, x: Scan)
    requires Scanned(b, p, x)
    ensures p <= x.s <= x.n < |b|
    ensures b[x.s] == NUL <==> x.rest == ""
    ensures x.rest != "" ==> b[x.s] == x.rest[0]
    ensures !Blank(b[x.s]) ==> x.rest != "" && !Blank(x.rest[0])
  {
    AtLook(b, x.s, x.n, x.rest);
  }

  lemma SameOn(a: seq<char>, b: seq<char>, c: seq<char>, p: nat, n: nat, s: nat, m: nat)
    requires SameAround(a, b, p, n) && SameAround(b, c, s, m) && p <= s && m <= n
    ensures SameAround(a, c, p, n)
  {
    assert c[..p] == c[..s][..p] && b[..p] == b[..s][..p];
    assert c[n..] == c[m..][n - m..] && b[n..] == b[m..][n - m..];
  }

  lemma SameSelf(b: seq<char>, p: nat, n: nat)
    requires p <= n <= |b|
    ensures SameAround(b, b, p, n)
  {
  }

  lemma PartOfFront(b: seq<char>, p: nat, e: nat, s: nat)
    requires p <= e <= s <= |b|
    ensures b[p..e] == b[..s][p..e]
  {
  }

  // The text read so far is below s: rewriting from s on keeps it.
  lemma TextKept(b: seq<char>, c: seq<char>, p: nat, x: Scan, y: Scan)
    requires Scanned(b, p, x) && SameAround(b, c, x.s, x.n) && At(c, x.s, y.n, y.rest)
    requires y == x.(n := y.n, rest := y.rest)
    ensures Scanned(c, p, y)
  {
    PartOfFront(c, p, x.e, x.s);
    PartOfFront(b, p, x.e, x.s);
    assert x.closed ==> c[x.e] == c[..x.s][x.e] && b[x.e] == b[..x.s][x.e];
  }

  // The next character is taken as text.
  lemma TextTaken(b: seq<char>, p: nat, x: Scan)
    requires Scanned(b, p, x) && x.rest != ""
    ensures Scanned(b, p, Grown(x, x.rest[0]).(s := x.s + 1, rest := x.rest[1..]))
    ensures b[x.s] == x.rest[0]
  {
    AtLook(b, x.s, x.n, x.rest);
    assert !x.closed ==> b[p..x.s + 1] == b[p..x.s] + [b[x.s]];
  }

  // str_shift: move the rest of the string, its NUL included, one place left.
  method StrShift(b: array<char>, ghost p: nat, ghost x: Scan, s: nat) returns (ghost y: Scan)
    requires Scanned(b[..], p, x) && x.rest != "" && s == x.s
    modifies b
    ensures y == x.(n := x.n - 1, rest := x.rest[1..])
    ensures Scanned(b[..], p, y) && SameAround(old(b[..]), b[..], x.s, x.n)
  {
    hide Scanned, SameAround;
    ghost var was := b[..];
    RestIs(was, p, x);
    ShiftLoop(b, s, x.n);
    y := x.(n := x.n - 1, rest := x.rest[1..]);
    Shifted(was, b[..], p, x);
  }

  lemma RestIs(b: seq<char>, p: nat, x: Scan)
    requires Scanned(b, p, x)
    ensures x.s <= x.n < |b| && b[x.n] == NUL && (x.rest != "" ==> x.s < x.n)
    ensures forall k :: x.s <= k < x.n ==> b[k] != NUL
  {
    forall k | x.s <= k < x.n ensures b[k] != NUL {
      assert b[k] == x.rest[k - x.s] && x.rest[k - x.s] in x.rest;
    }
  }

  // The loop of str_shift.
  method ShiftLoop(b: array<char>, s: nat, ghost n: nat)
    requires s <= n < b.Length && b[n] == NUL && forall k :: s <= k < n ==> b[k] != NUL
    modifies b
    ensures forall k :: s <= k < n ==> b[k] == old(b[k + 1])
    ensures forall k :: 0 <= k < b.Length && !(s <= k < n) ==> b[k] == old(b[k])
  {
    var q := s;
    while b[q] != NUL
      invariant s <= q <= n
      invariant forall k :: s <= k < q ==> b[k] == old(b[k + 1])
      invariant forall k :: 0 <= k < b.Length && !(s <= k < q) ==> b[k] == old(b[k])
      decreases n - q
    {
      b[q] := b[q + 1];
      q := q + 1;
    }
  }

  lemma Shifted(was: seq<char>, now: seq<char>, p: nat, x: Scan)
    requires Scanned(was, p, x) && x.rest != "" && |now| == |was|
    requires forall k :: x.s <= k < x.n ==> now[k] == was[k + 1]
    requires forall k :: 0 <= k < |was| && !(x.s <= k < x.n) ==> now[k] == was[k]
    ensures SameAround(was, now, x.s, x.n)
    ensures Scanned(now, p, x.(n := x.n - 1, rest := x.rest[1..]))
  {
    assert now[x.s..x.n - 1] == was[x.s + 1..x.n];
    assert was[x.s + 1..x.n] == was[x.s..x.n][1..];
    TextKept(was, now, p, x, x.(n := x.n - 1, rest := x.rest[1..]));
  }

  // An escaped character: the backslash is removed, and what follows it is text, if anything does.
  method Escape(b: array<char>, ghost p: nat, ghost x: Scan, s: nat) returns (s': nat, ghost y: Scan)
    requires Scanned(b[..], p, x) && x.rest != "" && s == x.s
    modifies b
    ensures y == if |x.rest| == 1 then x.(n := x.n - 1, rest := "")
                 else Grown(x, x.rest[1]).(s := x.s + 1, n := x.n - 1, rest := x.rest[2..])
    ensures s' == y.s && Scanned(b[..], p, y) && SameAround(old(b[..]), b[..], x.s, x.n)
  {
    y := StrShift(b, p, x, s);
    s' := s;
    AtLook(b[..], y.s, y.n, y.rest);
    if b[s] != NUL {
      TextTaken(b[..], p, y);
      y := Grown(y, y.rest[0]).(s := y.s + 1, rest := y.rest[1..]);
      s' := s + 1;
    }
  }

  // A NUL written over the next character, which is skipped, closes the text.
  method Close(b: array<char>, ghost p: nat, ghost x: Scan, s: nat) returns (ghost y: Scan)
    requires Scanned(b[..], p, x) && x.rest != "" && s == x.s
    modifies b
    ensures y == x.(s := x.s + 1, rest := x.rest[1..], closed := true)
    ensures Scanned(b[..], p, y) && SameAround(old(b[..]), b[..], x.s, x.n)
  {
    ghost var was := b[..];
    AtLook(was, x.s, x.n, x.rest);
    b[s] := NUL;
    y := x.(s := x.s + 1, rest := x.rest[1..], closed := true);
    assert b[..][x.s + 1..x.n] == was[x.s + 1..x.n];
    assert b[..][p..x.e] == was[p..x.e];
    assert b[..][..x.s] == was[..x.s] && b[..][x.n..] == was[x.n..];
  }

  // The quoted part of the scan, from the opening quote to past the closing one.
  method QuotedPart(b: array<char>, ghost p: nat, ghost x: Scan, s: nat, ghost all: (string, string))
    returns (s': nat, ghost y: Scan)
    requires Scanned(b[..], p, x) && x.rest != "" && s == x.s
    requires Continues(all, x, Quoted(x.rest[1..]))
    modifies b
    ensures s' == y.s && Scanned(b[..], p, y) && SameAround(old(b[..]), b[..], p, x.n)
    ensures y.n <= x.n && |y.rest| < |x.rest|
    ensures Continues(all, y, Bare(y.rest))
  {
    hide Bare, Quoted, At, Scanned, SameAround;
    ghost var was := b[..];
    ScanLook(was, p, x);
    SameSelf(was, p, x.n);
    y := StrShift(b, p, x, s);
    s' := s;
    SameOn(was, was, b[..], p, x.n, x.s, x.n);
    ScanLook(b[..], p, y);
    while b[s'] != NUL && b[s'] != '"'
      invariant s' == y.s < b.Length && Scanned(b[..], p, y) && SameAround(was, b[..], p, x.n)
      invariant y.n <= x.n && |y.rest| < |x.rest|
      invariant Continues(all, y, Quoted(y.rest))
      decreases |y.rest|
    {
      ghost var now, z := b[..], y;
      ScanLook(now, p, z);
      if b[s'] == '\\' {
        s', y := Escape(b, p, z, s');
        SameOn(was, now, b[..], p, x.n, z.s, z.n);
      } else {
        TextTaken(now, p, z);
        s', y := s' + 1, Grown(z, z.rest[0]).(s := z.s + 1, rest := z.rest[1..]);
      }
      QuotedStep(all, z, y);
      ScanLook(b[..], p, y);
    }
    ghost var now, z := b[..], y;
    ScanLook(now, p, z);
    QuotedEnd(all, z);
    if b[s'] == '"' {
      y := Close(b, p, z, s');
      SameOn(was, now, b[..], p, x.n, z.s, z.n);
      s' := s' + 1;
    }
  }

  // At the closing quote the text is complete; at the end of the line it is, too.
  lemma QuotedEnd(all: (string, string), z: Scan)
    requires Continues(all, z, Quoted(z.rest)) && (z.rest == "" || z.rest[0] == '"')
    ensures z.rest == "" ==> Continues(all, z, Bare(""))
    ensures z.rest != "" ==> all == (z.text, Bare(z.rest[1..]).1)
  {
    assert z.text + "" == z.text;
  }

  lemma QuotedStep(all: (string, string), z: Scan, y: Scan)
    requires z.rest != "" && z.rest[0] != '"' && Continues(all, z, Quoted(z.rest))
    requires y == if z.rest[0] != '\\' then Grown(z, z.rest[0]).(s := z.s + 1, rest := z.rest[1..])
                  else if |z.rest| == 1 then z.(n := y.n, rest := "")
                  else Grown(z, z.rest[1]).(s := z.s + 1, n := y.n, rest := z.rest[2..])
    ensures Continues(all, y, Quoted(y.rest)) && |y.rest| < |z.rest|
  {
    if z.rest[0] != '\\' {
      Concat3(z.text, [z.rest[0]], Quoted(z.rest[1..]).0);
    } else if |z.rest| > 1 {
      Concat3(z.text, [z.rest[1]], Quoted(z.rest[2..]).0);
    }
  }

  lemma BareStep(all: (string, string), z: Scan, y: Scan)
    requires z.rest != "" && !Blank(z.rest[0]) && z.rest[0] != '"' && Continues(all, z, Bare(z.rest))
    requires y == if z.rest[0] != '\\' then Grown(z, z.rest[0]).(s := z.s + 1, rest := z.rest[1..])
                  else if |z.rest| == 1 then z.(n := y.n, rest := "")
                  else Grown(z, z.rest[1]).(s := z.s + 1, n := y.n, rest := z.rest[2..])
    ensures Continues(all, y, Bare(y.rest)) && |y.rest| < |z.rest|
  {
    if z.rest[0] != '\\' {
      Concat3(z.text, [z.rest[0]], Bare(z.rest[1..]).0);
    } else if |z.rest| > 1 {
      Concat3(z.text, [z.rest[1]], Bare(z.rest[2..]).0);
    }
  }

  lemma Concat3(a: string, b: string, c: string)
    ensures a + b + c == a + (b + c)
  {
  }

  lemma BareQuote(all: (string, string), z: Scan)
    requires z.rest != "" && z.rest[0] == '"' && Continues(all, z, Bare(z.rest))
    ensures Continues(all, z, Quoted(z.rest[1..]))
  {
  }

  lemma BareEnd(all: (string, string), z: Scan)
    requires Continues(all, z, Bare(z.rest)) && (z.rest == "" || Blank(z.rest[0]))
    ensures all == (z.text, if z.rest == "" then "" else z.rest[1..])
  {
    assert z.text + "" == z.text;
  }

  // One turn of the scan outside quotes.
  method BarePart(b: array<char>, ghost p: nat, ghost x: Scan, s: nat, ghost all: (string, string))
    returns (s': nat, ghost y: Scan)
    requires Scanned(b[..], p, x) && x.rest != "" && s == x.s && !Blank(x.rest[0])
    requires Continues(all, x, Bare(x.rest))
    modifies b
    ensures s' == y.s && Scanned(b[..], p, y) && SameAround(old(b[..]), b[..], p, x.n)
    ensures y.n <= x.n && |y.rest| < |x.rest|
    ensures Continues(all, y, Bare(y.rest))
  {
    hide Bare, Quoted;
    ghost var was := b[..];
    AtLook(was, x.s, x.n, x.rest);
    if b[s] == '"' {
      BareQuote(all, x);
      s', y := QuotedPart(b, p, x, s, all);
    } else {
      if b[s] == '\\' {
        s', y := Escape(b, p, x, s);
        SameOn(was, was, b[..], p, x.n, x.s, x.n);
      } else {
        TextTaken(was, p, x);
        s', y := s + 1, Grown(x, x.rest[0]).(s := x.s + 1, rest := x.rest[1..]);
      }
      BareStep(all, x, y);
    }
  }

  // The scan of one argument, up to and past the blank that ends it.
  method ScanArg(b: array<char>, p: nat, ghost n: nat, ghost rest: string)
    returns (s: nat, ghost y: Scan)
    requires At(b[..], p, n, rest)
    modifies b
    ensures s == y.s && Scanned(b[..], p, y) && SameAround(old(b[..]), b[..], p, n)
    ensures y.n <= n && y.text == Bare(rest).0 && y.rest == Bare(rest).1
    ensures !y.closed ==> y.rest == ""
  {
    ghost var was, all := b[..], Bare(rest);
    s, y := p, Scan(p, n, rest, false, p, "");
    assert Scanned(was, p, y) && SameAround(was, was, p, n) && Continues(all, y, Bare(y.rest));
    ScanLook(was, p, y);
    hide Bare, Quoted, At, Scanned, SameAround, Continues, Blank;
    while !Blank(b[s])
      invariant s == y.s < b.Length && Scanned(b[..], p, y) && SameAround(was, b[..], p, n)
      invariant y.n <= n && Continues(all, y, Bare(y.rest))
      decreases |y.rest|
    {
      ghost var now, z := b[..], y;
      ScanLook(now, p, z);
      s, y := BarePart(b, p, z, s, all);
      SameOn(was, now, b[..], p, n, p, z.n);
      ScanLook(b[..], p, y);
    }
    ghost var now, z := b[..], y;
    ScanLook(now, p, z);
    BareEnd(all, z);
    s, y := EndArg(b, p, z, s);
    SameOn(was, now, b[..], p, n, z.s, z.n);
  }

  // Mark the end of the argument, unless the line ends there.
  method EndArg(b: array<char>, ghost p: nat, ghost x: Scan, s: nat) returns (s': nat, ghost y: Scan)
    requires Scanned(b[..], p, x) && s == x.s
    modifies b
    ensures s' == y.s && Scanned(b[..], p, y) && SameAround(old(b[..]), b[..], x.s, x.n)
    ensures y == if x.rest == "" then x else x.(s := x.s + 1, rest := x.rest[1..], closed := true)
  {
    s', y := s, x;
    AtLook(b[..], x.s, x.n, x.rest);
    if b[s] != NUL {
      y := Close(b, p, x, s);
      s' := s + 1;
    }
  }

  // Argument k of the list is the text between its pointer and a NUL not past `line`.
  ghost predicate Points(b: seq<char>, argv: seq<nat>, ends: seq<nat>, texts: seq<string>, line: nat) {
    && |argv| == |ends| == |texts|
    && forall k :: 0 <= k < |argv| ==> PointsTo(b, argv[k], ends[k], texts[k], line)
  }

  ghost predicate PointsTo(b: seq<char>, p: nat, e: nat, text: string, line: nat) {
    p <= e <= line && e < |b| && b[p..e] == text && b[e] == NUL && NUL !in text
  }

  lemma PointsKept(b: seq<char>, c: seq<char>, argv: seq<nat>, ends: seq<nat>, texts: seq<string>,
                   line: nat, p: nat, n: nat, line': nat)
    requires Points(b, argv, ends, texts, line) && SameAround(b, c, p, n)
    requires line <= p && line' >= line && line < |b| && b[line] != NUL
    ensures Points(c, argv, ends, texts, line')
  {
    forall k | 0 <= k < |argv| ensures PointsTo(c, argv[k], ends[k], texts[k], line') {
      assert PointsTo(b, argv[k], ends[k], texts[k], line);
      assert c[argv[k]..ends[k]] == c[..p][argv[k]..ends[k]];
      assert b[argv[k]..ends[k]] == b[..p][argv[k]..ends[k]];
      assert c[..p][ends[k]] == b[..p][ends[k]];
    }
  }

  lemma OneMoreRead(done: seq<string>, rest: string)
    requires rest != ""
    ensures var r := Bare(SkipBlanks(rest)); done + Tokens(rest) == done + [r.0] + Tokens(r.1)
  {
    var r := Bare(SkipBlanks(rest));
    assert Tokens(rest) == [r.0] + Tokens(r.1) by {
      FirstRead(rest);
    }
    hide Bare, SkipBlanks, Tokens;
    var t := Tokens(r.1);
    assert done + ([r.0] + t) == done + [r.0] + t;
  }

  lemma FirstRead(rest: string)
    requires rest != ""
    ensures var r := Bare(SkipBlanks(rest)); Tokens(rest) == [r.0] + Tokens(r.1)
  {
    hide Bare, SkipBlanks;
  }

  // The loop over leading blanks.
  method SkipLeading(b: array<char>, p: nat, ghost n: nat, ghost rest: string) returns (p': nat, ghost rest': string)
    requires At(b[..], p, n, rest)
    ensures p <= p' && At(b[..], p', n, rest') && rest' == SkipBlanks(rest)
  {
    ghost var now := b[..];
    p', rest' := p, rest;
    while b[p'] != NUL && Blank(b[p'])
      invariant p <= p' && At(now, p', n, rest') && b[..] == now && SkipBlanks(rest') == SkipBlanks(rest)
      decreases |rest'|
    {
      AtLook(now, p', n, rest');
      p', rest' := p' + 1, rest'[1..];
    }
    AtLook(now, p', n, rest');
  }

  // A finished scan adds its argument.
  lemma PointsMore(b: seq<char>, argv: seq<nat>, ends: seq<nat>, texts: seq<string>, p: nat, y: Scan)
    requires Points(b, argv, ends, texts, y.s) && Scanned(b, p, y) && (!y.closed ==> y.rest == "")
    ensures Points(b, argv + [p], ends + [y.e], texts + [y.text], y.s)
  {
    assert !y.closed ==> y.s == y.n;
    assert PointsTo(b, p, y.e, y.text, y.s);
    forall k | 0 <= k < |argv| ensures PointsTo(b, argv[k], ends[k], texts[k], y.s) {
    }
  }

  // str_argv on the C string that starts at `line`, whose NUL is at n. The pointers returned denote
  // the tokens of that string; nothing before it or after its NUL is touched.
  method StrArgv(b: array<char>, line: nat, ghost n: nat, ghost text: string) returns (argv: seq<nat>)
    requires At(b[..], line, n, text)
    modifies b
    ensures SameAround(old(b[..]), b[..], line, n)
    ensures |argv| == |Tokens(text)|
    ensures forall k :: 0 <= k < |argv| ==> argv[k] <= n && CStr(b[..], argv[k]) == Tokens(text)[k]
  {
    hide Bare, Quoted;
    ghost var was := b[..];
    argv := [];
    var p: nat := line;
    ghost var m: nat, rest := n, text;
    ghost var ends: seq<nat>, done: seq<string> := [], [];
    while b[p] != NUL
      invariant line <= p <= m <= n && At(b[..], p, m, rest) && SameAround(was, b[..], line, n)
      invariant Points(b[..], argv, ends, done, p) && Tokens(text) == done + Tokens(rest)
      decreases |rest|
    {
      ghost var now, before := b[..], p;
      AtLook(now, p, m, rest);
      OneMoreRead(done, rest);
      p, rest := SkipLeading(b, p, m, rest);
      var s;
      ghost var y;
      s, y := ScanArg(b, p, m, rest);
      SameOn(was, now, b[..], line, n, p, m);
      PointsKept(now, b[..], argv, ends, done, before, p, m, s);
      PointsMore(b[..], argv, ends, done, p, y);
      argv, ends, done := argv + [p], ends + [y.e], done + [y.text];
      p, m, rest := s, y.n, y.rest;
    }
    AtLook(b[..], p, m, rest);
    assert rest == "";
    forall k | 0 <= k < |argv| ensures argv[k] <= n && CStr(b[..], argv[k]) == Tokens(text)[k] {
      assert PointsTo(b[..], argv[k], ends[k], done[k], p);
      CStrIs(b[..], argv[k], ends[k]);
    }
  }

}
