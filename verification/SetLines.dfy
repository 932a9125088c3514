// What the two printers of `set` lines mean to the receiving end: core/hkcp.c prints them plain,
// ui/hakit.js with the value in quotes.
module SetLines {
  import opened Chars
  import opened Tokenizer
  import opened Framing
  import opened Commands

  // hkcp_source_update, hkcp_node_send_initial_value
  function SetLine(u: Update): string {
    "set " + (u.name + ("=" + u.value))
  }

  // hakit_set
  function QuotedLine(u: Update): string {
    "set " + (u.name + ("=\"" + (u.value + "\"")))
  }

  function Line(u: Update, quoted: bool): string {
    if quoted then QuotedLine(u) else SetLine(u)
  }

  // Neither a blank, nor a quote, nor a backslash.
  predicate Plain(w: string) {
    forall k :: 0 <= k < |w| ==> !Blank(w[k]) && w[k] != '"' && w[k] != '\\'
  }

  predicate Quotable(w: string) {
    '"' !in w && '\\' !in w
  }

  // What a value may be for its line to be understood.
  predicate Sayable(v: string, quoted: bool) {
    if quoted then Quotable(v) && '\n' !in v && NUL !in v else Plain(v)
  }

  // ---------------------------------------------------------------- reading what was printed

  // Reading an argument never lengthens it; a blank, a quote or a backslash shortens it.
  lemma {:induction false} BareShortens(s: string)
    ensures |Bare(s).0| + |Bare(s).1| <= |s|
    ensures !Plain(s) ==> |Bare(s).0| < |s|
    decreases |s|
  {
    if s != "" && !Blank(s[0]) {
      if s[0] == '"' {
        QuotedShortens(s[1..]);
      } else if s[0] == '\\' {
        if |s| > 1 {
          BareShortens(s[2..]);
        }
      } else {
        BareShortens(s[1..]);
        assert forall k :: 0 < k < |s| ==> s[k] == s[1..][k - 1];
      }
    }
  }

  lemma {:induction false} QuotedShortens(s: string)
    ensures |Quoted(s).0| + |Quoted(s).1| <= |s| && (s != "" ==> |Quoted(s).1| < |s|)
    ensures '"' in s ==> |Quoted(s).0| < |s|
    decreases |s|
  {
    if s != "" {
      if s[0] == '"' {
        BareShortens(s[1..]);
      } else if s[0] == '\\' {
        if |s| > 1 {
          QuotedShortens(s[2..]);
        }
      } else {
        QuotedShortens(s[1..]);
      }
    }
  }

  lemma BareCons(c: char, t: string)
    requires !Blank(c) && c != '"' && c != '\\'
    ensures Bare([c] + t) == ([c] + Bare(t).0, Bare(t).1)
  {
    assert ([c] + t)[1..] == t;
  }

  // A plain prefix is read as it is.
  lemma {:induction false} BareAfter(a: string, b: string)
    requires Plain(a)
    ensures Bare(a + b) == (a + Bare(b).0, Bare(b).1)
    decreases |a|
  {
    hide Bare;
    if a == "" {
      assert a + b == b && a + Bare(b).0 == Bare(b).0;
    } else {
      var t := a[1..];
      assert a == [a[0]] + t && a + b == [a[0]] + (t + b);
      assert forall k :: 0 <= k < |t| ==> t[k] == a[k + 1];
      BareCons(a[0], t + b);
      BareAfter(t, b);
      assert [a[0]] + (t + Bare(b).0) == a + Bare(b).0;
    }
  }

  // A plain word is one argument, as it is.
  lemma PlainToken(w: string)
    requires w != "" && Plain(w)
    ensures Tokens(w) == [w]
  {
    PlainTokens(w, "");
    assert w + "" == w && Tokens("") == [];
  }

  // ---------------------------------------------------------------- words, blanks and escapes

  // Characters that are not special: above the space, neither a quote nor a backslash, and, where
  // `char` is signed, below 128.
  predicate Legible(w: string) {
    forall c <- w :: ' ' < c && c != '"' && c != '\\' && (c < 128 as char || !SIGNED)
  }

  lemma PlainIff(w: string)
    ensures Plain(w) <==> Legible(w)
  {
    assert forall k :: 0 <= k < |w| ==> w[k] in w;
  }

  predicate Gap(g: string) {
    forall c <- g :: c <= ' '
  }

  // Words with gaps before, between and after them.
  function Spaced(ws: seq<string>, gaps: seq<string>): string
    requires |gaps| == |ws| + 1
  {
    gaps[0] + if ws == [] then "" else ws[0] + Spaced(ws[1..], gaps[1..])
  }

  predicate SpacedWell(ws: seq<string>, gaps: seq<string>) {
    && |gaps| == |ws| + 1
    && (forall k :: 0 <= k < |ws| ==> ws[k] != "" && Legible(ws[k]))
    && (forall k :: 0 <= k < |gaps| ==> Gap(gaps[k]))
    && (forall k :: 0 < k < |ws| ==> gaps[k] != "")
  }

  lemma {:induction false} SkipGap(g: string, t: string)
    requires Gap(g)
    ensures SkipBlanks(g + t) == SkipBlanks(t)
    decreases |g|
  {
    if g == "" {
      assert g + t == t;
    } else {
      assert g[0] in g && forall c <- g[1..] :: c in g;
      assert (g + t)[0] == g[0] && (g + t)[1..] == g[1..] + t;
      SkipGap(g[1..], t);
    }
  }

  // A word, and what is left once the blank that ends it is read too.
  lemma WordRead(w: string, g: string, rest: string)
    requires w != "" && Legible(w) && Gap(g) && (g == "" ==> rest == "")
    ensures SkipBlanks(w + (g + rest)) == w + (g + rest)
    ensures Bare(w + (g + rest)) == (w, if g == "" then "" else g[1..] + rest)
  {
    PlainIff(w);
    BareAfter(w, g + rest);
    assert w[0] in w;
    if g != "" {
      assert g[0] in g && (g + rest)[0] == g[0] && (g + rest)[1..] == g[1..] + rest;
    }
    assert w + "" == w;
  }

  lemma TokenRead(g: string, w: string, n: string, rest: string)
    requires w != "" && Legible(w) && Gap(g) && Gap(n) && (n == "" ==> rest == "")
    ensures Tokens(g + (w + (n + rest))) == [w] + Tokens(if n == "" then "" else n[1..] + rest)
  {
    hide Bare, SkipBlanks, Legible, Gap;
    SkipGap(g, w + (n + rest));
    WordRead(w, n, rest);
  }

  lemma GapRest(g: string)
    requires Gap(g)
    ensures Gap(if g == "" then "" else g[1..])
  {
    assert g != "" ==> forall c <- g[1..] :: c in g;
  }

  // The gap after the first word has lost the blank that ends it.
  function AfterFirst(gaps: seq<string>): seq<string>
    requires |gaps| > 1
  {
    [if gaps[1] == "" then "" else gaps[1][1..]] + gaps[2..]
  }

  lemma SpacedFirst(ws: seq<string>, gaps: seq<string>) returns (rest: string)
    requires SpacedWell(ws, gaps) && ws != []
    ensures Spaced(ws, gaps) == gaps[0] + (ws[0] + (gaps[1] + rest)) && (gaps[1] == "" ==> rest == "")
    ensures SpacedWell(ws[1..], AfterFirst(gaps)) && Spaced(ws[1..], AfterFirst(gaps)) == AfterFirst(gaps)[0] + rest
  {
    hide Legible, Gap;
    var after, tail := AfterFirst(gaps), ws[1..];
    rest := if tail == [] then "" else tail[0] + Spaced(tail[1..], gaps[2..]);
    assert gaps[1..][1..] == gaps[2..] == after[1..] && gaps[1..][0] == gaps[1];
    assert Gap(after[0]) by {
      GapRest(gaps[1]);
    }
    assert forall k :: 0 < k < |after| ==> after[k] == gaps[k + 1];
  }

  // The arguments are the words, whatever the gaps; one more, empty, comes from a second blank at
  // the end, or from a first one when there is no word.
  lemma {:induction false} SpacedTokens(ws: seq<string>, gaps: seq<string>)
    requires SpacedWell(ws, gaps)
    ensures Tokens(Spaced(ws, gaps)) ==
            ws + if |gaps[|ws|]| > (if ws == [] then 0 else 1) then [""] else []
    decreases |ws|
  {
    if ws == [] {
      NoWords(gaps);
    } else {
      var rest := SpacedFirst(ws, gaps);
      hide Tokens, Spaced, Legible, Gap;
      TokenRead(gaps[0], ws[0], gaps[1], rest);
      SpacedTokens(ws[1..], AfterFirst(gaps));
      assert "" + rest == rest && [ws[0]] + ws[1..] == ws;
    }
  }

  lemma NoWords(gaps: seq<string>)
    requires SpacedWell([], gaps)
    ensures Tokens(Spaced([], gaps)) == if gaps[0] == "" then [] else [""]
  {
    var g := gaps[0];
    assert g + "" == g && Spaced([], gaps) == g;
    SkipGap(g, "");
    assert Tokens("") == [];
  }

  // A backslash before each character.
  function Escaped(w: string): string {
    if w == "" then "" else ['\\', w[0]] + Escaped(w[1..])
  }

  // Escaped, any text is one argument, with or without quotes around it.
  lemma EscapedToken(w: string)
    ensures w != "" ==> Tokens(Escaped(w)) == [w]
    ensures Tokens("\"" + Escaped(w) + "\"") == [w]
  {
    hide Bare, Quoted, Tokens;
    EscapedRead(w, "");
    EscapedRead(w, "\"");
    ClosedRead();
    assert Escaped(w) + "" == Escaped(w) && w + "" == w;
    var q := "\"" + Escaped(w) + "\"";
    assert q == "\"" + (Escaped(w) + "\"");
    BareQuoted(Escaped(w) + "\"");
    OneToken(q, w);
    if w != "" {
      assert Escaped(w)[0] == '\\';
      OneToken(Escaped(w), w);
    }
  }

  lemma ClosedRead()
    ensures Bare("") == ("", "") && Quoted("\"") == ("", "")
  {
    assert "\""[1..] == "";
  }

  lemma OneToken(s: string, t: string)
    requires s != "" && !Blank(s[0]) && Bare(s) == (t, "")
    ensures Tokens(s) == [t]
  {
    hide Bare;
    assert SkipBlanks(s) == s && Tokens("") == [];
  }

  lemma {:induction false} EscapedRead(w: string, rest: string)
    ensures Bare(Escaped(w) + rest) == (w + Bare(rest).0, Bare(rest).1)
    ensures Quoted(Escaped(w) + rest) == (w + Quoted(rest).0, Quoted(rest).1)
    decreases |w|
  {
    hide Bare, Quoted;
    var s := Escaped(w) + rest;
    if w == "" {
      assert s == rest && w + Bare(rest).0 == Bare(rest).0 && w + Quoted(rest).0 == Quoted(rest).0;
    } else {
      var t := w[1..];
      EscapedRead(t, rest);
      EscapedStep(w[0], Escaped(t) + rest);
      assert s == ['\\', w[0]] + (Escaped(t) + rest) && w == [w[0]] + t;
      assert [w[0]] + (t + Bare(rest).0) == w + Bare(rest).0;
      assert [w[0]] + (t + Quoted(rest).0) == w + Quoted(rest).0;
    }
  }

  lemma EscapedStep(c: char, t: string)
    ensures Bare(['\\', c] + t) == ([c] + Bare(t).0, Bare(t).1)
    ensures Quoted(['\\', c] + t) == ([c] + Quoted(t).0, Quoted(t).1)
  {
    assert (['\\', c] + t)[2..] == t;
  }

  // A quoted text without quotes and backslashes is one argument, blanks included; what follows the
  // closing quote up to a blank is dropped.
  lemma QuotedToken(v: string, tail: string)
    requires '"' !in v && '\\' !in v && Legible(tail)
    ensures Tokens("\"" + v + "\"" + tail) == [v]
  {
    hide Legible, Plain, Tokens, Bare, Quoted;
    var q := "\"" + v + "\"" + tail;
    assert q == "\"" + (v + ("\"" + tail)) && v + "" == v && tail + "" == tail;
    QuotedRead(v, "\"" + tail);
    BareQuoted(v + ("\"" + tail));
    PlainIff(tail);
    BareAfter(tail, "");
    TailDropped(tail);
    ClosedRead();
    OneToken(q, v);
  }

  lemma TailDropped(tail: string)
    ensures Quoted("\"" + tail) == ("", Bare(tail).1)
  {
    assert ("\"" + tail)[1..] == tail;
  }

  lemma {:induction false} QuotedRead(v: string, rest: string)
    requires '"' !in v && '\\' !in v
    ensures Quoted(v + rest) == (v + Quoted(rest).0, Quoted(rest).1)
    decreases |v|
  {
    if v == "" {
      assert v + rest == rest && v + Quoted(rest).0 == Quoted(rest).0;
    } else {
      assert v[0] in v && forall c <- v[1..] :: c in v;
      assert (v + rest)[0] == v[0] && (v + rest)[1..] == v[1..] + rest;
      QuotedRead(v[1..], rest);
      assert [v[0]] + (v[1..] + Quoted(rest).0) == v + Quoted(rest).0;
    }
  }

  // No argument is as long as the line it comes from, unless the line is a plain word.
  lemma {:induction false} TokenShorter(w: string, k: nat)
    requires k < |Tokens(w)|
    ensures |Tokens(w)[k]| <= |w| && (|Tokens(w)[k]| == |w| ==> Plain(w))
    decreases |w|
  {
    hide Bare, SkipBlanks, Plain;
    var t := SkipBlanks(w);
    BareShortens(t);
    assert |t| == |w| ==> w[0..] == w == t;
    if k > 0 {
      assert Tokens(w)[k] == Tokens(Bare(t).1)[k - 1];
      TokenShorter(Bare(t).1, k - 1);
    }
  }

  lemma NoBlanks(w: string)
    requires w != "" && !Blank(w[0])
    ensures SkipBlanks(w) == w
  {
  }

  // What comes before the first blank is the first argument.
  lemma WordTokens(a: string, w: string)
    requires a != "" && Plain(a)
    ensures Tokens(a + (" " + w)) == [a] + Tokens(w)
  {
    hide Bare, SkipBlanks;
    BareAfter(a, " " + w);
    assert Bare(" " + w) == ("", w) by {
      BareBlank(w);
    }
    assert a + "" == a;
    NoBlanks(a + (" " + w));
  }

  lemma BareBlank(w: string)
    ensures Bare(" " + w) == ("", w)
  {
    assert (" " + w)[1..] == w;
  }

  lemma SetTokens(w: string)
    ensures Tokens("set " + w) == ["set"] + Tokens(w)
  {
    assert "set" + (" " + w) == "set " + w;
    WordTokens("set", w);
  }

  lemma PairIff(arg: string, u: Update)
    ensures Pair(arg) == [u] <==> arg == u.name + ("=" + u.value) && '=' !in u.name
  {
    var p := FirstOf(arg, '=');
    if p < |arg| {
      assert arg == arg[..p] + ("=" + arg[p + 1..]);
    }
    if arg == u.name + ("=" + u.value) && '=' !in u.name {
      var n := |u.name|;
      assert arg[n] == '=' && arg[..n] == u.name && arg[n + 1..] == u.value;
      assert forall j :: 0 <= j < n ==> arg[j] == u.name[j];
    }
  }

  // A single update comes from a single argument.
  lemma {:induction false} PairFrom(argv: seq<string>, k: nat, u: Update) returns (j: nat)
    requires k <= |argv| && Pairs(argv, k) == [u]
    ensures k <= j < |argv| && argv[j] == u.name + ("=" + u.value) && '=' !in u.name
    decreases |argv| - k
  {
    var rest := Pairs(argv, k + 1);
    PairIff(argv[k], u);
    if Pair(argv[k]) == [] {
      assert [] + rest == rest;
      j := PairFrom(argv, k + 1, u);
    } else {
      assert (Pair(argv[k]) + rest)[0] == Pair(argv[k])[0];
      j := k;
    }
  }

  // A single line asks for its update, exactly when name and value are plain words and the name
  // has no `=`.
  lemma SetAskedIff(u: Update)
    requires NUL !in SetLine(u)
    ensures Asked(SetLine(u)) == [u] <==> Plain(u.name) && Plain(u.value) && '=' !in u.name
  {
    hide Tokens, Plain, Pairs, Pair, CString;
    var w := u.name + ("=" + u.value);
    WholeString(SetLine(u));
    SetTokens(w);
    assert u.name + "=" + u.value == w;
    PlainParts(u.name, u.value);
    var argv := Tokens(SetLine(u));
    if Asked(SetLine(u)) == [u] {
      var j := PairFrom(argv, 1, u);
      assert argv[j] == Tokens(w)[j - 1];
      TokenShorter(w, j - 1);
    }
    if Plain(w) && '=' !in u.name {
      PlainToken(w);
      PairIff(w, u);
      OnePair("set", w);
      assert argv == ["set", w];
    }
  }

  lemma WholeString(s: string)
    requires NUL !in s
    ensures CString(s) == s
  {
    assert s[..|s|] == s;
  }

  lemma OnePair(a: string, w: string)
    ensures Pairs([a, w], 1) == Pair(w)
  {
    assert Pairs([a, w], 2) == [] && Pair(w) + [] == Pair(w);
  }

  lemma PlainParts(a: string, b: string)
    ensures Plain(a + "=" + b) <==> Plain(a) && Plain(b)
  {
    var w := a + "=" + b;
    if Plain(w) {
      forall k | 0 <= k < |a| ensures a[k] == w[k] {
      }
      forall k | 0 <= k < |b| ensures b[k] == w[|a| + 1 + k] {
      }
    }
  }

  lemma {:induction false} QuotedIff(v: string)
    ensures Quoted(v + "\"").0 == v <==> Quotable(v)
    ensures Quotable(v) ==> Quoted(v + "\"").1 == ""
    decreases |v|
  {
    var s := v + "\"";
    assert v == "" ==> s == "\"" && s[1..] == "";
    if v != "" {
      assert s[1..] == v[1..] + "\"" && s[0] == v[0];
      assert v == [v[0]] + v[1..];
      QuotedIff(v[1..]);
      if v[0] == '\\' && |v| > 1 {
        assert s[2..][|v| - 2] == '"';
        QuotedShortens(s[2..]);
      }
    }
  }

  // In a single line, the quoted form takes any value without quotes and backslashes.
  lemma QuotedAskedIff(u: Update)
    requires Plain(u.name) && '=' !in u.name && NUL !in QuotedLine(u)
    ensures Asked(QuotedLine(u)) == [u] <==> Quotable(u.value)
  {
    hide Tokens, Quoted, CString;
    var r := Quoted(u.value + "\"");
    var a := u.name + ("=" + r.0);
    WholeString(QuotedLine(u));
    QuotedTokens(u);
    QuotedIff(u.value);
    PairIff(a, Update(u.name, r.0));
    var argv := Tokens(QuotedLine(u));
    assert argv[1] == a;
    assert Asked(QuotedLine(u))[0] == Update(u.name, r.0);
    if Quotable(u.value) {
      NoTokens();
      assert argv == ["set", a];
      OnePair("set", a);
    }
  }

  lemma NoTokens()
    ensures Tokens("") == []
  {
  }

  lemma QuotedTokens(u: Update)
    requires Plain(u.name) && '=' !in u.name
    ensures var r := Quoted(u.value + "\"");
            Tokens(QuotedLine(u)) == ["set", u.name + ("=" + r.0)] + Tokens(r.1)
  {
    hide Tokens, Bare, Quoted;
    var q := u.value + "\"";
    var n := u.name + "=";
    var w := u.name + ("=\"" + q);
    assert w == n + ("\"" + q);
    SetTokens(w);
    PlainParts(u.name, "");
    assert n + "" == n;
    PlainTokens(n, "\"" + q);
    BareQuoted(q);
    var r := Quoted(q);
    assert n + r.0 == u.name + ("=" + r.0);
    assert n + ("\"" + q) == w;
    assert ["set"] + ([n + r.0] + Tokens(r.1)) == ["set", n + r.0] + Tokens(r.1);
  }

  lemma PlainTokens(n: string, rest: string)
    requires n != "" && Plain(n)
    ensures Tokens(n + rest) == [n + Bare(rest).0] + Tokens(Bare(rest).1)
  {
    hide Bare, SkipBlanks;
    BareAfter(n, rest);
    NoBlanks(n + rest);
  }

  lemma BareQuoted(q: string)
    ensures Bare("\"" + q) == Quoted(q)
  {
    assert ("\"" + q)[1..] == q;
  }

  // ---------------------------------------------------------------- lines as bytes

  // No character comes from nowhere.
  lemma {:induction false} BareFrom(s: string, c: char)
    requires c !in s
    ensures c !in Bare(s).0 && c !in Bare(s).1
    decreases |s|
  {
    if s != "" && !Blank(s[0]) {
      assert forall d <- s[1..] :: d in s;
      if s[0] == '"' {
        QuotedFrom(s[1..], c);
      } else if s[0] == '\\' {
        if |s| > 1 {
          assert forall d <- s[2..] :: d in s;
          BareFrom(s[2..], c);
        }
      } else {
        BareFrom(s[1..], c);
      }
    }
  }

  lemma {:induction false} QuotedFrom(s: string, c: char)
    requires c !in s
    ensures c !in Quoted(s).0 && c !in Quoted(s).1
    decreases |s|
  {
    if s != "" {
      assert forall d <- s[1..] :: d in s;
      if s[0] == '"' {
        BareFrom(s[1..], c);
      } else if s[0] == '\\' {
        if |s| > 1 {
          assert forall d <- s[2..] :: d in s;
          QuotedFrom(s[2..], c);
        }
      } else {
        QuotedFrom(s[1..], c);
      }
    }
  }

  lemma {:induction false} TokensFrom(s: string, c: char)
    requires c !in s
    ensures forall t <- Tokens(s) :: c !in t
    decreases |s|
  {
    hide Bare;
    if s != "" {
      var t := SkipBlanks(s);
      assert t == s[|s| - |t|..] && forall d <- t :: d in s;
      BareFrom(t, c);
      TokensFrom(Bare(t).1, c);
    }
  }

  lemma {:induction false} PairsFrom(argv: seq<string>, k: nat, c: char)
    requires k <= |argv| && forall t <- argv :: c !in t
    ensures forall u <- Pairs(argv, k) :: c !in u.name && c !in u.value
    decreases |argv| - k
  {
    if k < |argv| {
      PairsFrom(argv, k + 1, c);
      assert c !in argv[k];
    }
  }

  // No update is asked for with a newline or a NUL in it.
  lemma {:induction false} AskedAllFrom(lines: seq<string>)
    requires forall l <- lines :: '\n' !in l
    ensures forall u <- AskedAll(lines) :: '\n' !in u.name && '\n' !in u.value && NUL !in u.name && NUL !in u.value
    decreases |lines|
  {
    hide Tokens, Pairs, CString;
    if lines != [] {
      var s := CString(lines[0]);
      assert '\n' !in lines[0] && '\n' !in s by {
        CStringFrom(lines[0]);
      }
      TokensFrom(s, '\n');
      TokensFrom(s, NUL);
      if Tokens(s) != [] {
        PairsFrom(Tokens(s), 1, '\n');
        PairsFrom(Tokens(s), 1, NUL);
      }
      AskedAllFrom(lines[1..]);
    }
  }

  lemma CStringFrom(s: string)
    ensures forall c <- CString(s) :: c in s
  {
  }

  lemma {:induction false} LinesHaveNone(line: string, s: string)
    requires '\n' !in line
    ensures '\n' !in Feed(line, s).1 && forall l <- Feed(line, s).0 :: '\n' !in l
    decreases |s|
  {
    if s != "" {
      LinesHaveNone(if s[0] == '\n' then "" else line + [s[0]], s[1..]);
    }
  }

  // A line of one's own is heard as what it asks for.
  lemma OneLine(line: string)
    requires line != "" && '\n' !in line
    ensures Heard(line + "\n") == (Asked(line), "")
  {
    hide Asked;
    FeedLine("", line);
    assert "" + line == line;
    assert [line][1..] == [] && AskedAll([]) == [];
    assert AskedAll([line]) == Asked(line) + [] == Asked(line);
  }

  lemma HeardHasNone(bytes: string)
    ensures forall u <- Heard(bytes).0 :: '\n' !in u.name && '\n' !in u.value && NUL !in u.name && NUL !in u.value
  {
    LinesHaveNone("", bytes);
    AskedAllFrom(Feed("", bytes).0);
  }

  // The bytes printed for an update are heard as that update, exactly when name and value are plain
  // words and the name has no `=`.
  lemma SetLineIff(u: Update)
    ensures Heard(SetLine(u) + "\n") == ([u], "") <==> Plain(u.name) && Plain(u.value) && '=' !in u.name
  {
    hide Heard, Asked, Plain;
    HeardHasNone(SetLine(u) + "\n");
    if Heard(SetLine(u) + "\n") == ([u], "") {
      assert u in Heard(SetLine(u) + "\n").0;
    }
    if Plain(u.name) && Plain(u.value) {
      NoneInPlain(u.name);
      NoneInPlain(u.value);
    }
    if '\n' !in SetLine(u) && NUL !in SetLine(u) {
      OneLine(SetLine(u));
      SetAskedIff(u);
    }
  }

  // With the line and the characters written out.
  lemma LegibleIsHeard(name: string, value: string)
    requires Legible(name) && Legible(value) && '=' !in name
    ensures Heard("set " + name + "=" + value + "\n") == ([Update(name, value)], "")
  {
    hide Heard;
    PlainIff(name);
    PlainIff(value);
    SetLineIff(Update(name, value));
    assert SetLine(Update(name, value)) + "\n" == "set " + name + "=" + value + "\n";
  }

  // The answer, for one argument: nothing if the sink exists, else one of the two errors.
  lemma ReplyToSet(full: bool, sinks: seq<Endpoint>, name: string, value: string)
    requires Legible(name) && Legible(value) && '=' !in name
    ensures name != "" ==> Reply(full, sinks, "set " + name) == ".ERROR: Syntax error in command: " + name + "\n"
    ensures Reply(full, sinks, "set " + name + "=" + value) ==
            if exists e <- sinks :: Named(e, full, name) then "" else ".ERROR: Unknown sink: " + name + "\n"
  {
    hide Named, Argv, Reply, Plain, SetOne, Legible;
    var w := name + "=" + value;
    SetOneMeans(full, (sinks, ""), name, value);
    LegiblePair(name, value);
    OneArgument(w);
    assert "set " + name + "=" + value == "set " + w;
    OneReply(full, sinks, w);
    if name != "" {
      OneArgument(name);
      OneReply(full, sinks, name);
    }
    Prefixed(name);
  }

  lemma Prefixed(name: string)
    ensures "" + ".ERROR: Syntax error in command: " + name + "\n" == ".ERROR: Syntax error in command: " + name + "\n"
    ensures "" + ".ERROR: Unknown sink: " + name + "\n" == ".ERROR: Unknown sink: " + name + "\n"
  {
  }

  lemma LegiblePair(name: string, value: string)
    requires Legible(name) && Legible(value)
    ensures Plain(name) && Plain(name + "=" + value)
  {
    PlainIff(name);
    PlainIff(name + "=" + value);
  }

  lemma OneArgument(w: string)
    requires Plain(w) && w != ""
    ensures Argv("set " + w) == ["set", w]
  {
    hide Tokens, Plain;
    NoneInPlain(w);
    WholeString("set " + w);
    SetTokens(w);
    PlainToken(w);
  }

  lemma OneReply(full: bool, sinks: seq<Endpoint>, w: string)
    requires Argv("set " + w) == ["set", w]
    ensures Reply(full, sinks, "set " + w) == SetOne(full, (sinks, ""), w).1
  {
    hide SetOne;
    var o := SetOne(full, (sinks, ""), w);
    assert SetFrom(full, o, ["set", w], 2) == o;
  }

  lemma NoneInPlain(w: string)
    requires Plain(w)
    ensures '\n' !in w && NUL !in w
  {
  }

  // The quoted bytes are, for a plain name, exactly when the value has neither quote, nor
  // backslash, nor newline, nor NUL.
  lemma QuotedLineIff(u: Update)
    requires Plain(u.name) && '=' !in u.name
    ensures Heard(QuotedLine(u) + "\n") == ([u], "") <==> Sayable(u.value, true)
  {
    hide Heard, Asked, Plain;
    HeardHasNone(QuotedLine(u) + "\n");
    NoneInPlain(u.name);
    if Heard(QuotedLine(u) + "\n") == ([u], "") {
      assert u in Heard(QuotedLine(u) + "\n").0;
    }
    if '\n' !in QuotedLine(u) && NUL !in QuotedLine(u) {
      OneLine(QuotedLine(u));
      QuotedAskedIff(u);
    }
  }

  // Where the value is not sayable, no update with that value is heard at all.
  lemma NeverSaid(u: Update)
    requires Plain(u.name) && '=' !in u.name && !Sayable(u.value, true)
    ensures forall x <- Heard(QuotedLine(u) + "\n").0 :: x.value != u.value
  {
    hide Heard, Asked, Plain, Quoted, Tokens, Pairs, CString;
    var line := QuotedLine(u);
    HeardHasNone(line + "\n");
    NoneInPlain(u.name);
    if '\n' !in u.value && NUL !in u.value {
      OneLine(line);
      WholeString(line);
      QuotedTokens(u);
      QuotedIff(u.value);
      var q := u.value + "\"";
      QuotedShortens(q);
      var r := Quoted(q);
      var argv := Tokens(line);
      assert argv == ["set", u.name + ("=" + r.0)] + Tokens(r.1);
      assert Asked(line) == Pairs(argv, 1) by {
        AskedIs(line);
      }
      PairIff(argv[1], Update(u.name, r.0));
      forall k | 2 <= k < |argv| ensures |argv[k]| <= |u.value| {
        assert argv[k] == Tokens(r.1)[k - 2];
        TokenShorter(r.1, k - 2);
      }
      ValuesNot(argv, 1, u.value);
    }
  }

  lemma AskedIs(line: string)
    requires Argv(line) != [] && Argv(line)[0] == "set"
    ensures Asked(line) == Pairs(Argv(line), 1)
  {
  }

  lemma {:induction false} ValuesNot(argv: seq<string>, k: nat, v: string)
    requires k <= |argv|
    requires forall j :: k <= j < |argv| ==> |argv[j]| <= |v| || forall x <- Pair(argv[j]) :: x.value != v
    ensures forall x <- Pairs(argv, k) :: x.value != v
    decreases |argv| - k
  {
    if k < |argv| {
      ValuesNot(argv, k + 1, v);
      assert |argv[k]| <= |v| ==> forall x <- Pair(argv[k]) :: |x.value| < |argv[k]|;
    }
  }

  lemma {:induction false} LastValueFrom(full: bool, sinks: seq<Endpoint>, us: seq<Update>, i: nat)
    requires i < |sinks|
    ensures LastValue(full, sinks, us, i) == sinks[i].value
            || exists u <- us :: u.value == LastValue(full, sinks, us, i)
    decreases |us|
  {
    if us != [] {
      LastValueFrom(full, sinks, us[..|us| - 1], i);
      assert us[|us| - 1] in us && forall u <- us[..|us| - 1] :: u in us;
    }
  }

  // So, for every table of sinks, the quoted bytes do what the update says exactly then.
  lemma QuotedUnderstoodIff(u: Update)
    requires Plain(u.name) && '=' !in u.name
    ensures Sayable(u.value, true) <==>
            forall full, sinks :: Receive(full, Remote("", sinks), QuotedLine(u) + "\n") == Remote("", Assign(full, sinks, u))
  {
    hide Heard, Receive, Plain, LastValue;
    var bytes := QuotedLine(u) + "\n";
    if Sayable(u.value, true) {
      forall full, sinks ensures Receive(full, Remote("", sinks), bytes) == Remote("", Assign(full, sinks, u)) {
        QuotedLineIff(u);
        ReceiveIsHeard(full, sinks, bytes);
        AssignOne(full, sinks, u);
      }
    } else {
      var e := Endpoint("", u.name[AfterLast(u.name, '.')..], u.value + "x", false, false);
      var sinks := [e];
      NeverSaid(u);
      ReceiveIsHeard(false, sinks, bytes);
      AssignedValue(false, sinks, Heard(bytes).0);
      LastValueFrom(false, sinks, Heard(bytes).0, 0);
      assert Named(e, false, u.name);
      assert Assign(false, sinks, u)[0].value == u.value;
      assert Receive(false, Remote("", sinks), bytes).sinks[0].value != u.value;
    }
  }

  lemma AssignOne(full: bool, sinks: seq<Endpoint>, u: Update)
    ensures AssignAll(full, sinks, [u]) == Assign(full, sinks, u)
  {
    assert [u][1..] == [];
  }

  // ---------------------------------------------------------------- from printer to sinks

  predicate Clean(us: seq<Update>, quoted: bool := false) {
    forall k :: 0 <= k < |us| ==> Plain(us[k].name) && '=' !in us[k].name && Sayable(us[k].value, quoted)
  }

  // Updates as they are sent, one line each.
  function Printed(us: seq<Update>, quoted: bool := false): string
    decreases |us|
  {
    if us == [] then "" else Line(us[0], quoted) + "\n" + Printed(us[1..], quoted)
  }

  lemma {:induction false} PrintedAppend(us: seq<Update>, vs: seq<Update>)
    ensures Printed(us + vs) == Printed(us) + Printed(vs)
    decreases |us|
  {
    if us == [] {
      assert us + vs == vs;
    } else {
      assert (us + vs)[1..] == us[1..] + vs;
      PrintedAppend(us[1..], vs);
    }
  }

  // One clean update is one line, which assigns it.
  lemma ReceiveLine(full: bool, sinks: seq<Endpoint>, u: Update, quoted: bool)
    requires Plain(u.name) && '=' !in u.name && Sayable(u.value, quoted)
    ensures Receive(full, Remote("", sinks), Line(u, quoted) + "\n") == Remote("", Assign(full, sinks, u))
  {
    hide Receive, Heard, Plain;
    if quoted {
      QuotedLineIff(u);
    } else {
      SetLineIff(u);
    }
    ReceiveIsHeard(full, sinks, Line(u, quoted) + "\n");
    AssignOne(full, sinks, u);
  }

  lemma {:induction false} ReceivePrinted(full: bool, sinks: seq<Endpoint>, us: seq<Update>, quoted: bool)
    requires Clean(us, quoted)
    ensures Receive(full, Remote("", sinks), Printed(us, quoted)) == Remote("", AssignAll(full, sinks, us))
    decreases |us|
  {
    hide Assign, Receive, Line;
    var r := Remote("", sinks);
    if us == [] {
      ReceiveNothing(full, r);
    } else {
      var line := Line(us[0], quoted) + "\n";
      ReceiveAppend(full, r, line, Printed(us[1..], quoted));
      ReceiveLine(full, sinks, us[0], quoted);
      ReceivePrinted(full, Assign(full, sinks, us[0]), us[1..], quoted);
    }
  }

  lemma ReceiveNothing(full: bool, r: Remote)
    ensures Receive(full, r, "") == r
  {
  }

  function ReceiveAll(full: bool, r: Remote, frags: seq<string>): Remote
    decreases |frags|
  {
    if frags == [] then r else ReceiveAll(full, Receive(full, r, frags[0]), frags[1..])
  }

  lemma {:induction false} ReceiveFragments(full: bool, r: Remote, frags: seq<string>)
    ensures ReceiveAll(full, r, frags) == Receive(full, r, Concat(frags))
    decreases |frags|
  {
    hide Receive;
    if frags == [] {
      ReceiveNothing(full, r);
    } else {
      ReceiveFragments(full, Receive(full, r, frags[0]), frags[1..]);
      ReceiveAppend(full, r, frags[0], Concat(frags[1..]));
    }
  }

  // Clean updates, printed in either form, cut anywhere, framed, tokenised and split, are assigned
  // in their order.
  lemma SetRoundTrip(full: bool, sinks: seq<Endpoint>, us: seq<Update>, quoted: bool, frags: seq<string>)
    requires Clean(us, quoted) && Concat(frags) == Printed(us, quoted)
    ensures ReceiveAll(full, Remote("", sinks), frags) == Remote("", AssignAll(full, sinks, us))
  {
    ReceiveFragments(full, Remote("", sinks), frags);
    ReceivePrinted(full, sinks, us, quoted);
  }

  // The receiving end as it runs: whatever the fragments, the sinks end assigned in order.
  method DeliverAll(full: bool, table: seq<Endpoint>, ghost us: seq<Update>, ghost quoted: bool, frags: seq<string>)
    returns (sinks: seq<Endpoint>)
    requires Clean(us, quoted) && Concat(frags) == Printed(us, quoted)
    ensures sinks == AssignAll(full, table, us)
  {
    hide Receive;
    var conn := new Connection(full, table);
    var i := 0;
    assert frags[0..] == frags;
    while i < |frags|
      invariant 0 <= i <= |frags| && conn.full == full
      invariant ReceiveAll(full, Remote(conn.cmd.line, conn.sinks), frags[i..]) == ReceiveAll(full, Remote("", table), frags)
    {
      assert frags[i..][1..] == frags[i + 1..];
      conn.Recv(frags[i]);
      i := i + 1;
    }
    SetRoundTrip(full, table, us, quoted, frags);
    sinks := conn.sinks;
  }
}
