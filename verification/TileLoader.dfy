// Reading a tile file by chunks: a logical line goes on when the next line starts with a space
// (core/mod_load.c).
module TileLoader {
  import opened Chars
  import Framing

  // Characters below the space, save newlines, become spaces; where `char` is signed, so do those
  // of the upper half.
  function Printable(c: char): (r: char)
    ensures r != NUL
  {
    if c != '\n' && (c < ' ' || (SIGNED && c >= 128 as char)) then ' ' else c
  }

  function Sanitised(s: string): (r: string)
    ensures |r| == |s| && NUL !in r
  {
    seq(|s|, i requires 0 <= i < |s| => Printable(s[i]))
  }

  // ---------------------------------------------------------------- logical lines

  // The lines of a text: cut at the newlines that are followed by something other than a space.
  // What follows the last one counts if it is not empty; newlines that do not cut disappear.
  function Lines(line: string, s: string): seq<string>
    decreases |s|
  {
    if s == "" then (if line == "" then [] else [line])
    else if s[0] != '\n' then Lines(line + [s[0]], s[1..])
    else if |s| > 1 && s[1] != ' ' then [line] + Lines("", s[1..])
    else Lines(line, s[1..])
  }

  // Newlines and the characters from the space to 127 stay; other control characters become spaces, as
  // do those from 128 on where `char` is signed.
  lemma SanitisedIs(s: string, i: nat)
    requires i < |s|
    ensures Sanitised(s)[i] == if s[i] == '\n' || ' ' <= s[i] < 128 as char then s[i]
                               else if s[i] < ' ' || SIGNED then ' ' else s[i]
  {
  }

  // A logical line as it is written: parts on lines of their own.
  function Unfolded(parts: seq<string>): string {
    if parts == [] then "" else parts[0] + "\n" + Unfolded(parts[1..])
  }

  function Written(ls: seq<seq<string>>): string {
    if ls == [] then "" else Unfolded(ls[0]) + Written(ls[1..])
  }

  function Whole(ls: seq<seq<string>>): seq<string> {
    if ls == [] then [] else [Framing.Concat(ls[0])] + Whole(ls[1..])
  }

  // The first part starts with something other than a space, the others with one.
  predicate Foldable(parts: seq<string>) {
    && parts != [] && parts[0] != "" && parts[0][0] != ' '
    && forall k :: 0 <= k < |parts| ==> '\n' !in parts[k] && (k > 0 ==> parts[k] != "" && parts[k][0] == ' ')
  }

  lemma {:induction false} PartRead(line: string, p: string, rest: string)
    requires '\n' !in p
    ensures Lines(line, p + "\n" + rest) ==
            if rest != "" && rest[0] != ' ' then [line + p] + Lines("", rest) else Lines(line + p, rest)
    decreases |p|
  {
    var s := p + "\n" + rest;
    if p == "" {
      assert s[0] == '\n' && s[1..] == rest && line + p == line;
    } else {
      assert p[0] in p && s[0] == p[0] && s[1..] == p[1..] + "\n" + rest;
      PartRead(line + [p[0]], p[1..], rest);
      assert line + [p[0]] + p[1..] == line + p;
    }
  }

  lemma LinesEnd(line: string)
    ensures Lines(line, "") == if line == "" then [] else [line]
  {
  }

  lemma {:induction false} PartsRead(line: string, parts: seq<string>, rest: string)
    requires parts != [] && line + parts[0] != "" && (rest == "" || rest[0] != ' ')
    requires forall k :: 0 <= k < |parts| ==> '\n' !in parts[k] && (k > 0 ==> parts[k] != "" && parts[k][0] == ' ')
    ensures Lines(line, Unfolded(parts) + rest) == [line + Framing.Concat(parts)] + Lines("", rest)
    decreases |parts|
  {
    hide Lines, Unfolded, Framing.Concat;
    var p, tail := parts[0], parts[1..];
    var more := Unfolded(tail) + rest;
    PartFirst(line, parts, rest);
    PartRead(line, p, more);
    LinesEnd("");
    LinesEnd(line + p);
    if tail == [] {
      assert [line + p] + [] == [line + p];
    } else {
      PartFirst("", tail, rest);
      assert more[0] == tail[0][0] == ' ';
      PartsRead(line + p, tail, rest);
    }
  }

  lemma PartFirst(line: string, parts: seq<string>, rest: string)
    requires parts != []
    ensures Unfolded(parts) + rest == parts[0] + "\n" + (Unfolded(parts[1..]) + rest)
    ensures line + Framing.Concat(parts) == line + parts[0] + Framing.Concat(parts[1..])
    ensures |parts| == 1 ==> Unfolded(parts[1..]) + rest == rest && Framing.Concat(parts) == parts[0]
  {
    var u, c := Unfolded(parts[1..]), Framing.Concat(parts[1..]);
    assert Unfolded(parts) == parts[0] + "\n" + u && Framing.Concat(parts) == parts[0] + c;
    assert |parts| == 1 ==> u == c == "";
    hide Unfolded, Framing.Concat;
    Assoc(parts[0] + "\n", u, rest);
    Assoc(line, parts[0], c);
  }

  lemma Assoc(a: string, b: string, c: string)
    ensures a + b + c == a + (b + c)
    ensures b == "" ==> b + c == c && c + b == c
    ensures a + "" == a
  {
  }

  // Whatever parts logical lines are written in, they are what is read.
  lemma {:induction false} WrittenRead(ls: seq<seq<string>>)
    requires forall k :: 0 <= k < |ls| ==> Foldable(ls[k])
    ensures Lines("", Written(ls)) == Whole(ls)
    decreases |ls|
  {
    if ls != [] {
      WrittenRead(ls[1..]);
      var rest := Written(ls[1..]);
      if |ls| > 1 {
        assert rest[0] == ls[1][0][0] && ls[1][0][0] in ls[1][0];
      }
      assert "" + ls[0][0] == ls[0][0];
      PartsRead("", ls[0], rest);
      assert "" + Framing.Concat(ls[0]) == Framing.Concat(ls[0]);
    }
  }

  // The same text, character by character: whether a newline is still to be judged.
  datatype State = State(lines: seq<string>, line: string, pending: bool)

  function Step(x: State, c: char): State {
    var y := if x.pending && c != ' ' then State(x.lines + [x.line], "", false) else x.(pending := false);
    if c == '\n' then y.(pending := true) else y.(line := y.line + [c])
  }

  function Run(x: State, s: string): State
    decreases |s|
  {
    if s == "" then x else Run(Step(x, s[0]), s[1..])
  }

  function Finish(x: State): seq<string> {
    x.lines + if x.line == "" then [] else [x.line]
  }

  lemma {:induction false} RunAppend(x: State, a: string, b: string)
    ensures Run(x, a + b) == Run(Run(x, a), b)
    decreases |a|
  {
    if a == "" {
      assert a + b == b;
    } else {
      assert (a + b)[1..] == a[1..] + b;
      RunAppend(Step(x, a[0]), a[1..], b);
    }
  }

  lemma {:induction false} RunIsLines(x: State, s: string)
    ensures Finish(Run(x, s)) ==
            if x.pending && s != "" && s[0] != ' ' then x.lines + ([x.line] + Lines("", s)) else x.lines + Lines(x.line, s)
    decreases |s|
  {
    if s != "" {
      var y := if x.pending && s[0] != ' ' then State(x.lines + [x.line], "", false) else x.(pending := false);
      RunIsLines(Step(x, s[0]), s[1..]);
      assert x.lines + [x.line] + Lines("", s) == x.lines + ([x.line] + Lines("", s));
      if s[0] == '\n' {
        assert |s| > 1 ==> s[1..][0] == s[1];
        assert |s| == 1 ==> s[1..] == "" && Lines(y.line, s[1..]) == Lines(y.line, "");
      }
    }
  }

  lemma {:induction false} SanitisedConcat(a: string, b: string)
    ensures Sanitised(a + b) == Sanitised(a) + Sanitised(b)
  {
  }

  // Text without a newline, when none is to be judged.
  lemma {:induction false} RunText(x: State, s: string)
    requires '\n' !in s && !x.pending
    ensures Run(x, s) == x.(line := x.line + s)
    decreases |s|
  {
    if s == "" {
      assert x.line + s == x.line;
    } else {
      assert s[0] in s;
      RunText(Step(x, s[0]), s[1..]);
      assert x.line + [s[0]] + s[1..] == x.line + s;
    }
  }

  lemma RunNone(x: State)
    ensures Run(x, "") == x
  {
  }

  lemma RunOne(x: State, s: string)
    requires s != ""
    ensures Run(x, s) == Run(Step(x, s[0]), s[1..])
  {
  }

  // A line, its newline, and what comes next in the same chunk.
  lemma RunLine(x: State, s: string, n: nat)
    requires !x.pending && n < |s| && s[n] == '\n' && '\n' !in s[..n]
    ensures var y := x.(line := x.line + s[..n]);
            Run(x, s) == if n + 1 == |s| then y.(pending := true)
                         else if s[n + 1] != ' ' then Run(State(y.lines + [y.line], "", false), s[n + 1..])
                         else Run(y, s[n + 1..])
  {
    hide Run;
    var y := x.(line := x.line + s[..n]);
    RunText(x, s[..n]);
    assert s == s[..n] + s[n..];
    RunAppend(x, s[..n], s[n..]);
    assert s[n..][1..] == s[n + 1..];
    RunOne(y, s[n..]);
    if n + 1 == |s| {
      RunNone(y.(pending := true));
    } else {
      Judged(y.(pending := true), s[n + 1..]);
    }
  }

  // A newline is judged by the next character.
  lemma Judged(x: State, s: string)
    requires s != "" && x.pending
    ensures Run(x, s) == Run(if s[0] != ' ' then State(x.lines + [x.line], "", false) else x.(pending := false), s)
  {
  }

  // ---------------------------------------------------------------- the reader

  class Loader {
    var lines: seq<string>     // what hk_tile_load_line was given
    var buf: string
    var check_nl: bool

    ghost function Now(): State
      reads this
    {
      State(lines, buf, check_nl)
    }

    constructor ()
      ensures Now() == State([], "", false)
    {
      lines, buf, check_nl := [], "", false;
    }

    method LoadLine()
      modifies this`lines, this`buf
      ensures lines == old(lines) + [old(buf)] && buf == ""
    {
      lines := lines + [buf];
      buf := "";
    }

    // strchr for a newline in a NUL-terminated string; at its end when there is none
    method StrChr(str: array<char>, s: nat, ghost len: nat) returns (e: nat)
      requires s <= len < str.Length && str[len] == NUL && NUL !in str[..len]
      ensures s <= e <= len && '\n' !in str[s..e] && (str[e] == NUL <==> e == len) && (e < len ==> str[e] == '\n')
    {
      e := s;
      while str[e] != NUL && str[e] != '\n'
        invariant s <= e <= len && '\n' !in str[s..e]
        decreases len - e
      {
        assert str[..len][e] == str[e];
        e := e + 1;
      }
      assert e < len ==> str[..len][e] == str[e];
    }

    // One turn of the reading loop, on the len characters read.
    method LoadChunk(str: array<char>, len: nat)
      requires len < str.Length
      modifies this, str
      ensures Now() == Run(old(Now()), Sanitised(old(str[..len])))
    {
      ghost var text, was := Sanitised(str[..len]), Now();
      if len > 0 {
        var i := 0;
        while i < len
          invariant 0 <= i <= len && Now() == was
          invariant forall k :: 0 <= k < i ==> str[k] == text[k]
          invariant forall k :: i <= k < len ==> str[k] == old(str[k])
        {
          str[i] := Printable(str[i]);
          i := i + 1;
        }
        str[len] := NUL;
        assert str[..len] == text;
        Scan(str, len, text);
      }
    }

    // The scan of a chunk ready to be cut.
    method Scan(str: array<char>, ghost len: nat, ghost text: string)
      requires 0 < len < str.Length && str[..len] == text && str[len] == NUL && NUL !in text
      modifies this
      ensures Now() == Run(old(Now()), text)
    {
      hide Run;
      ghost var was := Now();
      var s1: nat := 0;
      assert text[0..] == text && forall k :: 0 <= k < len ==> str[k] == str[..len][k] == text[k] && text[k] in text;
      if check_nl {
        Judged(was, text);
        check_nl := false;
        if str[s1] != ' ' {
          LoadLine();
        }
      }
      while str[s1] != NUL
        invariant s1 <= len && Run(was, text) == Run(Now(), text[s1..])
        invariant (check_nl ==> s1 == len) && (str[s1] == NUL <==> s1 == len)
        decreases len - s1
      {
        s1 := ScanLine(str, s1, len, text);
      }
      assert text[len..] == "";
      RunNone(Now());
    }

    // One turn of it: up to the next newline, or the end of the chunk.
    method ScanLine(str: array<char>, s1: nat, ghost len: nat, ghost text: string) returns (s2: nat)
      requires s1 < len < str.Length && str[..len] == text && str[len] == NUL && NUL !in text
      requires !check_nl
      modifies this
      ensures s1 < s2 <= len && Run(old(Now()), text[s1..]) == Run(Now(), text[s2..])
      ensures (check_nl ==> s2 == len) && (str[s2] == NUL <==> s2 == len)
    {
      hide Run;
      ghost var x := Now();
      assert forall k :: 0 <= k < len ==> str[k] == text[k] && text[k] in text;
      s2 := StrChr(str, s1, len);
      assert text[len..] == "";
      assert str[s1..s2] == text[s1..s2] == text[s1..][..s2 - s1];
      buf := buf + str[s1..s2];
      if str[s2] == '\n' {
        assert text[s1..][s2 - s1] == str[s2];
        RunLine(x, text[s1..], s2 - s1);
        assert text[s1..][s2 - s1 + 1..] == text[s2 + 1..];
        s2 := s2 + 1;
        if str[s2] == NUL {
          check_nl := true;
          RunNone(Now());
        } else if str[s2] != ' ' {
          LoadLine();
        }
      } else {
        assert text[s1..s2] == text[s1..];
        RunText(x, text[s1..]);
        RunNone(Now());
      }
    }

    // the end of the file
    method End()
      modifies this
      ensures lines == Finish(old(Now()))
    {
      if |buf| > 0 {
        LoadLine();
      }
    }
  }

  // hk_tile_load, when no line fails: whatever the chunks, the lines are those of the whole file.
  method Load(chunks: seq<string>) returns (lines: seq<string>)
    ensures lines == Lines("", Sanitised(Framing.Concat(chunks)))
  {
    var loader := new Loader();
    var i := 0;
    ghost var all := Sanitised(Framing.Concat(chunks));
    assert chunks[0..] == chunks;
    while i < |chunks|
      invariant 0 <= i <= |chunks|
      invariant Run(State([], "", false), all) == Run(loader.Now(), Sanitised(Framing.Concat(chunks[i..])))
    {
      var chunk := chunks[i];
      var str := new char[|chunk| + 1](k requires 0 <= k <= |chunk| => if k < |chunk| then chunk[k] else NUL);
      assert str[..|chunk|] == chunk;
      assert chunks[i..][1..] == chunks[i + 1..];
      SanitisedConcat(chunk, Framing.Concat(chunks[i + 1..]));
      RunAppend(loader.Now(), Sanitised(chunk), Sanitised(Framing.Concat(chunks[i + 1..])));
      loader.LoadChunk(str, |chunk|);
      i := i + 1;
    }
    RunIsLines(State([], "", false), all);
    loader.End();
    lines := loader.lines;
  }
}
