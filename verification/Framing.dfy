// Cutting a stream of characters into lines: the two receivers of the text protocol
// (core/command.c and core/hkcp.c), which buffer differently, against one fold.
module Framing {

  // The non-empty lines completed by s after the unfinished line `line`, and what is left over.
  function Feed(line: string, s: string): (seq<string>, string)
    decreases |s|
  {
    if s == "" then ([], line)
    else if s[0] == '\n' then
      var r := Feed("", s[1..]);
      ((if line == "" then [] else [line]) + r.0, r.1)
    else Feed(line + [s[0]], s[1..])
  }

  function Concat(frags: seq<string>): string {
    if frags == [] then "" else frags[0] + Concat(frags[1..])
  }

  // Lines do not depend on where the stream is cut.
  lemma {:induction false} FeedAppend(line: string, a: string, b: string)
    ensures var f := Feed(line, a);
            Feed(line, a + b) == (f.0 + Feed(f.1, b).0, Feed(f.1, b).1)
    decreases |a|
  {
    if a == "" {
      assert a + b == b;
      assert [] + Feed(line, b).0 == Feed(line, b).0;
    } else {
      assert (a + b)[1..] == a[1..] + b;
      if a[0] == '\n' {
        FeedAppend("", a[1..], b);
        var r := Feed("", a[1..]);
        Assoc(if line == "" then [] else [line], r.0, Feed(r.1, b).0);
      } else {
        FeedAppend(line + [a[0]], a[1..], b);
      }
    }
  }

  lemma Assoc(a: seq<string>, b: seq<string>, c: seq<string>)
    ensures a + b + c == a + (b + c)
  {
  }

  lemma Nothing(line: string, s: string)
    ensures [] + Feed(line, s).0 == Feed(line, s).0
  {
  }

  // Text without a newline only lengthens the unfinished line.
  lemma {:induction false} FeedText(line: string, s: string)
    requires '\n' !in s
    ensures Feed(line, s) == ([], line + s)
    decreases |s|
  {
    if s == "" {
      assert line + s == line;
    } else {
      assert s[0] in s;
      FeedText(line + [s[0]], s[1..]);
      assert line + [s[0]] + s[1..] == line + s;
    }
  }

  lemma FeedLine(line: string, s: string)
    requires '\n' !in s
    ensures Feed(line, s + "\n") == (if line + s == "" then [] else [line + s], "")
  {
    FeedText(line, s);
    FeedAppend(line, s, "\n");
    var r := if line + s == "" then [] else [line + s];
    assert Feed("", "") == ([], "");
    assert Feed(line + s, "\n") == (r + [], "") && [] + (r + []) == r;
  }

  // What ends a line in s from position i on: the first newline, or the end of s.
  method FindNewline(s: string, i: nat) returns (j: nat)
    requires i <= |s|
    ensures i <= j <= |s| && '\n' !in s[i..j] && (j < |s| ==> s[j] == '\n')
  {
    j := i;
    while j < |s| && s[j] != '\n'
      invariant i <= j <= |s| && '\n' !in s[i..j]
    {
      j := j + 1;
    }
  }

  lemma FeedStep(line: string, s: string, i: nat, j: nat)
    requires i <= j <= |s| && '\n' !in s[i..j] && (j < |s| ==> s[j] == '\n')
    ensures j == |s| ==> Feed(line, s[i..]) == ([], line + s[i..j])
    ensures j < |s| ==>
              var whole := line + s[i..j];
              Feed(line, s[i..]) == ((if whole == "" then [] else [whole]) + Feed("", s[j + 1..]).0,
                                     Feed("", s[j + 1..]).1)
  {
    FeedText(line, s[i..j]);
    if j == |s| {
      assert s[i..] == s[i..j];
    } else {
      assert s[i..] == s[i..j] + s[j..];
      FeedAppend(line, s[i..j], s[j..]);
      assert s[j..][1..] == s[j + 1..];
      assert [] + Feed(line + s[i..j], s[j..]).0 == Feed(line + s[i..j], s[j..]).0;
    }
  }

  // The framer of command connections: everything goes through `line`.
  class Command {
    var line: string

    constructor ()
      ensures line == ""
    {
      line := "";
    }

    // command_recv; the lines are handed to the handler
    method Recv(buf: string) returns (lines: seq<string>)
      modifies this
      ensures (lines, line) == Feed(old(line), buf)
    {
      lines := [];
      var i := 0;
      assert buf[0..] == buf;
      Nothing(line, buf);
      while i < |buf|
        invariant 0 <= i <= |buf|
        invariant Feed(old(line), buf) == (lines + Feed(line, buf[i..]).0, Feed(line, buf[i..]).1)
      {
        var j := FindNewline(buf, i);
        FeedStep(line, buf, i, j);
        ghost var before := lines;
        line := line + buf[i..j];
        if j < |buf| {
          ghost var done := if line == "" then [] else [line];
          if |line| > 0 {
            lines := lines + [line];
          }
          assert lines == before + done;
          Assoc(before, done, Feed("", buf[j + 1..]).0);
          line := "";
          j := j + 1;
        } else {
          assert buf[j..] == "";
        }
        i := j;
      }
      assert Feed(line, buf[i..]) == ([], line) && lines + [] == lines;
    }
  }

  // The framer of outgoing connections: a line that fits in one fragment never goes through `rbuf`.
  class NodeReader {
    var rbuf: string

    constructor ()
      ensures rbuf == ""
    {
      rbuf := "";
    }

    // hkcp_node_recv
    method Recv(buf: string) returns (lines: seq<string>)
      modifies this
      ensures (lines, rbuf) == Feed(old(rbuf), buf)
    {
      lines := [];
      var i := 0;
      assert buf[0..] == buf;
      Nothing(rbuf, buf);
      while i < |buf|
        invariant 0 <= i <= |buf|
        invariant Feed(old(rbuf), buf) == (lines + Feed(rbuf, buf[i..]).0, Feed(rbuf, buf[i..]).1)
      {
        var i0 := i;
        i := FindNewline(buf, i);
        FeedStep(rbuf, buf, i0, i);
        ghost var before := lines;
        if i < |buf| {
          var str := buf[i0..i];
          if |rbuf| > 0 {
            str := rbuf + str;
            rbuf := "";
          } else {
            assert rbuf + str == str;
          }
          i := i + 1;
          ghost var done := if str == "" then [] else [str];
          if |str| > 0 {
            lines := lines + [str];
          }
          assert lines == before + done;
          Assoc(before, done, Feed("", buf[i..]).0);
        } else {
          rbuf := rbuf + buf[i0..i];
          assert buf[i..] == "";
        }
      }
      assert Feed(rbuf, buf[i..]) == ([], rbuf) && lines + [] == lines;
    }
  }

  // Whatever the fragments, both receivers deliver the lines of the whole stream.
  method ReceiveBoth(frags: seq<string>) returns (a: seq<string>, b: seq<string>)
    ensures a == b == Feed("", Concat(frags)).0
  {
    var cmd := new Command();
    var node := new NodeReader();
    a, b := [], [];
    var i := 0;
    assert frags[0..] == frags;
    Nothing("", Concat(frags));
    while i < |frags|
      invariant 0 <= i <= |frags| && a == b && cmd.line == node.rbuf
      invariant Feed("", Concat(frags)) == (a + Feed(cmd.line, Concat(frags[i..])).0,
                                            Feed(cmd.line, Concat(frags[i..])).1)
    {
      ghost var before, line := a, cmd.line;
      FeedAppend(line, frags[i], Concat(frags[i + 1..]));
      assert frags[i..][1..] == frags[i + 1..];
      var la, lb;
      la := cmd.Recv(frags[i]);
      lb := node.Recv(frags[i]);
      a, b := a + la, b + lb;
      Assoc(before, la, Feed(cmd.line, Concat(frags[i + 1..])).0);
      i := i + 1;
    }
    assert Feed(cmd.line, Concat(frags[i..])) == ([], cmd.line) && a + [] == a;
  }
}
