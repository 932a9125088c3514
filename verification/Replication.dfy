// Replication of sources to the sinks of other nodes (core/hkcp.c): what a node was sent, the
// subscriptions its answer opens, and what the other end holds.
module Replication {
  import opened Chars
  import opened Framing
  import opened Commands
  import opened SetLines

  // ---------------------------------------------------------------- one session

  datatype State = Sinks | Ready | Removed

  // The sources attached to a node and the updates queued for it.
  datatype Session = Session(state: State, attached: seq<nat>, log: seq<Update>)

  predicate NoDup(s: seq<nat>) {
    forall i, j :: 0 <= i < j < |s| ==> s[i] != s[j]
  }

  function UpdateOf(e: Endpoint): Update {
    Update(e.name, e.value)
  }

  // A line of the remote list of sinks: a name, then whatever follows a space.
  function Offered(line: string): string {
    line[..FirstOf(line, ' ')]
  }

  // The public source that matches a line of the list; |sources| when there is none.
  function Wanted(full: bool, sources: seq<Endpoint>, line: string): (k: nat)
    ensures k <= |sources| && (k < |sources| ==> !sources[k].local)
  {
    var k := Find(sources, full, Offered(line));
    if k < |sources| && !sources[k].local then k else |sources|
  }

  function Attach(s: Session, k: nat): Session {
    if k in s.attached then s else s.(attached := s.attached + [k])
  }

  function Initial(sources: seq<Endpoint>, s: Session, k: nat): Session
    requires k < |sources|
  {
    if sources[k].event then s else s.(log := s.log + [UpdateOf(sources[k])])
  }

  // The list ends with a line that starts with a dot; after it, nothing more is expected.
  function OnLine(full: bool, sources: seq<Endpoint>, s: Session, line: string): Session {
    if s.state != Sinks then s
    else if line != "" && line[0] == '.' then s.(state := if s.attached != [] then Ready else Removed)
    else
      var k := Wanted(full, sources, line);
      if k < |sources| then Initial(sources, Attach(s, k), k) else s
  }

  // Lines are read as strings, up to a NUL if there is one.
  function OnLines(full: bool, sources: seq<Endpoint>, s: Session, lines: seq<string>, k: nat := 0): Session
    requires k <= |lines|
    decreases |lines| - k
  {
    if k == |lines| then s else OnLines(full, sources, OnLine(full, sources, s, CString(lines[k])), lines, k + 1)
  }

  // ---------------------------------------------------------------- what the log carries

  // The position after the last update of that name; 0 when there is none.
  function AfterName(log: seq<Update>, name: string): (d: nat)
    ensures d <= |log| && (d == 0 || log[d - 1].name == name)
    ensures forall j :: d <= j < |log| ==> log[j].name != name
  {
    if log == [] then 0
    else if log[|log| - 1].name == name then |log|
    else AfterName(log[..|log| - 1], name)
  }

  predicate Attached(sources: seq<Endpoint>, attached: seq<nat>, name: string)
    requires forall j <- attached :: j < |sources|
  {
    exists i <- attached :: sources[i].name == name
  }

  // The last thing said under that name is the value of an attached source of that name, unless
  // that source is in `pending`.
  predicate Voiced(sources: seq<Endpoint>, pending: set<nat>, s: Session, name: string)
    requires forall j <- s.attached :: j < |sources|
  {
    var d := AfterName(s.log, name);
    d > 0 ==> exists j <- s.attached ::
      sources[j].name == name && (j in pending || sources[j].value == s.log[d - 1].value)
  }

  // Only public sources are attached, each once; only attached ones are spoken of; what is said
  // is up to date, save for those in `pending`; of an event, nothing may have been said yet.
  ghost predicate Faithful(sources: seq<Endpoint>, pending: set<nat>, s: Session) {
    && NoDup(s.attached)
    && (forall i <- s.attached :: i < |sources| && !sources[i].local)
    && (forall k :: 0 <= k < |s.log| ==> Attached(sources, s.attached, s.log[k].name))
    && (forall i <- s.attached :: i !in pending && !sources[i].event ==> AfterName(s.log, sources[i].name) > 0)
    && (forall i <- s.attached :: Voiced(sources, pending, s, sources[i].name))
  }

  lemma AfterOneMore(log: seq<Update>, u: Update, name: string)
    ensures AfterName(log + [u], name) == if u.name == name then |log| + 1 else AfterName(log, name)
  {
    assert (log + [u])[..|log|] == log;
  }

  // Saying the value of an attached source keeps the rest, and settles that source.
  lemma SayKeeps(sources: seq<Endpoint>, pending: set<nat>, s: Session, i: nat)
    requires Faithful(sources, pending, s) && i in s.attached
    ensures Faithful(sources, pending - {i}, s.(log := s.log + [UpdateOf(sources[i])]))
  {
    hide AfterName, Voiced, Attached;
    var u := UpdateOf(sources[i]);
    var t := s.(log := s.log + [u]);
    forall k | 0 <= k < |t.log| ensures Attached(sources, s.attached, t.log[k].name) {
      assert Attached(sources, s.attached, u.name) by {
        AttachedBy(sources, s.attached, i);
      }
    }
    forall j <- s.attached
      ensures j !in pending - {i} && !sources[j].event ==> AfterName(t.log, sources[j].name) > 0
      ensures Voiced(sources, pending - {i}, t, sources[j].name)
    {
      AfterOneMore(s.log, u, sources[j].name);
      VoicedOneMore(sources, pending, s, i, sources[j].name);
    }
  }

  lemma AttachedBy(sources: seq<Endpoint>, attached: seq<nat>, i: nat)
    requires (forall j <- attached :: j < |sources|) && i in attached
    ensures Attached(sources, attached, sources[i].name)
  {
  }

  lemma VoicedOneMore(sources: seq<Endpoint>, pending: set<nat>, s: Session, i: nat, name: string)
    requires (forall j <- s.attached :: j < |sources|) && i in s.attached && Voiced(sources, pending, s, name)
    ensures Voiced(sources, pending - {i}, s.(log := s.log + [UpdateOf(sources[i])]), name)
  {
    hide AfterName;
    AfterOneMore(s.log, UpdateOf(sources[i]), name);
  }

  lemma SpokenOf(sources: seq<Endpoint>, pending: set<nat>, s: Session, name: string)
    requires Faithful(sources, pending, s)
    ensures AfterName(s.log, name) > 0 ==> Attached(sources, s.attached, name)
  {
    var d := AfterName(s.log, name);
    if d > 0 {
      assert Attached(sources, s.attached, s.log[d - 1].name);
    }
  }

  lemma AttachKeeps(sources: seq<Endpoint>, pending: set<nat>, s: Session, i: nat)
    requires Faithful(sources, pending, s) && i < |sources| && !sources[i].local
    ensures Faithful(sources, pending + if sources[i].event then {} else {i}, Attach(s, i))
  {
    hide AfterName, Voiced, Attached;
    var t := Attach(s, i);
    var more := pending + if sources[i].event then {} else {i};
    forall k | 0 <= k < |s.log| ensures Attached(sources, t.attached, s.log[k].name) {
      AttachedMore(sources, s.attached, t.attached, s.log[k].name);
    }
    forall j <- t.attached
      ensures Voiced(sources, more, t, sources[j].name)
      ensures j !in more && !sources[j].event ==> AfterName(s.log, sources[j].name) > 0
    {
      VoicedByName(sources, pending, s, sources[j].name);
      VoicedMore(sources, pending, more, s, t, sources[j].name);
    }
  }

  lemma AttachedMore(sources: seq<Endpoint>, a: seq<nat>, b: seq<nat>, name: string)
    requires (forall j <- b :: j < |sources|) && forall j <- a :: j in b
    requires Attached(sources, a, name)
    ensures Attached(sources, b, name)
  {
  }

  lemma VoicedMore(sources: seq<Endpoint>, pending: set<nat>, more: set<nat>, s: Session, t: Session, name: string)
    requires (forall j <- t.attached :: j < |sources|) && forall j <- s.attached :: j in t.attached
    requires t.log == s.log && pending <= more && Voiced(sources, pending, s, name)
    ensures Voiced(sources, more, t, name)
  {
  }

  lemma VoicedByName(sources: seq<Endpoint>, pending: set<nat>, s: Session, name: string)
    requires Faithful(sources, pending, s)
    ensures Voiced(sources, pending, s, name)
  {
    SpokenOf(sources, pending, s, name);
    if AfterName(s.log, name) > 0 {
      var j :| j in s.attached && sources[j].name == name;
      assert Voiced(sources, pending, s, sources[j].name);
    }
  }

  lemma PendingMore(sources: seq<Endpoint>, pending: set<nat>, more: set<nat>, s: Session)
    requires Faithful(sources, pending, s) && pending <= more
    ensures Faithful(sources, more, s)
  {
    hide AfterName;
    forall i <- s.attached ensures Voiced(sources, more, s, sources[i].name) {
      assert Voiced(sources, pending, s, sources[i].name);
    }
  }

  lemma OnLineKeeps(full: bool, sources: seq<Endpoint>, pending: set<nat>, s: Session, line: string)
    requires Faithful(sources, pending, s)
    ensures Faithful(sources, pending, OnLine(full, sources, s, line))
  {
    hide AfterName, Wanted;
    var k := Wanted(full, sources, line);
    if k < |sources| {
      AttachKeeps(sources, pending, s, k);
      var t := Attach(s, k);
      if !sources[k].event {
        SayKeeps(sources, pending + {k}, t, k);
        PendingMore(sources, pending + {k} - {k}, pending, t.(log := t.log + [UpdateOf(sources[k])]));
      } else {
        assert pending + {} == pending;
      }
    }
    StateApart(sources, pending, s);
  }

  lemma StateApart(sources: seq<Endpoint>, pending: set<nat>, s: Session)
    requires Faithful(sources, pending, s)
    ensures forall x :: Faithful(sources, pending, s.(state := x))
  {
    hide AfterName;
    forall x ensures Faithful(sources, pending, s.(state := x)) {
      forall i <- s.attached ensures Voiced(sources, pending, s.(state := x), sources[i].name) {
        assert Voiced(sources, pending, s, sources[i].name);
      }
    }
  }

  lemma {:induction false} OnLinesKeeps(full: bool, sources: seq<Endpoint>, pending: set<nat>, s: Session,
                                        lines: seq<string>, k: nat)
    requires k <= |lines| && Faithful(sources, pending, s)
    ensures Faithful(sources, pending, OnLines(full, sources, s, lines, k))
    decreases |lines| - k
  {
    if k < |lines| {
      var line := CString(lines[k]);
      OnLineKeeps(full, sources, pending, s, line);
      OnLinesKeeps(full, sources, pending, OnLine(full, sources, s, line), lines, k + 1);
    }
  }

  // A new value of source i leaves only that source to be told.
  lemma ChangeKeeps(sources: seq<Endpoint>, pending: set<nat>, s: Session, i: nat, value: string)
    requires Faithful(sources, pending, s) && i < |sources|
    ensures Faithful(sources[i := sources[i].(value := value)], pending + {i}, s)
  {
    hide AfterName;
    var next := sources[i := sources[i].(value := value)];
    assert forall j :: 0 <= j < |sources| ==> next[j] == sources[j].(value := next[j].value);
    forall k | 0 <= k < |s.log| ensures Attached(next, s.attached, s.log[k].name) {
      assert Attached(sources, s.attached, s.log[k].name);
    }
    forall j <- s.attached ensures Voiced(next, pending + {i}, s, next[j].name) {
      assert Voiced(sources, pending, s, sources[j].name);
    }
  }

  // ---------------------------------------------------------------- clean sources say clean things

  // Names and values that a `set` line carries, and names without a tile.
  predicate Tidy(e: Endpoint) {
    Plain(e.name) && '=' !in e.name && '.' !in e.name && Plain(e.value)
  }

  predicate AllTidy(sources: seq<Endpoint>) {
    forall e <- sources :: Tidy(e)
  }

  predicate NoDots(log: seq<Update>) {
    forall k :: 0 <= k < |log| ==> '.' !in log[k].name
  }

  predicate TidyLog(log: seq<Update>) {
    Clean(log) && NoDots(log)
  }

  lemma TidySay(sources: seq<Endpoint>, log: seq<Update>, i: nat)
    requires AllTidy(sources) && i < |sources| && TidyLog(log)
    ensures TidyLog(log + [UpdateOf(sources[i])])
  {
    hide Plain;
    assert Tidy(sources[i]);
  }

  lemma {:induction false} TidyLines(full: bool, sources: seq<Endpoint>, s: Session, lines: seq<string>, k: nat)
    requires k <= |lines| && AllTidy(sources) && TidyLog(s.log)
    ensures TidyLog(OnLines(full, sources, s, lines, k).log)
    decreases |lines| - k
  {
    hide Plain, Clean;
    if k < |lines| {
      var line := CString(lines[k]);
      var j := Wanted(full, sources, line);
      if j < |sources| {
        TidySay(sources, s.log, j);
      }
      TidyLines(full, sources, OnLine(full, sources, s, line), lines, k + 1);
    }
  }

  // ---------------------------------------------------------------- the answer to `sinks`

  predicate Ends(line: string) {
    line != "" && line[0] == '.'
  }

  predicate Asks(full: bool, sources: seq<Endpoint>, line: string, i: nat) {
    i < |sources| && Wanted(full, sources, line) == i
  }

  lemma {:induction false} Deaf(full: bool, sources: seq<Endpoint>, s: Session, lines: seq<string>, k: nat)
    requires k <= |lines| && s.state != Sinks
    ensures OnLines(full, sources, s, lines, k) == s
    decreases |lines| - k
  {
    if k < |lines| {
      Deaf(full, sources, s, lines, k + 1);
    }
  }

  // The sources attached are those asked for before the list ends; with none, the node is dropped.
  lemma {:induction false} AnswerAttaches(full: bool, sources: seq<Endpoint>, s: Session, lines: seq<string>, k: nat, n: nat)
    requires k <= n < |lines| && s.state == Sinks
    requires Ends(CString(lines[n])) && forall j :: k <= j < n ==> !Ends(CString(lines[j]))
    ensures var t := OnLines(full, sources, s, lines, k);
            && t.state == (if t.attached != [] then Ready else Removed)
            && forall i: nat :: i in t.attached <==>
                 i in s.attached || exists j :: k <= j < n && Asks(full, sources, CString(lines[j]), i)
    decreases n - k
  {
    hide CString, Wanted;
    var line := CString(lines[k]);
    var next := OnLine(full, sources, s, line);
    if k == n {
      Deaf(full, sources, next, lines, k + 1);
    } else {
      AnswerAttaches(full, sources, next, lines, k + 1, n);
      var t := OnLines(full, sources, s, lines, k);
      forall i: nat ensures i in next.attached <==> i in s.attached || Asks(full, sources, line, i) {
      }
    }
  }

  // The other end's answer (core/hkcp_cmd.c): its public sinks with their values, then a dot.
  function Id(e: Endpoint, tiles: bool): string {
    if tiles then e.tile + "." + e.name else e.name
  }

  function Listed(e: Endpoint, tiles: bool): string {
    Id(e, tiles) + (" \"" + e.value + "\"")
  }

  function Listing(sinks: seq<Endpoint>, tiles: bool): seq<string> {
    if sinks == [] then ["."]
    else (if sinks[0].local then [] else [Listed(sinks[0], tiles)]) + Listing(sinks[1..], tiles)
  }

  function Lines(lines: seq<string>): string {
    if lines == [] then "" else lines[0] + "\n" + Lines(lines[1..])
  }

  // Lines come out as they went in.
  lemma {:induction false} LinesReceived(lines: seq<string>)
    requires forall k :: 0 <= k < |lines| ==> lines[k] != "" && '\n' !in lines[k]
    ensures Feed("", Lines(lines)) == (lines, "")
    decreases |lines|
  {
    if lines != [] {
      var l := lines[0];
      LinesReceived(lines[1..]);
      FeedLine("", l);
      FeedAppend("", l + "\n", Lines(lines[1..]));
      assert "" + l == l && [l] + lines[1..] == lines;
    }
  }

  // No name is empty, starts with a dot, or holds a space or a newline; no value holds a newline;
  // strings hold no NUL.
  predicate Listable(sinks: seq<Endpoint>, tiles: bool) {
    forall e <- sinks :: var id := Id(e, tiles);
      id != "" && id[0] != '.' && ' ' !in id && '\n' !in id && '\n' !in e.value && NUL !in id && NUL !in e.value
  }

  lemma OfferedIsId(e: Endpoint, tiles: bool)
    requires Listable([e], tiles)
    ensures var line := Listed(e, tiles);
            Offered(line) == Id(e, tiles) && line != "" && !Ends(line) && '\n' !in line && NUL !in line
  {
    assert e in [e];
    var id, line := Id(e, tiles), Listed(e, tiles);
    assert line[|id|] == ' ' && forall j :: 0 <= j < |id| ==> line[j] == id[j];
    assert line[..|id|] == id;
  }

  // Public sink e asks for public source i.
  predicate AsksFor(full: bool, sources: seq<Endpoint>, e: Endpoint, tiles: bool, i: nat) {
    i < |sources| && !sources[i].local && !e.local && Find(sources, full, Id(e, tiles)) == i
  }

  predicate Requested(full: bool, sources: seq<Endpoint>, sinks: seq<Endpoint>, tiles: bool, i: nat) {
    exists e <- sinks :: AsksFor(full, sources, e, tiles, i)
  }

  lemma {:induction false} ListingShape(sinks: seq<Endpoint>, tiles: bool)
    requires Listable(sinks, tiles)
    ensures var l := Listing(sinks, tiles);
            && |l| > 0 && Ends(l[|l| - 1])
            && (forall j :: 0 <= j < |l| ==> l[j] != "" && '\n' !in l[j] && NUL !in l[j])
            && (forall j :: 0 <= j < |l| - 1 ==> !Ends(l[j]))
    decreases |sinks|
  {
    hide Find, Id, Ends, Listed;
    if sinks == [] {
      DotEnds();
    } else {
      assert sinks == [sinks[0]] + sinks[1..];
      ListingShape(sinks[1..], tiles);
      if !sinks[0].local {
        OfferedIsId(sinks[0], tiles);
      }
    }
  }

  predicate AskedIn(full: bool, sources: seq<Endpoint>, lines: seq<string>, n: nat, i: nat)
    requires n <= |lines|
  {
    exists j :: 0 <= j < n && Asks(full, sources, lines[j], i)
  }

  lemma AskedCons(full: bool, sources: seq<Endpoint>, line: string, rest: seq<string>, n: nat, i: nat)
    requires n <= |rest|
    ensures AskedIn(full, sources, [line] + rest, n + 1, i) <==>
            Asks(full, sources, line, i) || AskedIn(full, sources, rest, n, i)
  {
    var l := [line] + rest;
    assert Asks(full, sources, l[0], i) == Asks(full, sources, line, i);
    assert forall j :: 0 <= j < n ==> l[j + 1] == rest[j];
  }

  // The listing asks for exactly the public sources that the names of its public sinks denote.
  lemma {:induction false} ListingAsks(full: bool, sources: seq<Endpoint>, sinks: seq<Endpoint>, tiles: bool, i: nat)
    requires Listable(sinks, tiles)
    ensures var l := Listing(sinks, tiles);
            |l| > 0 && (AskedIn(full, sources, l, |l| - 1, i) <==> Requested(full, sources, sinks, tiles, i))
    decreases |sinks|
  {
    hide Find, Id, Ends, Listed, Asks, AskedIn;
    if sinks == [] {
      NoneAsked(full, sources, ["."], i);
    } else {
      var e := sinks[0];
      assert sinks == [e] + sinks[1..];
      ListingAsks(full, sources, sinks[1..], tiles, i);
      var l, rest := Listing(sinks, tiles), Listing(sinks[1..], tiles);
      if e.local {
        assert l == rest;
      } else {
        AskedCons(full, sources, Listed(e, tiles), rest, |rest| - 1, i);
        AsksId(full, sources, e, tiles, i);
      }
    }
  }

  lemma NoneAsked(full: bool, sources: seq<Endpoint>, lines: seq<string>, i: nat)
    ensures !AskedIn(full, sources, lines, 0, i)
  {
  }

  lemma AsksId(full: bool, sources: seq<Endpoint>, e: Endpoint, tiles: bool, i: nat)
    requires Listable([e], tiles)
    ensures Asks(full, sources, Listed(e, tiles), i) <==>
            i < |sources| && !sources[i].local && Find(sources, full, Id(e, tiles)) == i
  {
    OfferedIsId(e, tiles);
  }

  lemma DotEnds()
    ensures Ends(".") && '\n' !in "." && NUL !in "."
  {
  }

  // A node's answer attaches exactly the public sources that have a public sink over there.
  lemma Subscription(full: bool, sources: seq<Endpoint>, sinks: seq<Endpoint>, tiles: bool)
    requires Listable(sinks, tiles)
    ensures var s := OnLines(full, sources, Session(Sinks, [], []), Feed("", Lines(Listing(sinks, tiles))).0);
            && s.state == (if s.attached != [] then Ready else Removed)
            && forall i: nat :: i in s.attached <==> Requested(full, sources, sinks, tiles, i)
  {
    hide Find, Id, Ends, Listing;
    var l := Listing(sinks, tiles);
    ListingShape(sinks, tiles);
    forall i: nat ensures AskedIn(full, sources, l, |l| - 1, i) <==> Requested(full, sources, sinks, tiles, i) {
      ListingAsks(full, sources, sinks, tiles, i);
    }
    LinesReceived(l);
    forall j | 0 <= j < |l| ensures CString(l[j]) == l[j] {
      WholeString(l[j]);
    }
    AnswerAttaches(full, sources, Session(Sinks, [], []), l, 0, |l| - 1);
  }

  // ---------------------------------------------------------------- what a node has heard

  // The session of a node that has received those bytes, whatever was sent to it meanwhile.
  function Heeded(full: bool, sources: seq<Endpoint>, heard: string): Session {
    OnLines(full, sources, Session(Sinks, [], []), Feed("", heard).0)
  }

  // The log aside.
  predicate Alike(s: Session, t: Session) {
    s.state == t.state && s.attached == t.attached
  }

  // What is attached, and what is left of an unfinished line, is what the bytes received say.
  ghost predicate Answers(full: bool, sources: seq<Endpoint>, s: Session, rest: string, heard: string) {
    Alike(s, Heeded(full, sources, heard)) && rest == Feed("", heard).1
  }

  // Neither values nor logs play a part in what lines attach.
  lemma OnLineAlike(full: bool, a: seq<Endpoint>, b: seq<Endpoint>, s: Session, t: Session, line: string)
    requires SameNames(a, b) && Alike(s, t)
    ensures Alike(OnLine(full, a, s, line), OnLine(full, b, t, line))
  {
    FindKept(a, b, full, Offered(line), 0);
  }

  lemma {:induction false} OnLinesAlike(full: bool, a: seq<Endpoint>, b: seq<Endpoint>, s: Session, t: Session,
                                        lines: seq<string>, k: nat)
    requires k <= |lines| && SameNames(a, b) && Alike(s, t)
    ensures Alike(OnLines(full, a, s, lines, k), OnLines(full, b, t, lines, k))
    decreases |lines| - k
  {
    if k < |lines| {
      var line := CString(lines[k]);
      OnLineAlike(full, a, b, s, t, line);
      OnLinesAlike(full, a, b, OnLine(full, a, s, line), OnLine(full, b, t, line), lines, k + 1);
    }
  }

  lemma {:induction false} OnLinesFrom(full: bool, sources: seq<Endpoint>, s: Session, a: seq<string>, b: seq<string>, k: nat)
    requires k <= |b|
    ensures OnLines(full, sources, s, a + b, |a| + k) == OnLines(full, sources, s, b, k)
    decreases |b| - k
  {
    hide OnLine;
    if k < |b| {
      OnLinesFrom(full, sources, OnLine(full, sources, s, CString(b[k])), a, b, k + 1);
    }
  }

  // Lines are heeded one after the other.
  lemma {:induction false} OnLinesOn(full: bool, sources: seq<Endpoint>, s: Session, a: seq<string>, b: seq<string>, k: nat)
    requires k <= |a|
    ensures OnLines(full, sources, s, a + b, k) == OnLines(full, sources, OnLines(full, sources, s, a, k), b)
    decreases |a| - k
  {
    hide OnLine;
    if k == |a| {
      OnLinesFrom(full, sources, s, a, b, 0);
    } else {
      OnLinesOn(full, sources, OnLine(full, sources, s, CString(a[k])), a, b, k + 1);
    }
  }

  lemma HeededOn(full: bool, sources: seq<Endpoint>, heard: string, buf: string)
    ensures var f := Feed("", heard);
            && Heeded(full, sources, heard + buf) == OnLines(full, sources, Heeded(full, sources, heard), Feed(f.1, buf).0)
            && Feed("", heard + buf).1 == Feed(f.1, buf).1
  {
    FeedAppend("", heard, buf);
    var f := Feed("", heard);
    OnLinesOn(full, sources, Session(Sinks, [], []), f.0, Feed(f.1, buf).0, 0);
  }

  // Each fragment received keeps to what was heard.
  lemma HearKeeps(full: bool, sources: seq<Endpoint>, s: Session, rest: string, heard: string, buf: string)
    requires Answers(full, sources, s, rest, heard)
    ensures Answers(full, sources, OnLines(full, sources, s, Feed(rest, buf).0), Feed(rest, buf).1, heard + buf)
  {
    hide OnLines;
    HeededOn(full, sources, heard, buf);
    OnLinesAlike(full, sources, sources, s, Heeded(full, sources, heard), Feed(rest, buf).0, 0);
  }

  // So does a new value.
  lemma AnswersStill(full: bool, a: seq<Endpoint>, b: seq<Endpoint>, s: Session, rest: string, heard: string)
    requires SameNames(a, b) && Answers(full, a, s, rest, heard)
    ensures Answers(full, b, s, rest, heard)
  {
    hide OnLines;
    HeededKept(full, a, b, heard);
  }

  lemma HeededKept(full: bool, a: seq<Endpoint>, b: seq<Endpoint>, heard: string)
    requires SameNames(a, b)
    ensures Alike(Heeded(full, a, heard), Heeded(full, b, heard))
  {
    OnLinesAlike(full, a, b, Session(Sinks, [], []), Session(Sinks, [], []), Feed("", heard).0, 0);
  }

  // More lines attach more.
  lemma {:induction false} OnLinesGrow(full: bool, sources: seq<Endpoint>, s: Session, lines: seq<string>, k: nat)
    requires k <= |lines|
    ensures s.attached <= OnLines(full, sources, s, lines, k).attached
    decreases |lines| - k
  {
    if k < |lines| {
      OnLinesGrow(full, sources, OnLine(full, sources, s, CString(lines[k])), lines, k + 1);
    }
  }

  // A node dropped, or ready, has no more to hear.
  lemma HeededEnds(full: bool, sources: seq<Endpoint>, heard: string, more: string)
    requires Heeded(full, sources, heard).state != Sinks
    ensures Heeded(full, sources, heard + more) == Heeded(full, sources, heard)
  {
    HeededOn(full, sources, heard, more);
    Deaf(full, sources, Heeded(full, sources, heard), Feed(Feed("", heard).1, more).0, 0);
  }

  // How many updates of that name.
  function Count(log: seq<Update>, name: string): nat {
    if log == [] then 0
    else Count(log[..|log| - 1], name) + if log[|log| - 1].name == name then 1 else 0
  }

  lemma CountOneMore(log: seq<Update>, u: Update, name: string)
    ensures Count(log + [u], name) == Count(log, name) + if u.name == name then 1 else 0
  {
    assert (log + [u])[..|log|] == log;
  }

  // Whether a line asks for a public source of that name that is not an event.
  predicate AsksValue(full: bool, sources: seq<Endpoint>, line: string, name: string) {
    exists e: Endpoint, i: nat :: i < |sources| && e == sources[i] && !e.local && !e.event && e.name == name
                                  && Find(sources, full, Offered(line)) == i
  }

  // How many lines do, from k on, before the list ends.
  function AskingLines(full: bool, sources: seq<Endpoint>, lines: seq<string>, k: nat, name: string): nat
    requires k <= |lines|
    decreases |lines| - k
  {
    if k == |lines| || Ends(CString(lines[k])) then 0
    else (if AsksValue(full, sources, CString(lines[k]), name) then 1 else 0) + AskingLines(full, sources, lines, k + 1, name)
  }

  // One update is queued for each of them.
  lemma {:induction false} InitialsCounted(full: bool, sources: seq<Endpoint>, s: Session, lines: seq<string>, k: nat, name: string)
    requires k <= |lines| && s.state == Sinks
    ensures Count(OnLines(full, sources, s, lines, k).log, name) ==
            Count(s.log, name) + AskingLines(full, sources, lines, k, name)
    decreases |lines| - k
  {
    hide CString, Count, Find;
    if k < |lines| {
      var line := CString(lines[k]);
      var next := OnLine(full, sources, s, line);
      if Ends(line) {
        Deaf(full, sources, next, lines, k + 1);
      } else {
        InitialsCounted(full, sources, next, lines, k + 1, name);
        LineCounted(full, sources, s, line, name);
      }
    }
  }

  lemma LineCounted(full: bool, sources: seq<Endpoint>, s: Session, line: string, name: string)
    requires s.state == Sinks && !Ends(line)
    ensures OnLine(full, sources, s, line).state == Sinks
    ensures Count(OnLine(full, sources, s, line).log, name) ==
            Count(s.log, name) + if AsksValue(full, sources, line, name) then 1 else 0
  {
    hide Find, Count;
    var k := Find(sources, full, Offered(line));
    if k < |sources| {
      CountOneMore(s.log, UpdateOf(sources[k]), name);
    }
  }

  // Lines queue as much whatever was queued before, and whatever the values.
  lemma {:induction false} OnLinesAdd(full: bool, sources: seq<Endpoint>, s: Session, t: Session, lines: seq<string>, k: nat, name: string)
    requires k <= |lines| && Alike(s, t)
    ensures Count(OnLines(full, sources, s, lines, k).log, name) - Count(s.log, name)
         == Count(OnLines(full, sources, t, lines, k).log, name) - Count(t.log, name)
  {
    if s.state == Sinks {
      InitialsCounted(full, sources, s, lines, k, name);
      InitialsCounted(full, sources, t, lines, k, name);
    } else {
      Deaf(full, sources, s, lines, k);
      Deaf(full, sources, t, lines, k);
    }
  }

  // What was queued beyond the initial values asked for.
  function Beyond(full: bool, sources: seq<Endpoint>, s: Session, heard: string, name: string): int {
    Count(s.log, name) - AskingLines(full, sources, Feed("", heard).0, 0, name)
  }

  lemma HearBeyond(full: bool, sources: seq<Endpoint>, s: Session, rest: string, heard: string, buf: string, name: string)
    requires Answers(full, sources, s, rest, heard)
    ensures Beyond(full, sources, OnLines(full, sources, s, Feed(rest, buf).0), heard + buf, name)
         == Beyond(full, sources, s, heard, name)
  {
    hide OnLines, Count;
    var start, h := Session(Sinks, [], []), Heeded(full, sources, heard);
    HeededOn(full, sources, heard, buf);
    OnLinesAdd(full, sources, s, h, Feed(rest, buf).0, 0, name);
    InitialsCounted(full, sources, start, Feed("", heard).0, 0, name);
    InitialsCounted(full, sources, start, Feed("", heard + buf).0, 0, name);
  }

  // Values play no part.
  lemma {:induction false} AskingLinesKept(full: bool, a: seq<Endpoint>, b: seq<Endpoint>, lines: seq<string>, k: nat, name: string)
    requires k <= |lines| && SameNames(a, b)
    ensures AskingLines(full, a, lines, k, name) == AskingLines(full, b, lines, k, name)
    decreases |lines| - k
  {
    hide CString, Find;
    if k < |lines| && !Ends(CString(lines[k])) {
      FindKept(a, b, full, Offered(CString(lines[k])), 0);
      AskingLinesKept(full, a, b, lines, k + 1, name);
    }
  }

  // The answer to `sinks` of the other end.
  function Answer(sinks: seq<Endpoint>, tiles: bool): string {
    Lines(Listing(sinks, tiles))
  }

  // Its bytes: one line for each public sink, and a dot.
  lemma AnswerText(e: Endpoint, rest: seq<Endpoint>, tiles: bool)
    ensures Answer([], tiles) == ".\n"
    ensures Answer([e] + rest, tiles) ==
            (if e.local then "" else (if tiles then e.tile + "." + e.name else e.name) + " \"" + e.value + "\"\n")
            + Answer(rest, tiles)
  {
    var line, more := Listed(e, tiles), Listing(rest, tiles);
    assert ([e] + rest)[1..] == rest && ["."][1..] == [];
    assert Lines([]) == "" && "." + "\n" + "" == ".\n";
    if e.local {
      assert [] + more == more && "" + Lines(more) == Lines(more);
    } else {
      assert ([line] + more)[1..] == more;
      assert line + "\n" == (if tiles then e.tile + "." + e.name else e.name) + " \"" + e.value + "\"\n";
    }
  }

  // What was heard is part of that answer, or the answer and more.
  predicate FromAnswer(sinks: seq<Endpoint>, tiles: bool, heard: string) {
    heard <= Answer(sinks, tiles) || Answer(sinks, tiles) <= heard
  }

  // However much of the answer was heard, only sources that it asks for are attached; all of them
  // are once it is in, and the node is dropped if there are none.
  lemma AnswerHeard(full: bool, sources: seq<Endpoint>, sinks: seq<Endpoint>, tiles: bool, heard: string)
    requires Listable(sinks, tiles) && FromAnswer(sinks, tiles, heard)
    ensures forall i <- Heeded(full, sources, heard).attached :: Requested(full, sources, sinks, tiles, i)
    ensures Answer(sinks, tiles) <= heard ==>
              var s := Heeded(full, sources, heard);
              && s.state == (if s.attached != [] then Ready else Removed)
              && forall i: nat :: i in s.attached <==> Requested(full, sources, sinks, tiles, i)
  {
    hide OnLines, Requested, Listing;
    var text := Answer(sinks, tiles);
    Subscription(full, sources, sinks, tiles);
    if text <= heard {
      assert heard == text + heard[|text|..];
      HeededEnds(full, sources, text, heard[|text|..]);
    } else {
      var rest := text[|heard|..];
      assert text == heard + rest;
      HeededOn(full, sources, heard, rest);
      OnLinesGrow(full, sources, Heeded(full, sources, heard), Feed(Feed("", heard).1, rest).0, 0);
    }
  }

  // ---------------------------------------------------------------- what the other end holds

  // What is queued on a new connection: the request for the list of sinks, then the updates.
  function Queued(log: seq<Update>): string {
    "sinks\n" + Printed(log)
  }

  lemma NoDot(name: string)
    requires '.' !in name
    ensures AfterLast(name, '.') == 0 && name[0..] == name
  {
  }

  // Sink k is the one that bare names equal to its own denote.
  lemma {:induction false} LastIsTold(full: bool, sinks: seq<Endpoint>, log: seq<Update>, k: nat)
    requires k < |sinks| && NoDots(log) && '.' !in sinks[k].name && Find(sinks, full, sinks[k].name) == k
    ensures var d := AfterName(log, sinks[k].name);
            LastValue(full, sinks, log, k) == if d == 0 then sinks[k].value else log[d - 1].value
    decreases |log|
  {
    hide Find, NoDots;
    if log != [] {
      var n := |log| - 1;
      assert NoDots(log[..n]) && '.' !in log[n].name by {
        NoDotsFront(log);
      }
      LastIsTold(full, sinks, log[..n], k);
      Denotes(full, sinks, log[n].name, k);
    }
  }

  lemma NoDotsFront(log: seq<Update>)
    requires NoDots(log) && log != []
    ensures NoDots(log[..|log| - 1]) && '.' !in log[|log| - 1].name
  {
  }

  // Among bare names, only its own denotes it.
  lemma Denotes(full: bool, sinks: seq<Endpoint>, name: string, k: nat)
    requires k < |sinks| && '.' !in name && '.' !in sinks[k].name && Find(sinks, full, sinks[k].name) == k
    ensures Find(sinks, full, name) == k <==> name == sinks[k].name
  {
    BareMatch(full, sinks, name, k);
  }

  // Whatever part of the queue the other end has received, what it holds once it receives the rest.
  lemma ReceivesAll(full: bool, sinks: seq<Endpoint>, log: seq<Update>, sent: string, left: string)
    requires Clean(log) && sent + left == Queued(log)
    ensures Receive(full, Receive(full, Remote("", sinks), sent), left) == Remote("", AssignAll(full, sinks, log))
  {
    ReceiveAppend(full, Remote("", sinks), sent, left);
    ReceiveAppend(full, Remote("", sinks), "sinks\n", Printed(log));
    ListRequest(full, sinks);
    ReceivePrinted(full, sinks, log, false);
  }

  lemma ListRequest(full: bool, sinks: seq<Endpoint>)
    ensures Receive(full, Remote("", sinks), "sinks\n") == Remote("", sinks)
  {
    var w := "sinks";
    assert w + "\n" == "sinks\n";
    OtherCommand(full, sinks, w);
  }

  // A command of one word other than `set` leaves the sinks alone.
  lemma OtherCommand(full: bool, sinks: seq<Endpoint>, w: string)
    requires w != "" && w != "set" && Plain(w)
    ensures Receive(full, Remote("", sinks), w + "\n") == Remote("", sinks)
  {
    NoneInPlain(w);
    WholeString(w);
    FeedLine("", w);
    assert "" + w == w;
    PlainToken(w);
    assert [w][1..] == [];
    assert ExecAll(full, sinks, [w]) == Exec(full, sinks, w) == sinks;
  }

  // The attached sources that share the name of source i are told and have its value.
  predicate Agree(sources: seq<Endpoint>, pending: set<nat>, attached: seq<nat>, i: nat)
    requires i < |sources| && forall j <- attached :: j < |sources|
  {
    forall j <- attached :: sources[j].name == sources[i].name ==> j !in pending && sources[j].value == sources[i].value
  }

  // Replaying what a node has not been sent yet, over what it already received, gives the first
  // sink of the name of an attached source what was last said under that name. That is the value
  // of the source, if those that share its name agree; an event of which nothing was said leaves
  // the sink as it was.
  lemma Replicated(full: bool, sinks: seq<Endpoint>, sources: seq<Endpoint>, pending: set<nat>, s: Session,
                   sent: string, left: string, i: nat, k: nat)
    requires Faithful(sources, pending, s) && TidyLog(s.log) && sent + left == Queued(s.log)
    requires i in s.attached && i !in pending
    requires k < |sinks| && '.' !in sinks[k].name
    requires sinks[k].name == sources[i].name && Find(sinks, full, sources[i].name) == k
    ensures var r := Receive(full, Receive(full, Remote("", sinks), sent), left);
            var d := AfterName(s.log, sources[i].name);
            && r.line == "" && |r.sinks| == |sinks| && (d == 0 ==> sources[i].event)
            && r.sinks[k].value == (if d == 0 then sinks[k].value else s.log[d - 1].value)
            && (d > 0 && Agree(sources, pending, s.attached, i) ==> r.sinks[k].value == sources[i].value)
  {
    hide Receive, Find, AssignAll, LastValue, Clean, Queued, AfterName;
    ReceivesAll(full, sinks, s.log, sent, left);
    AssignedValue(full, sinks, s.log);
    LastIsTold(full, sinks, s.log, k);
    assert Voiced(sources, pending, s, sources[i].name);
  }

  // ---------------------------------------------------------------- the sink that asked

  lemma AfterLastIs(s: string, c: char, d: nat)
    requires 0 < d <= |s| && s[d - 1] == c && c !in s[d..]
    ensures AfterLast(s, c) == d
  {
    var e := AfterLast(s, c);
    assert forall j :: d <= j < |s| ==> s[j] == s[d..][j - d];
  }

  // A sink and the source it asks for have the same bare name.
  lemma SameBareName(full: bool, sources: seq<Endpoint>, e: Endpoint, tiles: bool, i: nat)
    requires AsksFor(full, sources, e, tiles, i) && '.' !in e.name
    ensures sources[i].name == e.name
  {
    var id := Id(e, tiles);
    assert Named(sources[i], full, id);
    if tiles {
      var d := |e.tile| + 1;
      assert id[d..] == e.name && id[d - 1] == '.';
      AfterLastIs(id, '.', d);
    } else {
      NoDot(id);
    }
  }

  // Updates carry bare names: a sink follows what is said under its name, whatever that is, exactly
  // when it is the first sink of that name.
  lemma FollowsIff(full: bool, sinks: seq<Endpoint>, k: nat)
    requires k < |sinks| && '.' !in sinks[k].name
    ensures Find(sinks, full, sinks[k].name) == k <==>
            forall log: seq<Update> :: NoDots(log) && AfterName(log, sinks[k].name) > 0 ==>
              && |AssignAll(full, sinks, log)| == |sinks|
              && AssignAll(full, sinks, log)[k].value == log[AfterName(log, sinks[k].name) - 1].value
  {
    hide Find, AssignAll, AfterName, LastValue;
    var name := sinks[k].name;
    if Find(sinks, full, name) == k {
      forall log: seq<Update> | NoDots(log) && AfterName(log, name) > 0
        ensures |AssignAll(full, sinks, log)| == |sinks|
        ensures AssignAll(full, sinks, log)[k].value == log[AfterName(log, name) - 1].value
      {
        AssignedValue(full, sinks, log);
        LastIsTold(full, sinks, log, k);
      }
    } else {
      var log := [Update(name, sinks[k].value + "x")];
      assert AfterName(log, name) == 1 by {
        AfterOneMore([], log[0], name);
        assert [] + log == log;
      }
      Unreached(full, sinks, log, k);
    }
  }

  // Any other sink is never reached.
  lemma {:induction false} Unreached(full: bool, sinks: seq<Endpoint>, log: seq<Update>, k: nat)
    requires k < |sinks| && '.' !in sinks[k].name && Find(sinks, full, sinks[k].name) != k && NoDots(log)
    ensures |AssignAll(full, sinks, log)| == |sinks| && AssignAll(full, sinks, log)[k] == sinks[k]
  {
    hide Find, AssignAll;
    AssignedValue(full, sinks, log);
    NeverNamed(full, sinks, log, k);
    assert AssignAll(full, sinks, log)[k] == sinks[k].(value := AssignAll(full, sinks, log)[k].value);
  }

  lemma {:induction false} NeverNamed(full: bool, sinks: seq<Endpoint>, log: seq<Update>, k: nat)
    requires k < |sinks| && '.' !in sinks[k].name && Find(sinks, full, sinks[k].name) != k && NoDots(log)
    ensures LastValue(full, sinks, log, k) == sinks[k].value
    decreases |log|
  {
    if log != [] {
      NeverNamed(full, sinks, log[..|log| - 1], k);
      BareMatch(full, sinks, log[|log| - 1].name, k);
    }
  }

  // A bare name denotes a sink of that name.
  lemma BareMatch(full: bool, sinks: seq<Endpoint>, name: string, k: nat)
    requires k < |sinks| && '.' !in name && '.' !in sinks[k].name
    ensures Find(sinks, full, name) == k ==> name == sinks[k].name
  {
    NoDot(name);
  }

  // Every sink that asks for a source is the first of its bare name.
  ghost predicate AskersFirst(full: bool, rfull: bool, sources: seq<Endpoint>, sinks: seq<Endpoint>, tiles: bool) {
    forall k, i: nat :: 0 <= k < |sinks| && AsksFor(full, sources, sinks[k], tiles, i) ==>
      '.' !in sinks[k].name && Find(sinks, rfull, sinks[k].name) == k
  }

  // It is so when bare names are unique, as they are among sinks registered without full names.
  lemma UniqueNamesSuffice(full: bool, rfull: bool, sources: seq<Endpoint>, sinks: seq<Endpoint>, tiles: bool)
    requires forall k :: 0 <= k < |sinks| ==> '.' !in sinks[k].name
    requires forall j, k :: 0 <= j < k < |sinks| ==> sinks[j].name != sinks[k].name
    ensures AskersFirst(full, rfull, sources, sinks, tiles)
  {
    forall k | 0 <= k < |sinks| ensures Find(sinks, rfull, sinks[k].name) == k {
      var name := sinks[k].name;
      NoDot(name);
      assert Named(sinks[k], rfull, name);
      var i := Find(sinks, rfull, name);
      assert Named(sinks[i], rfull, name);
    }
  }

  // Then sources asked for by different names have different bare names.
  lemma AskersApart(full: bool, rfull: bool, sources: seq<Endpoint>, sinks: seq<Endpoint>, tiles: bool, i: nat, j: nat)
    requires AskersFirst(full, rfull, sources, sinks, tiles)
    requires Requested(full, sources, sinks, tiles, i) && Requested(full, sources, sinks, tiles, j)
    requires sources[i].name == sources[j].name
    ensures i == j
  {
    hide Find;
    var a :| 0 <= a < |sinks| && AsksFor(full, sources, sinks[a], tiles, i);
    var b :| 0 <= b < |sinks| && AsksFor(full, sources, sinks[b], tiles, j);
    SameBareName(full, sources, sinks[a], tiles, i);
    SameBareName(full, sources, sinks[b], tiles, j);
  }

  // The whole way: a sink whose listing attached source i ends with the value of that source, when
  // every asking sink is the first of its bare name.
  lemma AskerHolds(full: bool, rfull: bool, sources: seq<Endpoint>, pending: set<nat>, s: Session, sinks: seq<Endpoint>,
                   tiles: bool, sent: string, left: string, i: nat, k: nat)
    requires Faithful(sources, pending, s) && TidyLog(s.log) && sent + left == Queued(s.log)
    requires forall j <- s.attached :: Requested(full, sources, sinks, tiles, j)
    requires AskersFirst(full, rfull, sources, sinks, tiles)
    requires i in s.attached && i !in pending && k < |sinks| && AsksFor(full, sources, sinks[k], tiles, i)
    ensures var r := Receive(rfull, Receive(rfull, Remote("", sinks), sent), left);
            var d := AfterName(s.log, sources[i].name);
            && r.line == "" && |r.sinks| == |sinks| && (d == 0 ==> sources[i].event)
            && r.sinks[k].value == if d == 0 then sinks[k].value else sources[i].value
  {
    hide Receive, Find, AfterName, Queued, Faithful, TidyLog, AskersFirst, Requested, AsksFor;
    AskerIsFirst(full, rfull, sources, sinks, tiles, k, i);
    SameBareName(full, sources, sinks[k], tiles, i);
    AttachedAre(sources, pending, s);
    forall j <- s.attached | sources[j].name == sources[i].name ensures j == i {
      AskersApart(full, rfull, sources, sinks, tiles, i, j);
    }
    Replicated(rfull, sinks, sources, pending, s, sent, left, i, k);
  }

  lemma AskerIsFirst(full: bool, rfull: bool, sources: seq<Endpoint>, sinks: seq<Endpoint>, tiles: bool, k: nat, i: nat)
    requires AskersFirst(full, rfull, sources, sinks, tiles)
    requires k < |sinks| && AsksFor(full, sources, sinks[k], tiles, i)
    ensures '.' !in sinks[k].name && Find(sinks, rfull, sinks[k].name) == k
  {
  }

  lemma AttachedAre(sources: seq<Endpoint>, pending: set<nat>, s: Session)
    requires Faithful(sources, pending, s)
    ensures forall j <- s.attached :: j < |sources| && !sources[j].local
  {
  }

  // Whatever the sinks held before, the sink that asked for source i ends with its value exactly
  // when it is the first sink of its bare name and source i, or one of the same value, was the
  // last of that name to be told.
  lemma HoldsIff(full: bool, rfull: bool, sources: seq<Endpoint>, pending: set<nat>, s: Session, sinks: seq<Endpoint>,
                 tiles: bool, i: nat, k: nat)
    requires Faithful(sources, pending, s) && NoDots(s.log) && i in s.attached && i !in pending && !sources[i].event
    requires k < |sinks| && AsksFor(full, sources, sinks[k], tiles, i) && '.' !in sinks[k].name
    ensures AfterName(s.log, sources[i].name) > 0
    ensures (forall held: seq<Endpoint> :: SameNames(held, sinks) ==>
               && |AssignAll(rfull, held, s.log)| == |sinks|
               && AssignAll(rfull, held, s.log)[k].value == sources[i].value)
            <==> Find(sinks, rfull, sinks[k].name) == k
                 && s.log[AfterName(s.log, sources[i].name) - 1].value == sources[i].value
  {
    hide Find, AssignAll, AfterName, LastValue, Voiced;
    SameBareName(full, sources, sinks[k], tiles, i);
    var name := sinks[k].name;
    forall held: seq<Endpoint> | SameNames(held, sinks)
      ensures |AssignAll(rfull, held, s.log)| == |sinks|
      ensures AssignAll(rfull, held, s.log)[k].value ==
              if Find(sinks, rfull, name) == k then s.log[AfterName(s.log, name) - 1].value else held[k].value
    {
      FindKept(held, sinks, rfull, name, 0);
      AssignedValue(rfull, held, s.log);
      if Find(sinks, rfull, name) == k {
        LastIsTold(rfull, held, s.log, k);
      } else {
        Unreached(rfull, held, s.log, k);
      }
    }
    var other := sinks[k := sinks[k].(value := sources[i].value + "x")];
    assert SameNames(other, sinks) && SameNames(sinks, sinks);
  }

  // With full names, two tiles with a sink x each subscribe to their own sources, but no update
  // ever reaches the second: all are printed as x.
  lemma SecondTileNeverReached(rfull: bool, v: seq<string>, w: seq<string>, log: seq<Update>)
    requires |v| == |w| == 2 && NoDots(log)
    ensures var sources := [Endpoint("A", "x", v[0], false, false), Endpoint("B", "x", v[1], false, false)];
            var sinks := [Endpoint("A", "x", w[0], false, false), Endpoint("B", "x", w[1], false, false)];
            && AsksFor(true, sources, sinks[0], true, 0) && AsksFor(true, sources, sinks[1], true, 1)
            && |AssignAll(rfull, sinks, log)| == 2 && AssignAll(rfull, sinks, log)[1] == sinks[1]
  {
    hide AssignAll;
    var sources := [Endpoint("A", "x", v[0], false, false), Endpoint("B", "x", v[1], false, false)];
    var sinks := [Endpoint("A", "x", w[0], false, false), Endpoint("B", "x", w[1], false, false)];
    AfterLastIs("A.x", '.', 2);
    AfterLastIs("B.x", '.', 2);
    NoDot("x");
    assert "B.x"[..1] == "B" && "A.x"[..1] == "A" && "B.x"[2..] == "x" == "A.x"[2..];
    assert "A" + "." + "x" == "A.x" && "B" + "." + "x" == "B.x";
    assert Named(sources[0], true, "A.x") && !Named(sources[0], true, "B.x") && Named(sources[1], true, "B.x");
    assert Named(sinks[0], rfull, "x");
    Unreached(rfull, sinks, log, 1);
  }
}
