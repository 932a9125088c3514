// The `set` command of the text protocol: from the bytes received to the sinks assigned
// (core/command.c, core/str_argv.c, core/hkcp_cmd.c, the lookup of core/endpoint.c).
module Commands {
  import opened Chars
  import opened Tokenizer
  import opened Framing

  // ---------------------------------------------------------------- endpoints

  datatype Endpoint = Endpoint(tile: string, name: string, value: string, local: bool, event: bool)

  // The position after the last c of s; 0 when there is none.
  function AfterLast(s: string, c: char): (d: nat)
    ensures d <= |s| && (d == 0 || s[d - 1] == c) && forall j :: d <= j < |s| ==> s[j] != c
  {
    if s == "" then 0
    else if s[|s| - 1] == c then |s|
    else AfterLast(s[..|s| - 1], c)
  }

  // The position of the first c of s; |s| when there is none.
  function FirstOf(s: string, c: char): (p: nat)
    ensures p <= |s| && (p < |s| ==> s[p] == c) && forall j :: 0 <= j < p ==> s[j] != c
  {
    if s == "" || s[0] == c then 0
    else 1 + FirstOf(s[1..], c)
  }

  // `tile.name` or `name`; the tile is ignored unless full names are in use.
  predicate Named(e: Endpoint, full: bool, id: string) {
    var d := AfterLast(id, '.');
    e.name == id[d..] && (full && d > 0 ==> e.tile == id[..d - 1])
  }

  // A bare name, and a name with its tile.
  lemma NamedIff(e: Endpoint, full: bool, tile: string, name: string)
    requires '.' !in name
    ensures Named(e, full, name) <==> e.name == name
    ensures Named(e, full, tile + "." + name) <==> e.name == name && (full ==> e.tile == tile)
  {
    var id := tile + "." + name;
    var d := AfterLast(id, '.');
    assert id[|tile|] == '.' && id[|tile| + 1..] == name && id[..|tile|] == tile;
    assert forall j :: |tile| < j < |id| ==> id[j] == name[j - |tile| - 1];
    assert d == |tile| + 1;
    assert AfterLast(name, '.') == 0 && name[0..] == name;
  }

  // The first endpoint named so, from k on; |eps| when there is none.
  function Find(eps: seq<Endpoint>, full: bool, id: string, k: nat := 0): (i: nat)
    requires k <= |eps|
    ensures k <= i <= |eps| && (i < |eps| ==> Named(eps[i], full, id))
    ensures forall j :: k <= j < i ==> !Named(eps[j], full, id)
    decreases |eps| - k
  {
    if k == |eps| || Named(eps[k], full, id) then k else Find(eps, full, id, k + 1)
  }

  // Values play no part in the lookup.
  lemma {:induction false} FindKept(a: seq<Endpoint>, b: seq<Endpoint>, full: bool, id: string, k: nat)
    requires |a| == |b| && k <= |a|
    requires forall j :: 0 <= j < |a| ==> a[j].name == b[j].name && a[j].tile == b[j].tile
    ensures Find(a, full, id, k) == Find(b, full, id, k)
    decreases |a| - k
  {
    if k < |a| {
      FindKept(a, b, full, id, k + 1);
    }
  }

  // hk_sink_retrieve_by_name, hk_source_retrieve_by_name
  method RetrieveByName(eps: seq<Endpoint>, full: bool, id: string) returns (i: nat)
    ensures i == Find(eps, full, id)
  {
    var d: nat := |id|;
    assert id[..d] == id;
    while d > 0 && id[d - 1] != '.'
      invariant d <= |id| && AfterLast(id, '.') == AfterLast(id[..d], '.')
    {
      assert id[..d][..d - 1] == id[..d - 1];
      d := d - 1;
    }
    assert d == AfterLast(id, '.');
    i := 0;
    while i < |eps| && !((d == 0 || !full || eps[i].tile == id[..d - 1]) && eps[i].name == id[d..])
      invariant i <= |eps| && Find(eps, full, id) == Find(eps, full, id, i)
    {
      i := i + 1;
    }
  }

  // ---------------------------------------------------------------- one line

  // The sinks and the text sent back.
  type Outcome = (seq<Endpoint>, string)

  // One argument of `set`.
  function SetOne(full: bool, o: Outcome, arg: string): Outcome {
    var p := FirstOf(arg, '=');
    if p == |arg| then (o.0, o.1 + ".ERROR: Syntax error in command: " + arg + "\n")
    else
      var k := Find(o.0, full, arg[..p]);
      if k == |o.0| then (o.0, o.1 + ".ERROR: Unknown sink: " + arg[..p] + "\n")
      else (o.0[k := o.0[k].(value := arg[p + 1..])], o.1)
  }

  // An argument `name=value` assigns the first sink of that name, or says there is none; any other is
  // a syntax error.
  lemma SetOneMeans(full: bool, o: Outcome, name: string, value: string)
    requires '=' !in name
    ensures SetOne(full, o, name) == (o.0, o.1 + ".ERROR: Syntax error in command: " + name + "\n")
    ensures var r := SetOne(full, o, name + "=" + value);
            if exists e <- o.0 :: Named(e, full, name)
            then exists k :: && 0 <= k < |o.0| && Named(o.0[k], full, name) && (forall j :: 0 <= j < k ==> !Named(o.0[j], full, name))
                             && r == (o.0[k := o.0[k].(value := value)], o.1)
            else r == (o.0, o.1 + ".ERROR: Unknown sink: " + name + "\n")
  {
    hide Named;
    var arg := name + "=" + value;
    assert arg[|name|] == '=' && arg[..|name|] == name && arg[|name| + 1..] == value;
    assert forall j :: 0 <= j < |name| ==> arg[j] == name[j];
    assert FirstOf(arg, '=') == |name| && FirstOf(name, '=') == |name|;
    var k := Find(o.0, full, name);
    if k < |o.0| {
      assert o.0[k] in o.0;
    }
  }

  function SetFrom(full: bool, o: Outcome, argv: seq<string>, k: nat := 0): Outcome
    requires k <= |argv|
    decreases |argv| - k
  {
    if k == |argv| then o else SetFrom(full, SetOne(full, o, argv[k]), argv, k + 1)
  }

  // strchr
  method StrChr(s: string, c: char) returns (p: nat)
    ensures p == FirstOf(s, c)
  {
    p := 0;
    assert s[0..] == s;
    while p < |s| && s[p] != c
      invariant p <= |s| && FirstOf(s, c) == p + FirstOf(s[p..], c)
    {
      assert s[p..][1..] == s[p + 1..];
      p := p + 1;
    }
  }

  // hkcp_command_set
  method CommandSet(full: bool, sinks: seq<Endpoint>, argv: seq<string>) returns (sinks': seq<Endpoint>, out: string)
    requires |argv| > 0
    ensures (sinks', out) == SetFrom(full, (sinks, ""), argv, 1)
  {
    sinks', out := sinks, "";
    var i := 1;
    while i < |argv|
      invariant 1 <= i <= |argv|
      invariant SetFrom(full, (sinks, ""), argv, 1) == SetFrom(full, (sinks', out), argv, i)
    {
      var name := argv[i];
      var p := StrChr(name, '=');
      if p < |name| {
        var value := name[p + 1..];
        var k := RetrieveByName(sinks', full, name[..p]);
        if k < |sinks'| {
          sinks' := sinks'[k := sinks'[k].(value := value)];
        } else {
          out := out + ".ERROR: Unknown sink: " + name[..p] + "\n";
        }
      } else {
        out := out + ".ERROR: Syntax error in command: " + name + "\n";
      }
      i := i + 1;
    }
  }

  // A line as C reads it: up to a NUL, if there is one.
  function CString(line: string): (r: string)
    ensures NUL !in r
  {
    var r := line[..FirstOf(line, NUL)];
    assert forall k :: 0 <= k < |r| ==> r[k] == line[k];
    r
  }

  function Argv(line: string): seq<string> {
    Tokens(CString(line))
  }

  // What a line of the protocol does to the sinks.
  function Exec(full: bool, sinks: seq<Endpoint>, line: string): seq<Endpoint> {
    var argv := Argv(line);
    if argv != [] && argv[0] == "set" then SetFrom(full, (sinks, ""), argv, 1).0 else sinks
  }

  function ExecAll(full: bool, sinks: seq<Endpoint>, lines: seq<string>): seq<Endpoint>
    decreases |lines|
  {
    if lines == [] then sinks else ExecAll(full, Exec(full, sinks, lines[0]), lines[1..])
  }

  // What a line, and lines in turn, are answered.
  function Reply(full: bool, sinks: seq<Endpoint>, line: string): string {
    var argv := Argv(line);
    if argv != [] && argv[0] == "set" then SetFrom(full, (sinks, ""), argv, 1).1 else ""
  }

  function Replies(full: bool, sinks: seq<Endpoint>, lines: seq<string>): string
    decreases |lines|
  {
    if lines == [] then ""
    else Reply(full, sinks, lines[0]) + Replies(full, Exec(full, sinks, lines[0]), lines[1..])
  }

  lemma {:induction false} ExecAppend(full: bool, sinks: seq<Endpoint>, a: seq<string>, b: seq<string>)
    ensures ExecAll(full, sinks, a + b) == ExecAll(full, ExecAll(full, sinks, a), b)
    decreases |a|
  {
    if a == [] {
      assert a + b == b;
    } else {
      assert (a + b)[1..] == a[1..] + b;
      ExecAppend(full, Exec(full, sinks, a[0]), a[1..], b);
    }
  }

  // ---------------------------------------------------------------- the receiving end

  // The unfinished line and the sinks, and what they become when bytes arrive.
  datatype Remote = Remote(line: string, sinks: seq<Endpoint>)

  function Receive(full: bool, r: Remote, bytes: string): Remote {
    var f := Feed(r.line, bytes);
    Remote(f.1, ExecAll(full, r.sinks, f.0))
  }

  lemma ReceiveAppend(full: bool, r: Remote, a: string, b: string)
    ensures Receive(full, r, a + b) == Receive(full, Receive(full, r, a), b)
  {
    FeedAppend(r.line, a, b);
    var f := Feed(r.line, a);
    ExecAppend(full, r.sinks, f.0, Feed(f.1, b).0);
  }

  // One command connection; commands other than `set` leave the sinks alone and are not executed.
  class Connection {
    const cmd: Command
    const full: bool
    var sinks: seq<Endpoint>
    var out: string

    constructor (full: bool, sinks: seq<Endpoint>)
      ensures this.full == full && this.sinks == sinks && cmd.line == "" && out == "" && fresh(cmd)
    {
      cmd := new Command();
      this.full := full;
      this.sinks := sinks;
      out := "";
    }

    // the argument vector str_argv leaves in the buffer, of which it reads a string
    method Arguments(line: string) returns (argv: seq<string>)
      ensures argv == Argv(line)
    {
      hide Tokens;
      var base := new char[|line| + 1](i requires 0 <= i <= |line| => if i < |line| then line[i] else NUL);
      ghost var n, text := FirstOf(line, NUL), CString(line);
      assert base[0..n] == text;
      var ptrs := StrArgv(base, 0, n, text);
      argv := [];
      var i := 0;
      while i < |ptrs|
        invariant i <= |ptrs| && |argv| == i && forall k :: 0 <= k < i ==> argv[k] == Tokens(text)[k]
      {
        argv := argv + [CStr(base[..], ptrs[i])];
        i := i + 1;
      }
    }

    // hkcp_command_tcp on a line still to be split
    method CommandTcp(line: string)
      modifies this`sinks, this`out
      ensures sinks == Exec(full, old(sinks), line) && out == old(out) + Reply(full, old(sinks), line)
    {
      hide Argv, SetFrom;
      assert out + "" == out;
      var argv := Arguments(line);
      if |argv| > 0 && argv[0] == "set" {
        var text;
        sinks, text := CommandSet(full, sinks, argv);
        out := out + text;
      }
    }

    // the data event of a command connection
    method Recv(buf: string)
      modifies this`sinks, this`out, cmd
      ensures Remote(cmd.line, sinks) == Receive(full, Remote(old(cmd.line), old(sinks)), buf)
      ensures out == old(out) + Replies(full, old(sinks), Feed(old(cmd.line), buf).0)
    {
      hide Exec, Reply;
      ghost var line0, sinks0 := cmd.line, sinks;
      var lines := cmd.Recv(buf);
      var i := 0;
      assert lines[0..] == lines;
      while i < |lines|
        invariant i <= |lines| && Feed(line0, buf) == (lines, cmd.line)
        invariant ExecAll(full, sinks0, lines) == ExecAll(full, sinks, lines[i..])
        invariant old(out) + Replies(full, sinks0, lines) == out + Replies(full, sinks, lines[i..])
      {
        ghost var said, more := out, Replies(full, Exec(full, sinks, lines[i]), lines[i + 1..]);
        assert lines[i..][1..] == lines[i + 1..];
        assert said + (Reply(full, sinks, lines[i]) + more) == (said + Reply(full, sinks, lines[i])) + more;
        CommandTcp(lines[i]);
        i := i + 1;
      }
      assert out + "" == out;
    }
  }

  // ---------------------------------------------------------------- what bytes ask for

  datatype Update = Update(name: string, value: string)

  // What `set` with these arguments, from k on, is asked to assign.
  function Pairs(argv: seq<string>, k: nat := 0): seq<Update>
    requires k <= |argv|
    decreases |argv| - k
  {
    if k == |argv| then [] else Pair(argv[k]) + Pairs(argv, k + 1)
  }

  function Pair(arg: string): seq<Update> {
    var p := FirstOf(arg, '=');
    if p == |arg| then [] else [Update(arg[..p], arg[p + 1..])]
  }

  function Asked(line: string): seq<Update> {
    var argv := Argv(line);
    if argv != [] && argv[0] == "set" then Pairs(argv, 1) else []
  }

  // The first sink of that name takes the value; an unknown name changes nothing.
  function Assign(full: bool, sinks: seq<Endpoint>, u: Update): seq<Endpoint> {
    var k := Find(sinks, full, u.name);
    if k == |sinks| then sinks else sinks[k := sinks[k].(value := u.value)]
  }

  function AssignAll(full: bool, sinks: seq<Endpoint>, us: seq<Update>): seq<Endpoint>
    decreases |us|
  {
    if us == [] then sinks else AssignAll(full, Assign(full, sinks, us[0]), us[1..])
  }

  lemma {:induction false} SetAssigns(full: bool, o: Outcome, argv: seq<string>, k: nat)
    requires k <= |argv|
    ensures SetFrom(full, o, argv, k).0 == AssignAll(full, o.0, Pairs(argv, k))
    decreases |argv| - k
  {
    hide Find;
    if k < |argv| {
      SetAssigns(full, SetOne(full, o, argv[k]), argv, k + 1);
      var p := Pair(argv[k]);
      var rest := Pairs(argv, k + 1);
      assert p == [] ==> p + rest == rest;
      assert p != [] ==> (p + rest)[0] == p[0] && (p + rest)[1..] == rest;
    }
  }

  // A line does to the sinks what it asks for.
  lemma ExecIsAsked(full: bool, sinks: seq<Endpoint>, line: string)
    ensures Exec(full, sinks, line) == AssignAll(full, sinks, Asked(line))
  {
    hide Tokens;
    var argv := Argv(line);
    if argv != [] && argv[0] == "set" {
      SetAssigns(full, (sinks, ""), argv, 1);
    }
  }

  function AskedAll(lines: seq<string>): seq<Update> {
    if lines == [] then [] else Asked(lines[0]) + AskedAll(lines[1..])
  }

  // The updates asked for by bytes on a new connection, and the unfinished line they leave.
  function Heard(bytes: string): (seq<Update>, string) {
    var f := Feed("", bytes);
    (AskedAll(f.0), f.1)
  }

  lemma {:induction false} AssignConcat(full: bool, sinks: seq<Endpoint>, a: seq<Update>, b: seq<Update>)
    ensures AssignAll(full, sinks, a + b) == AssignAll(full, AssignAll(full, sinks, a), b)
    decreases |a|
  {
    if a == [] {
      assert a + b == b;
    } else {
      assert (a + b)[1..] == a[1..] + b;
      AssignConcat(full, Assign(full, sinks, a[0]), a[1..], b);
    }
  }

  lemma {:induction false} ExecAllIsAsked(full: bool, sinks: seq<Endpoint>, lines: seq<string>)
    ensures ExecAll(full, sinks, lines) == AssignAll(full, sinks, AskedAll(lines))
    decreases |lines|
  {
    if lines != [] {
      ExecIsAsked(full, sinks, lines[0]);
      ExecAllIsAsked(full, Exec(full, sinks, lines[0]), lines[1..]);
      AssignConcat(full, sinks, Asked(lines[0]), AskedAll(lines[1..]));
    }
  }

  // Bytes do to the sinks what they ask for.
  lemma ReceiveIsHeard(full: bool, sinks: seq<Endpoint>, bytes: string)
    ensures Receive(full, Remote("", sinks), bytes) == Remote(Heard(bytes).1, AssignAll(full, sinks, Heard(bytes).0))
  {
    ExecAllIsAsked(full, sinks, Feed("", bytes).0);
  }

  predicate SameNames(a: seq<Endpoint>, b: seq<Endpoint>) {
    |a| == |b| && forall j :: 0 <= j < |a| ==> a[j] == b[j].(value := a[j].value)
  }

  lemma {:induction false} AssignAppend(full: bool, sinks: seq<Endpoint>, us: seq<Update>, u: Update)
    ensures AssignAll(full, sinks, us + [u]) == Assign(full, AssignAll(full, sinks, us), u)
    decreases |us|
  {
    hide Assign;
    if us == [] {
      assert us + [u] == [u] && [u][1..] == [];
    } else {
      assert (us + [u])[1..] == us[1..] + [u];
      AssignAppend(full, Assign(full, sinks, us[0]), us[1..], u);
    }
  }

  // The value of the last update that names sink i, else the one it had.
  function LastValue(full: bool, sinks: seq<Endpoint>, us: seq<Update>, i: nat): string
    requires i < |sinks|
    decreases |us|
  {
    if us == [] then sinks[i].value
    else
      var u := us[|us| - 1];
      if Find(sinks, full, u.name) == i then u.value else LastValue(full, sinks, us[..|us| - 1], i)
  }

  // Each sink ends with the value last assigned to it, and is otherwise as before.
  lemma {:induction false} AssignedValue(full: bool, sinks: seq<Endpoint>, us: seq<Update>)
    ensures var after := AssignAll(full, sinks, us);
            && SameNames(after, sinks)
            && forall i :: 0 <= i < |sinks| ==> after[i].value == LastValue(full, sinks, us, i)
    decreases |us|
  {
    hide Find;
    if us != [] {
      var n := |us| - 1;
      assert us == us[..n] + [us[n]];
      AssignAppend(full, sinks, us[..n], us[n]);
      AssignedValue(full, sinks, us[..n]);
      FindKept(AssignAll(full, sinks, us[..n]), sinks, full, us[n].name, 0);
    }
  }
}
