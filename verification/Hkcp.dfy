// The nodes a program is connected to, and the propagation of its sources to them (core/hkcp.c).
module Hkcp {
  import opened Framing
  import opened Commands
  import opened SetLines
  import opened Replication
  import opened Bufs

  // What passed on a connection: the bytes received, what of them is left of an unfinished line,
  // and the bytes taken by the kernel.
  datatype Wire = Wire(heard: string, rest: string, sent: string)

  // A connected node. Its table of sources holds positions in the table of all sources.
  class Node {
    var state: State
    var attached: seq<nat>
    const sock: WriteQueue
    const reader: NodeReader
    ghost var log: seq<Update>
    ghost var heard: string
    ghost var Repr: set<object>

    ghost function View(): Session
      reads this
    {
      Session(state, attached, log)
    }

    ghost function Net(): Wire
      reads this, reader, sock
    {
      Wire(heard, reader.rbuf, sock.sent)
    }

    // The queue holds the updates of the log, one line each.
    ghost predicate Valid()
      reads this, Repr
      ensures Valid() ==> this in Repr && reader in Repr && sock in Repr
    {
      && this in Repr && sock in Repr && reader in Repr && sock.wbuf in Repr && sock.wbuf.base in Repr
      && sock.Valid() && sock.queued == Queued(log)
    }

    // hkcp_node_connect, when the connection is made: the list of sinks is asked for
    constructor ()
      ensures Valid() && fresh(Repr) && View() == Session(Sinks, [], []) && Net() == Wire("", "", "")
      ensures sock.queued == "sinks\n"
    {
      state := Sinks;
      attached := [];
      log, heard := [], "";
      sock := new WriteQueue();
      reader := new NodeReader();
      new;
      var armed := sock.Write("sinks\n");
      assert Printed([]) == "" && [] + "sinks\n" == "sinks\n" == "sinks\n" + "";
      Repr := {this, sock, reader, sock.wbuf, sock.wbuf.base};
    }

    // hkcp_node_source_attached for one source
    method SourceAttached(source: nat) returns (count: nat)
      ensures count > 0 <==> source in attached
    {
      count := 0;
      var i := 0;
      while i < |attached|
        invariant i <= |attached| && (count > 0 <==> source in attached[..i])
      {
        if attached[i] == source {
          count := count + 1;
        }
        i := i + 1;
      }
      assert attached[..i] == attached;
    }

    // hkcp_node_source_attach
    method SourceAttach(source: nat)
      modifies this`attached
      ensures View() == Attach(old(View()), source)
    {
      var count := SourceAttached(source);
      if count == 0 {
        attached := attached + [source];
      }
    }

    // the line of an update, queued
    method Send(u: Update)
      requires Valid()
      modifies Repr
      ensures Valid() && fresh(Repr - old(Repr)) && View() == old(View()).(log := old(log) + [u])
      ensures Net() == old(Net())
    {
      PrintedOne(log, u);
      var armed := sock.Write(SetLine(u) + "\n");
      log := log + [u];
      Repr := Repr + {sock.wbuf.base};
    }

    // hkcp_node_send_initial_value
    method SendInitialValue(sources: seq<Endpoint>, source: nat)
      requires Valid() && source < |sources| && source in attached
      modifies Repr
      ensures Valid() && fresh(Repr - old(Repr)) && View() == Initial(sources, old(View()), source)
      ensures Net() == old(Net())
    {
      if !sources[source].event {
        var count := SourceAttached(source);
        if count > 0 {
          Send(UpdateOf(sources[source]));
        }
      }
    }

    // hkcp_node_recv_line, hkcp_node_recv_sinks; a removed node is left to its caller to forget
    method RecvLine(full: bool, sources: seq<Endpoint>, line: string)
      requires Valid()
      modifies Repr
      ensures Valid() && fresh(Repr - old(Repr)) && View() == OnLine(full, sources, old(View()), line)
      ensures Net() == old(Net())
    {
      if state == Sinks {
        if |line| > 0 && line[0] == '.' {
          state := if |attached| > 0 then Ready else Removed;
        } else {
          var sp := StrChr(line, ' ');
          var k := RetrieveByName(sources, full, line[..sp]);
          if k < |sources| && !sources[k].local {
            SourceAttach(k);
            SendInitialValue(sources, k);
          }
        }
      }
    }

    // hkcp_node_recv; lines are handled as strings
    method Recv(full: bool, sources: seq<Endpoint>, buf: string)
      requires Valid()
      modifies Repr
      ensures Valid() && fresh(Repr - old(Repr))
      ensures View() == OnLines(full, sources, old(View()), Feed(old(reader.rbuf), buf).0)
      ensures Net() == Wire(old(heard) + buf, Feed(old(reader.rbuf), buf).1, old(sock.sent))
    {
      ghost var before, rest := View(), reader.rbuf;
      heard := heard + buf;
      var lines := reader.Recv(buf);
      var i := 0;
      while i < |lines|
        invariant i <= |lines| && Valid() && fresh(Repr - old(Repr))
        invariant Net() == Wire(old(heard) + buf, Feed(rest, buf).1, old(sock.sent))
        invariant OnLines(full, sources, before, lines) == OnLines(full, sources, View(), lines, i)
      {
        RecvLine(full, sources, CString(lines[i]));
        i := i + 1;
      }
    }

    // tcp_sock_write_event, when the kernel takes `taken` bytes or fails
    method WriteEvent(taken: int)
      requires Valid() && taken <= sock.wbuf.len
      modifies Repr
      ensures Valid() && fresh(Repr - old(Repr)) && View() == old(View())
      ensures Net() == old(Net()).(sent := sock.sent) && sock.queued == old(sock.queued)
      ensures |sock.sent| == |old(sock.sent)| + (if taken > 0 then taken else 0)
      ensures old(sock.sent) <= sock.sent <= Queued(log)
      ensures sock.sent == old(sock.sent) + if taken > 0 then old(sock.wbuf.Contents()[..taken]) else ""
    {
      var cont := sock.WriteEvent(taken);
    }

    // What the other end holds once it has received what is still queued: the first sink of the
    // name of an attached source has what was last said under that name, the value of the source
    // if those that share its name agree.
    lemma HoldsValues(rfull: bool, sinks: seq<Endpoint>, sources: seq<Endpoint>, pending: set<nat>, i: nat, k: nat)
      requires Valid() && Faithful(sources, pending, View()) && TidyLog(log)
      requires i in attached && i !in pending
      requires k < |sinks| && '.' !in sinks[k].name
      requires sinks[k].name == sources[i].name && Find(sinks, rfull, sources[i].name) == k
      ensures var held := Receive(rfull, Remote("", sinks), sock.sent);
              var r := Receive(rfull, held, sock.wbuf.Contents());
              var d := AfterName(log, sources[i].name);
              && r.line == "" && |r.sinks| == |sinks| && (d == 0 ==> sources[i].event)
              && r.sinks[k].value == (if d == 0 then sinks[k].value else log[d - 1].value)
              && (d > 0 && Agree(sources, pending, attached, i) ==> r.sinks[k].value == sources[i].value)
    {
      hide Receive, TidyLog;
      Replicated(rfull, sinks, sources, pending, View(), sock.sent, sock.wbuf.Contents(), i, k);
    }

    // Each sink that asked for a source holds its value, however much of its answer was heard, when
    // all askers are first of their names.
    lemma AskersHold(full: bool, rfull: bool, sinks: seq<Endpoint>, tiles: bool, sources: seq<Endpoint>,
                     pending: set<nat>, i: nat, k: nat)
      requires Valid() && Right(full, sources, pending, true, View(), Net())
      requires Listable(sinks, tiles) && FromAnswer(sinks, tiles, heard)
      requires AskersFirst(full, rfull, sources, sinks, tiles)
      requires i in attached && i !in pending && k < |sinks| && AsksFor(full, sources, sinks[k], tiles, i)
      ensures Told(this, rfull, sinks, sources, i, k)
    {
      hide Receive, Faithful, TidyLog, AskersFirst, Requested, AsksFor, OnLines, Listable, FromAnswer;
      AnswerHeard(full, sources, sinks, tiles, heard);
      AskerHolds(full, rfull, sources, pending, View(), sinks, tiles, sock.sent, sock.wbuf.Contents(), i, k);
    }
  }

  lemma PrintedOne(log: seq<Update>, u: Update)
    ensures Queued(log + [u]) == Queued(log) + (SetLine(u) + "\n")
  {
    PrintedAppend(log, [u]);
    assert [u][1..] == [] && SetLine(u) + "\n" + "" == SetLine(u) + "\n";
    assert "sinks\n" + (Printed(log) + (SetLine(u) + "\n")) == "sinks\n" + Printed(log) + (SetLine(u) + "\n");
  }

  // A node, or a free entry, and the objects it is made of.
  ghost predicate Sound(n: Node?, own: set<object>)
    reads n, own
  {
    if n == null then own == {} else own == n.Repr && n.Valid()
  }

  // What holds of every node: it is told what it should be, and has attached what it asked for.
  ghost predicate Right(full: bool, sources: seq<Endpoint>, pending: set<nat>, tidy: bool, s: Session, net: Wire) {
    && Faithful(sources, pending, s) && (tidy ==> TidyLog(s.log))
    && s.state != Removed && Answers(full, sources, s, net.rest, net.heard)
  }

  ghost predicate Live(n: Node?, own: set<object>, full: bool, sources: seq<Endpoint>, pending: set<nat>, tidy: bool)
    reads n, own
  {
    Sound(n, own) && (n != null ==> Right(full, sources, pending, tidy, n.View(), n.Net()))
  }

  lemma RightNew(full: bool, sources: seq<Endpoint>, pending: set<nat>, tidy: bool)
    ensures Right(full, sources, pending, tidy, Session(Sinks, [], []), Wire("", "", ""))
  {
  }

  lemma RightChange(full: bool, sources: seq<Endpoint>, pending: set<nat>, tidy: bool, s: Session, net: Wire, i: nat, value: string)
    requires Right(full, sources, pending, tidy, s, net) && i < |sources|
    ensures Right(full, sources[i := sources[i].(value := value)], pending + {i}, tidy && Plain(value), s, net)
  {
    hide Faithful, TidyLog, OnLines;
    ChangeKeeps(sources, pending, s, i, value);
    AnswersStill(full, sources, sources[i := sources[i].(value := value)], s, net.rest, net.heard);
  }

  lemma RightSaid(full: bool, sources: seq<Endpoint>, pending: set<nat>, tidy: bool, s: Session, net: Wire, i: nat)
    requires Right(full, sources, pending, tidy, s, net) && i < |sources| && (tidy ==> AllTidy(sources))
    ensures Right(full, sources, pending - {i}, tidy, Said(sources, i, s), net)
  {
    hide Faithful, TidyLog, OnLines, AllTidy;
    SaidKeeps(sources, pending, s, i);
    if tidy {
      SaidTidy(sources, s, i);
    }
  }

  lemma RightSent(full: bool, sources: seq<Endpoint>, pending: set<nat>, tidy: bool, s: Session, net: Wire, sent: string)
    requires Right(full, sources, pending, tidy, s, net)
    ensures Right(full, sources, pending, tidy, s, net.(sent := sent))
  {
  }

  // A node that heard more; it is dropped when the list ended with nothing attached.
  lemma RightHeard(full: bool, sources: seq<Endpoint>, pending: set<nat>, tidy: bool, s: Session, net: Wire, buf: string)
    requires Right(full, sources, pending, tidy, s, net) && (tidy ==> AllTidy(sources))
    ensures var t := OnLines(full, sources, s, Feed(net.rest, buf).0);
            && t.state == Heeded(full, sources, net.heard + buf).state
            && (t.state != Removed ==>
                  Right(full, sources, pending, tidy, t, net.(heard := net.heard + buf, rest := Feed(net.rest, buf).1)))
  {
    hide Faithful, TidyLog, OnLines, AllTidy, Heeded;
    var lines := Feed(net.rest, buf).0;
    OnLinesKeeps(full, sources, pending, s, lines, 0);
    if tidy {
      TidyLines(full, sources, s, lines, 0);
    }
    HearKeeps(full, sources, s, net.rest, net.heard, buf);
  }

  ghost predicate Apart(a: set<object>, b: set<object>) {
    a !! b
  }

  ghost predicate Disjoint(own: seq<set<object>>) {
    forall i, j {:trigger Apart(own[i], own[j])} :: 0 <= i < j < |own| ==> Apart(own[i], own[j])
  }

  lemma GrowOne(own: seq<set<object>>, k: nat, more: set<object>)
    requires k < |own| && Disjoint(own) && forall j :: 0 <= j < |own| ==> (more - own[k]) !! own[j]
    ensures Disjoint(own[k := more])
  {
    ghost var next := own[k := more];
    forall i, j {:trigger Apart(next[i], next[j])} | 0 <= i < j < |own| ensures Apart(next[i], next[j]) {
      assert Apart(own[i], own[j]);
    }
  }

  // What happens to a program: a connection is made, data comes in, a source is updated, the kernel
  // takes bytes.
  datatype Event =
    | Join
    | Data(k: nat, buf: string)
    | Change(i: nat, value: string, locked: bool)
    | Taken(k: nat, n: int)

  // What the event brings in on entry k of the table.
  function DataOf(e: Event, k: nat): string {
    if e.Data? && e.k == k then e.buf else ""
  }

  // What the first n events bring in on entry k.
  function DataFor(events: seq<Event>, n: nat, k: nat): string
    requires n <= |events|
  {
    if n == 0 then "" else DataFor(events, n - 1, k) + DataOf(events[n - 1], k)
  }

  // The sources after the event: a locked one refuses its value.
  function SourcesAfter(e: Event, sources: seq<Endpoint>): (r: seq<Endpoint>)
    ensures SameNames(r, sources)
  {
    if e.Change? && e.i < |sources| && !e.locked then sources[e.i := sources[e.i].(value := e.value)] else sources
  }

  // After the first n events.
  function Changed(events: seq<Event>, n: nat, sources: seq<Endpoint>): (r: seq<Endpoint>)
    requires n <= |events|
    ensures SameNames(r, sources)
  {
    if n == 0 then sources else SourcesAfter(events[n - 1], Changed(events, n - 1, sources))
  }

  // How many updates of that name the event queues on a node that has heard that: one if a public
  // source of that name is updated and attached.
  function UpdateBy(full: bool, sources: seq<Endpoint>, e: Event, heard: string, name: string): nat {
    if e.Change? && e.i < |sources| && !sources[e.i].local && sources[e.i].name == name
       && e.i in Heeded(full, sources, heard).attached then 1 else 0
  }

  // How many the first n events queue on the node in entry k, which had heard that before.
  function UpdatesFor(full: bool, sources: seq<Endpoint>, events: seq<Event>, n: nat, k: nat, heard: string, name: string): nat
    requires n <= |events|
  {
    if n == 0 then 0
    else UpdatesFor(full, sources, events, n - 1, k, heard, name)
         + UpdateBy(full, sources, events[n - 1], heard + DataFor(events, n - 1, k), name)
  }

  lemma UpdateCounted(full: bool, sources: seq<Endpoint>, s: Session, rest: string, heard: string, e: Event, name: string)
    requires Answers(full, sources, s, rest, heard) && e.Change? && e.i < |sources|
    ensures var t := if sources[e.i].local then s else Said(SourcesAfter(e, sources), e.i, s);
            Beyond(full, sources, t, heard, name) == Beyond(full, sources, s, heard, name) + UpdateBy(full, sources, e, heard, name)
  {
    hide AskingLines, Count, Heeded;
    CountOneMore(s.log, UpdateOf(SourcesAfter(e, sources)[e.i]), name);
  }

  // The session of the node in entry k after the event, if it stays.
  function SessionAfter(full: bool, sources: seq<Endpoint>, e: Event, k: nat, s: Session, rest: string): Session {
    match e
    case Data(j, buf) => if j == k then OnLines(full, sources, s, Feed(rest, buf).0) else s
    case Change(i, _, _) =>
      if i < |sources| && !sources[i].local then Said(SourcesAfter(e, sources), i, s) else s
    case _ => s
  }

  lemma BeyondAfter(full: bool, sources: seq<Endpoint>, e: Event, k: nat, s: Session, rest: string, heard: string, name: string)
    requires Answers(full, sources, s, rest, heard)
    ensures Beyond(full, sources, SessionAfter(full, sources, e, k, s, rest), heard + DataOf(e, k), name)
         == Beyond(full, sources, s, heard, name) + UpdateBy(full, sources, e, heard, name)
  {
    hide Beyond, Answers, OnLines, Said;
    assert heard + "" == heard;
    if e.Change? && e.i < |sources| {
      UpdateCounted(full, sources, s, rest, heard, e, name);
    } else if e.Data? && e.k == k {
      HearBeyond(full, sources, s, rest, heard, e.buf, name);
    }
  }

  predicate PlainChanges(events: seq<Event>, n: nat)
    requires n <= |events|
  {
    forall m :: 0 <= m < n && events[m].Change? ==> Plain(events[m].value)
  }

  // The table of nodes, whose freed entries are null, and the sources of this program.
  class Table {
    var nodes: seq<Node?>
    var sources: seq<Endpoint>
    const full: bool
    ghost var pending: set<nat>    // sources given a value that is not queued yet
    ghost var tidy: bool           // no name or value of a source has ever been other than clean
    ghost var own: seq<set<object>>

    ghost predicate Separate()
      reads this
    {
      |own| == |nodes| && Disjoint(own) && forall k :: 0 <= k < |own| ==> this !in own[k]
    }

    ghost predicate AllSound()
      requires |own| == |nodes|
      reads this, nodes, set r <- own, o <- r :: o
    {
      forall k :: 0 <= k < |nodes| ==> Sound(nodes[k], own[k])
    }

    ghost predicate Valid()
      reads this, nodes, set r <- own, o <- r :: o
    {
      && Separate() && (tidy ==> AllTidy(sources))
      && forall k :: 0 <= k < |nodes| ==> Live(nodes[k], own[k], full, sources, pending, tidy)
    }

    constructor (full: bool, sources: seq<Endpoint>)
      ensures Valid() && nodes == [] && own == [] && this.sources == sources && this.full == full && pending == {}
      ensures tidy <==> AllTidy(sources)
    {
      nodes, own := [], [];
      this.full := full;
      this.sources := sources;
      pending := {};
      tidy := AllTidy(sources);
    }

    // the search of hkcp_node_alloc: the first free entry, or the end of the table
    method FreeEntry() returns (k: nat)
      ensures k <= |nodes| && (k < |nodes| ==> nodes[k] == null)
      ensures forall j :: 0 <= j < k ==> nodes[j] != null
    {
      k := 0;
      while k < |nodes| && nodes[k] != null
        invariant k <= |nodes| && forall j :: 0 <= j < k ==> nodes[j] != null
      {
        k := k + 1;
      }
    }

    // The table gets one more entry, which is free.
    method Extend()
      requires Valid()
      modifies this`nodes, this`own
      ensures Valid() && nodes == old(nodes) + [null] && own == old(own) + [{}]
    {
      hide Node.Valid, Right, AllTidy;
      nodes, own := nodes + [null], own + [{}];
    }

    // hkcp_node_alloc for a connection that is made: the first free entry, or a new one
    method NodeAdd() returns (k: nat)
      requires Valid()
      modifies this`nodes, this`own
      ensures Valid() && k < |nodes| && nodes[k] != null && fresh(nodes[k])
      ensures |own| == |nodes| && fresh(own[k])
      ensures nodes[k].View() == Session(Sinks, [], []) && nodes[k].Net() == Wire("", "", "")
      ensures if k < |old(nodes)| then old(nodes)[k] == null else k == |old(nodes)|
      ensures forall j :: 0 <= j < k ==> nodes[j] != null
      ensures |nodes| >= |old(nodes)| && forall j :: 0 <= j < |nodes| && j != k ==>
                j < |old(nodes)| && nodes[j] == old(nodes)[j] && own[j] == old(own)[j]
    {
      hide Node.Valid, Right, AllTidy, Live;
      k := FreeEntry();
      if k == |nodes| {
        Extend();
      }
      var node := new Node();
      Occupy(k, node);
    }

    // A new node takes a free entry.
    method Occupy(k: nat, node: Node)
      requires Valid() && k < |nodes| && nodes[k] == null && node.Valid() && this !in node.Repr
      requires forall j :: 0 <= j < |own| ==> node.Repr !! own[j]
      requires node.View() == Session(Sinks, [], []) && node.Net() == Wire("", "", "")
      modifies this`nodes, this`own
      ensures Valid() && nodes == old(nodes)[k := node] && own == old(own)[k := node.Repr]
    {
      hide Node.Valid, Right, AllTidy;
      RightNew(full, sources, pending, tidy);
      GrowOne(own, k, node.Repr);
      nodes, own := nodes[k := node], own[k := node.Repr];
    }

    // hk_source_update, as far as the value goes
    method SetValue(i: nat, value: string)
      requires Valid() && i < |sources|
      modifies this`sources, this`pending, this`tidy
      ensures Valid() && sources == old(sources)[i := old(sources)[i].(value := value)]
      ensures pending == old(pending) + {i} && tidy == (old(tidy) && Plain(value))
    {
      hide Right;
      ghost var was, late := sources, pending;
      sources := sources[i := sources[i].(value := value)];
      pending := pending + {i};
      tidy := tidy && Plain(value);
      assert tidy ==> AllTidy(sources) by {
        TidyChange(was, i, value);
      }
      forall k | 0 <= k < |nodes| ensures Live(nodes[k], own[k], full, sources, pending, tidy) {
        assert Live(nodes[k], own[k], full, was, late, old(tidy));
        if nodes[k] != null {
          RightChange(full, was, late, old(tidy), nodes[k].View(), nodes[k].Net(), i, value);
        }
      }
    }

    lemma SoundOfLive()
      requires Valid()
      ensures AllSound()
    {
      assert forall k :: 0 <= k < |nodes| ==> Live(nodes[k], own[k], full, sources, pending, tidy);
    }

    // one turn of hkcp_source_send_nodes
    method SendNode(k: nat, i: nat)
      requires Separate() && k < |nodes| && i < |sources| && AllSound()
      modifies own[k], this`own
      ensures Separate() && AllSound() && fresh(own[k] - old(own[k])) && own == old(own)[k := own[k]]
      ensures nodes[k] != null ==> nodes[k].View() == Said(sources, i, old(nodes[k].View()))
      ensures forall j :: 0 <= j < |nodes| && j != k && nodes[j] != null ==> nodes[j].View() == old(nodes[j].View())
      ensures forall j :: 0 <= j < |nodes| && nodes[j] != null ==> nodes[j].Net() == old(nodes[j].Net())
    {
      hide Node.Valid, UpdateOf;
      var node := nodes[k];
      if node != null {
        var count := node.SourceAttached(i);
        if count > 0 {
          node.Send(UpdateOf(sources[i]));
        }
        forall j | 0 <= j < |nodes| && j != k
          ensures Sound(nodes[j], own[j])
          ensures nodes[j] != null ==> nodes[j].View() == old(nodes[j].View()) && nodes[j].Net() == old(nodes[j].Net())
        {
          SoundApart(k, j);
        }
        GrowOne(own, k, node.Repr);
        own := own[k := node.Repr];
      }
    }

    // hkcp_source_send_nodes
    method SendNodes(i: nat)
      requires Separate() && i < |sources| && AllSound()
      modifies this`own, Footprint()
      ensures Separate() && AllSound()
      ensures |own| == |old(own)| && forall k :: 0 <= k < |own| ==> fresh(own[k] - old(own)[k])
      ensures forall k :: 0 <= k < |nodes| && nodes[k] != null ==>
                nodes[k].View() == Said(sources, i, old(nodes[k].View())) && nodes[k].Net() == old(nodes[k].Net())
    {
      hide Said, Sound;
      var k := 0;
      while k < |nodes|
        invariant k <= |nodes| && Separate() && |own| == |old(own)|
        invariant AllSound() && forall j :: 0 <= j < |own| ==> fresh(own[j] - old(own[j]))
        invariant forall j :: k <= j < |own| ==> own[j] == old(own[j])
        invariant forall j :: 0 <= j < k && nodes[j] != null ==> nodes[j].View() == Said(sources, i, old(nodes[j].View()))
        invariant forall j :: k <= j < |nodes| && nodes[j] != null ==> nodes[j].View() == old(nodes[j].View())
        invariant forall j :: 0 <= j < |nodes| && nodes[j] != null ==> nodes[j].Net() == old(nodes[j].Net())
      {
        SendNode(k, i);
        k := k + 1;
      }
    }

    // hkcp_source_update, as far as the nodes go
    method SourceUpdate(i: nat)
      requires Valid() && i < |sources|
      modifies this`pending, this`own, Footprint()
      ensures Valid() && pending == old(pending) - {i} && nodes == old(nodes) && sources == old(sources) && tidy == old(tidy)
      ensures |own| == |old(own)| && forall k :: 0 <= k < |own| ==> fresh(own[k] - old(own)[k])
      ensures forall k :: 0 <= k < |nodes| && nodes[k] != null ==>
                nodes[k].View() == Said(sources, i, old(nodes[k].View())) && nodes[k].Net() == old(nodes[k].Net())
      ensures forall k :: 0 <= k < |nodes| && nodes[k] != null ==>
                && nodes[k].state == old(nodes[k].state) && nodes[k].attached == old(nodes[k].attached)
                && nodes[k].log == old(nodes[k].log) +
                     (if i in nodes[k].attached then [Update(sources[i].name, sources[i].value)] else [])
                && nodes[k].sock.queued == old(nodes[k].sock.queued) +
                     (if i in nodes[k].attached then "set " + sources[i].name + "=" + sources[i].value + "\n" else "")
    {
      hide Right, Said, Sound;
      forall k | 0 <= k < |nodes| && nodes[k] != null ensures nodes[k].sock.queued == Queued(nodes[k].log) {
        QueueIs(k);
      }
      assert AllSound() by {
        SoundOfLive();
      }
      SendNodes(i);
      forall k | 0 <= k < |nodes| ensures Live(nodes[k], own[k], full, sources, pending - {i}, tidy) {
        assert old(Live(nodes[k], own[k], full, sources, pending, tidy));
        if nodes[k] != null {
          RightSaid(full, sources, pending, tidy, old(nodes[k].View()), old(nodes[k].Net()), i);
        }
      }
      pending := pending - {i};
      forall k | 0 <= k < |nodes| && nodes[k] != null
        ensures nodes[k].sock.queued == Queued(nodes[k].log) && old(nodes[k].sock.queued) == Queued(old(nodes[k].log))
      {
        QueueIs(k);
      }
      forall k | 0 <= k < |nodes| && nodes[k] != null
        ensures nodes[k].state == old(nodes[k].state) && nodes[k].attached == old(nodes[k].attached)
        ensures nodes[k].log == old(nodes[k].log) +
                  (if i in nodes[k].attached then [Update(sources[i].name, sources[i].value)] else [])
        ensures nodes[k].sock.queued == old(nodes[k].sock.queued) +
                  (if i in nodes[k].attached then "set " + sources[i].name + "=" + sources[i].value + "\n" else "")
      {
        SaidOnce(sources, i, old(nodes[k].View()));
      }
    }

    lemma QueueIs(k: nat)
      requires Valid() && k < |nodes| && nodes[k] != null
      ensures nodes[k].sock.queued == Queued(nodes[k].log)
    {
      assert Live(nodes[k], own[k], full, sources, pending, tidy);
    }

    // comm_source_update_str: the value, then the nodes. A locked source refuses the value; the one
    // it has is queued all the same. What happens in between, when local sinks are updated, is any
    // sequence of these same operations.
    method CommSourceUpdate(i: nat, value: string, locked: bool)
      requires Valid() && i < |sources|
      modifies this`sources, this`pending, this`tidy, this`own, Footprint()
      ensures Valid() && nodes == old(nodes)
      ensures sources == if locked then old(sources) else old(sources)[i := old(sources)[i].(value := value)]
      ensures tidy == (old(tidy) && (locked || Plain(value)))
      ensures pending == if !sources[i].local then old(pending) - {i}
                         else if locked then old(pending) else old(pending) + {i}
      ensures |own| == |old(own)| && forall k :: 0 <= k < |own| ==> fresh(own[k] - old(own)[k])
      ensures forall k :: 0 <= k < |nodes| && nodes[k] != null ==>
                && nodes[k].View() == (if sources[i].local then old(nodes[k].View()) else Said(sources, i, old(nodes[k].View())))
                && nodes[k].Net() == old(nodes[k].Net())
    {
      hide Node.Valid, Right, Said;
      if !locked {
        SetValue(i, value);
      }
      if !sources[i].local {
        SourceUpdate(i);
      }
    }

    // Nodes other than k are made of other objects.
    lemma SoundApart(k: nat, j: nat)
      requires Separate() && k < |nodes| && j < |nodes| && j != k
      ensures own[j] !! own[k]
    {
      assert Apart(own[if j < k then j else k], own[if j < k then k else j]);
    }

    // the data event of node k; a removed node leaves its entry free
    method NodeRecv(k: nat, buf: string)
      requires Valid() && k < |nodes| && nodes[k] != null
      modifies this`nodes, this`own, own[k]
      ensures Valid() && |nodes| == |old(nodes)|
      ensures fresh(own[k] - old(own)[k]) && own == old(own)[k := own[k]]
      ensures forall j :: 0 <= j < |nodes| && j != k ==> nodes[j] == old(nodes)[j]
      ensures forall j :: 0 <= j < |nodes| && j != k && nodes[j] != null ==>
                nodes[j].View() == old(nodes[j].View()) && nodes[j].Net() == old(nodes[j].Net())
      ensures var rest, heard := old(nodes[k].reader.rbuf), old(nodes[k].heard) + buf;
              var s := OnLines(full, sources, old(nodes[k].View()), Feed(rest, buf).0);
              && s.state == Heeded(full, sources, heard).state
              && if s.state == Removed then nodes[k] == null
                 else nodes[k] == old(nodes)[k] && nodes[k].View() == s
                      && nodes[k].Net() == Wire(heard, Feed(rest, buf).1, old(nodes[k].sock.sent))
    {
      hide Node.Valid, Right, OnLines, Heeded;
      var node := nodes[k];
      ghost var before, net := node.View(), node.Net();
      assert Live(node, own[k], full, sources, pending, tidy);
      node.Recv(full, sources, buf);
      RightHeard(full, sources, pending, tidy, before, net, buf);
      forall j | 0 <= j < |nodes| && j != k
        ensures Live(nodes[j], own[j], full, sources, pending, tidy)
        ensures nodes[j] != null ==> nodes[j].View() == old(nodes[j].View()) && nodes[j].Net() == old(nodes[j].Net())
      {
        assert old(Live(nodes[j], own[j], full, sources, pending, tidy));
        SoundApart(k, j);
      }
      var removed := node.state == Removed;
      GrowOne(own, k, if removed then {} else node.Repr);
      own := own[k := if removed then {} else node.Repr];
      if removed {
        nodes := nodes[k := null];
      }
    }

    // the write event of node k
    method NodeWrite(k: nat, taken: int)
      requires Valid() && k < |nodes| && nodes[k] != null && taken <= nodes[k].sock.wbuf.len
      modifies this`own, own[k]
      ensures Valid() && nodes == old(nodes)
      ensures fresh(own[k] - old(own)[k]) && own == old(own)[k := own[k]]
      ensures forall j :: 0 <= j < |nodes| && nodes[j] != null ==> nodes[j].View() == old(nodes[j].View())
      ensures forall j :: 0 <= j < |nodes| && nodes[j] != null && j != k ==> nodes[j].Net() == old(nodes[j].Net())
      ensures nodes[k].Net() == old(nodes[k].Net()).(sent := nodes[k].sock.sent)
      ensures |nodes[k].sock.sent| == |old(nodes[k].sock.sent)| + if taken > 0 then taken else 0
      ensures old(nodes[k].sock.sent) <= nodes[k].sock.sent <= Queued(nodes[k].log)
    {
      hide Node.Valid, Right;
      var node := nodes[k];
      ghost var net := node.Net();
      assert Live(node, own[k], full, sources, pending, tidy);
      node.WriteEvent(taken);
      RightSent(full, sources, pending, tidy, node.View(), net, node.sock.sent);
      forall j | 0 <= j < |nodes| && j != k
        ensures Live(nodes[j], own[j], full, sources, pending, tidy)
        ensures nodes[j] != null ==> nodes[j].View() == old(nodes[j].View()) && nodes[j].Net() == old(nodes[j].Net())
      {
        assert old(Live(nodes[j], own[j], full, sources, pending, tidy));
        SoundApart(k, j);
      }
      GrowOne(own, k, node.Repr);
      own := own[k := node.Repr];
    }

    // Node n is in entry k, and has heard that, exactly if it is not dropped for it.
    ghost predicate Stays(k: nat, n: Node, sources: seq<Endpoint>, heard: string)
      reads this, n
    {
      && k < |nodes| && (nodes[k] == n <==> Heeded(full, sources, heard).state != Removed)
      && (nodes[k] == n ==> n.heard == heard)
    }

    ghost function Footprint(): set<object>
      reads this
    {
      set k, o | 0 <= k < |own| && o in own[k] :: o
    }

    // One event; those that name no node, no source, or more bytes than are queued, do not happen.
    method Happen(e: Event)
      requires Valid()
      modifies this, Footprint()
      ensures Valid() && fresh(Footprint() - old(Footprint()))
      ensures sources == SourcesAfter(e, old(sources)) && |nodes| >= |old(nodes)|
      ensures e.Join? ==> exists k :: 0 <= k < |nodes| && nodes[k] != null && fresh(nodes[k])
      ensures e.Taken? && e.k < |old(nodes)| && old(nodes)[e.k] != null && 0 <= e.n <= old(nodes[e.k].sock.wbuf.len) ==>
                nodes[e.k] == old(nodes)[e.k] && |nodes[e.k].sock.sent| == |old(nodes[e.k].sock.sent)| + e.n
      ensures old(tidy) && (e.Change? ==> Plain(e.value)) ==> tidy
      ensures forall i <- pending :: i in old(pending) || (i < |sources| && sources[i].local)
      ensures forall k :: 0 <= k < |old(nodes)| ==>
                nodes[k] == old(nodes)[k] || nodes[k] == null || fresh(nodes[k])
      ensures forall k :: 0 <= k < |old(nodes)| && old(nodes)[k] != null ==>
                Stays(k, old(nodes)[k], old(sources), old(nodes[k].heard) + DataOf(e, k))
      ensures forall k :: 0 <= k < |old(nodes)| && old(nodes)[k] != null && nodes[k] == old(nodes)[k] ==>
                nodes[k].View() == SessionAfter(full, old(sources), e, k, old(nodes[k].View()), old(nodes[k].reader.rbuf))
    {
      hide Node.Valid, Right, OnLines, Heeded, Plain, Said, Live, AllTidy, Disjoint;
      forall k | 0 <= k < |nodes| && nodes[k] != null
        ensures nodes[k].heard + "" == nodes[k].heard && Heeded(full, sources, nodes[k].heard).state != Removed
      {
        StateHeard(k);
      }
      match e {
      case Join =>
        var k := NodeAdd();
      case Data(k, buf) =>
        if k < |nodes| && nodes[k] != null {
          NodeRecv(k, buf);
        }
      case Change(i, value, locked) =>
        if i < |sources| {
          CommSourceUpdate(i, value, locked);
        }
      case Taken(k, n) =>
        if k < |nodes| && nodes[k] != null && n <= nodes[k].sock.wbuf.len {
          NodeWrite(k, n);
        }
      }
    }

    // The same event, and what it queues under each name.
    method Step(e: Event)
      requires Valid()
      modifies this, Footprint()
      ensures Valid() && fresh(Footprint() - old(Footprint()))
      ensures sources == SourcesAfter(e, old(sources)) && |nodes| >= |old(nodes)|
      ensures e.Join? ==> exists k :: 0 <= k < |nodes| && nodes[k] != null && fresh(nodes[k])
      ensures e.Taken? && e.k < |old(nodes)| && old(nodes)[e.k] != null && 0 <= e.n <= old(nodes[e.k].sock.wbuf.len) ==>
                nodes[e.k] == old(nodes)[e.k] && |nodes[e.k].sock.sent| == |old(nodes[e.k].sock.sent)| + e.n
      ensures old(tidy) && (e.Change? ==> Plain(e.value)) ==> tidy
      ensures forall i <- pending :: i in old(pending) || (i < |sources| && sources[i].local)
      ensures forall k :: 0 <= k < |old(nodes)| ==>
                nodes[k] == old(nodes)[k] || nodes[k] == null || fresh(nodes[k])
      ensures forall k :: 0 <= k < |old(nodes)| && old(nodes)[k] != null ==>
                Stays(k, old(nodes)[k], old(sources), old(nodes[k].heard) + DataOf(e, k))
      ensures forall k, name: string :: 0 <= k < |old(nodes)| && old(nodes)[k] != null && nodes[k] == old(nodes)[k] ==>
                Beyond(full, old(sources), nodes[k].View(), nodes[k].heard, name)
                == Beyond(full, old(sources), old(nodes[k].View()), old(nodes[k].heard), name)
                   + UpdateBy(full, old(sources), e, old(nodes[k].heard), name)
    {
      hide Node.Valid, Right, OnLines, Heeded, Plain, Said, Live, AllTidy, Disjoint, Beyond, Answers, UpdateBy, SessionAfter, Valid, Stays;
      ghost var s := sources;
      forall k | 0 <= k < |nodes| && nodes[k] != null
        ensures Answers(full, sources, nodes[k].View(), nodes[k].reader.rbuf, nodes[k].heard)
      {
        StateHeard(k);
      }
      Happen(e);
      forall k, name: string | 0 <= k < |old(nodes)| && old(nodes)[k] != null && nodes[k] == old(nodes)[k]
        ensures Beyond(full, s, nodes[k].View(), nodes[k].heard, name)
             == Beyond(full, s, old(nodes[k].View()), old(nodes[k].heard), name) + UpdateBy(full, s, e, old(nodes[k].heard), name)
      {
        StaysHeard(k, old(nodes)[k], s, old(nodes[k].heard) + DataOf(e, k));
        BeyondAfter(full, s, e, k, old(nodes[k].View()), old(nodes[k].reader.rbuf), old(nodes[k].heard), name);
      }
    }

    lemma StaysHeard(k: nat, n: Node, sources: seq<Endpoint>, heard: string)
      requires Stays(k, n, sources, heard) && nodes[k] == n
      ensures n.heard == heard
    {
    }

    // A node in the table is not dropped for what it has heard.
    lemma StateHeard(k: nat)
      requires Valid() && k < |nodes| && nodes[k] != null
      ensures Heeded(full, sources, nodes[k].heard).state != Removed
      ensures Answers(full, sources, nodes[k].View(), nodes[k].reader.rbuf, nodes[k].heard)
    {
      assert Live(nodes[k], own[k], full, sources, pending, tidy);
    }

    // Any run. A node stays, with all that came in for it, exactly if that does not end its list
    // with nothing attached.
    method Run(events: seq<Event>)
      requires Valid()
      modifies this, Footprint()
      ensures Valid() && fresh(Footprint() - old(Footprint()))
      ensures sources == Changed(events, |events|, old(sources)) && |nodes| >= |old(nodes)|
      ensures old(tidy) && PlainChanges(events, |events|) ==> tidy
      ensures forall i <- pending :: i in old(pending) || (i < |sources| && sources[i].local)
      ensures forall k :: 0 <= k < |old(nodes)| && old(nodes)[k] != null ==>
                Stays(k, old(nodes)[k], old(sources), old(nodes[k].heard) + DataFor(events, |events|, k))
      ensures forall k, name: string :: 0 <= k < |old(nodes)| && old(nodes)[k] != null && nodes[k] == old(nodes)[k] ==>
                Beyond(full, old(sources), nodes[k].View(), nodes[k].heard, name)
                == Beyond(full, old(sources), old(nodes[k].View()), old(nodes[k].heard), name)
                   + UpdatesFor(full, old(sources), events, |events|, k, old(nodes[k].heard), name)
    {
      hide Node.Valid, Right, OnLines, Heeded, Plain, Live, AllTidy, Disjoint, SameNames, Valid, SourcesAfter, Beyond, UpdateBy;
      AllStay();
      var m := 0;
      while m < |events|
        invariant m <= |events| && Valid() && fresh(Footprint() - old(Footprint()))
        invariant sources == Changed(events, m, old(sources)) && |nodes| >= |old(nodes)|
        invariant old(tidy) && PlainChanges(events, m) ==> tidy
        invariant forall i <- pending :: i in old(pending) || (i < |sources| && sources[i].local)
        invariant forall k :: 0 <= k < |old(nodes)| && old(nodes)[k] != null ==>
                    Stays(k, old(nodes)[k], old(sources), old(nodes[k].heard) + DataFor(events, m, k))
        invariant forall k, name: string :: 0 <= k < |old(nodes)| && old(nodes)[k] != null && nodes[k] == old(nodes)[k] ==>
                    Beyond(full, old(sources), nodes[k].View(), nodes[k].heard, name)
                    == Beyond(full, old(sources), old(nodes[k].View()), old(nodes[k].heard), name)
                       + UpdatesFor(full, old(sources), events, m, k, old(nodes[k].heard), name)
      {
        BeyondIsKept(old(sources), events[m]);
        ghost var s0, f0 := sources, Footprint();
        Step(events[m]);
        assert Footprint() - old(Footprint()) <= (Footprint() - f0) + (f0 - old(Footprint()));
        forall k | 0 <= k < |old(nodes)| && old(nodes)[k] != null
          ensures Stays(k, old(nodes)[k], old(sources), old(nodes[k].heard) + DataFor(events, m + 1, k))
        {
          ghost var before := old(nodes[k].heard) + DataFor(events, m, k);
          assert before + DataOf(events[m], k) == old(nodes[k].heard) + DataFor(events, m + 1, k);
          StaysOn(full, s0, old(sources), before, DataOf(events[m], k));
        }
        SameNamesOn(sources, s0, old(sources));
        BeyondIsKept(old(sources), events[m]);
        m := m + 1;
      }
    }

    // Counts do not depend on values.
    lemma BeyondIsKept(was: seq<Endpoint>, e: Event)
      requires SameNames(sources, was)
      ensures forall s: Session, heard, name :: Beyond(full, sources, s, heard, name) == Beyond(full, was, s, heard, name)
      ensures forall heard, name :: UpdateBy(full, sources, e, heard, name) == UpdateBy(full, was, e, heard, name)
    {
      forall s: Session, heard, name ensures Beyond(full, sources, s, heard, name) == Beyond(full, was, s, heard, name) {
        AskingLinesKept(full, sources, was, Feed("", heard).0, 0, name);
      }
      forall heard, name ensures UpdateBy(full, sources, e, heard, name) == UpdateBy(full, was, e, heard, name) {
        HeededKept(full, sources, was, heard);
      }
    }

    lemma AllStay()
      requires Valid()
      ensures forall k :: 0 <= k < |nodes| && nodes[k] != null ==> Stays(k, nodes[k], sources, nodes[k].heard + "")
    {
      hide Live, Heeded, SameNames;
      forall k | 0 <= k < |nodes| && nodes[k] != null ensures Stays(k, nodes[k], sources, nodes[k].heard + "") {
        StateHeard(k);
        assert nodes[k].heard + "" == nodes[k].heard;
      }
    }

    // What is attached to node k is what it has asked for, so far, of public sources.
    lemma AttachedNow(k: nat, was: seq<Endpoint>)
      requires Valid() && k < |nodes| && nodes[k] != null && SameNames(sources, was)
      ensures Alike(nodes[k].View(), Heeded(full, was, nodes[k].heard)) && nodes[k].state != Removed
      ensures forall i <- nodes[k].attached :: i < |sources| && !sources[i].local
    {
      hide Heeded;
      assert Live(nodes[k], own[k], full, sources, pending, tidy);
      HeededKept(full, sources, was, nodes[k].heard);
    }

    // As long as names and values of sources have been clean, each sink of node k that asked for a
    // source whose update is not still to be queued ends with its value.
    lemma AllHold(k: nat, rfull: bool, sinks: seq<Endpoint>, tiles: bool, i: nat, m: nat)
      requires Valid() && tidy && k < |nodes| && nodes[k] != null
      requires Listable(sinks, tiles) && FromAnswer(sinks, tiles, nodes[k].heard)
      requires AskersFirst(full, rfull, sources, sinks, tiles)
      requires i in nodes[k].attached && i !in pending && m < |sinks| && AsksFor(full, sources, sinks[m], tiles, i)
      ensures Told(nodes[k], rfull, sinks, sources, i, m)
    {
      hide Receive, Right, AskersFirst, AsksFor, Listable, FromAnswer;
      assert Live(nodes[k], own[k], full, sources, pending, tidy);
      nodes[k].AskersHold(full, rfull, sinks, tiles, sources, pending, i, m);
    }
  }

  // What a node is dropped for does not depend on values, and stays so.
  lemma StaysOn(full: bool, a: seq<Endpoint>, b: seq<Endpoint>, heard: string, more: string)
    requires SameNames(a, b)
    ensures Heeded(full, a, heard + more).state == Heeded(full, b, heard + more).state
    ensures Heeded(full, b, heard).state == Removed ==> Heeded(full, b, heard + more).state == Removed
  {
    hide Heeded;
    HeededKept(full, a, b, heard + more);
    if Heeded(full, b, heard).state != Sinks {
      HeededEnds(full, b, heard, more);
    }
  }

  lemma SameNamesOn(a: seq<Endpoint>, b: seq<Endpoint>, c: seq<Endpoint>)
    requires SameNames(a, b) && SameNames(b, c)
    ensures SameNames(a, c) && |a| == |b| && forall i :: 0 <= i < |a| ==> a[i].local == b[i].local
  {
    assert forall j :: 0 <= j < |a| ==> a[j] == b[j].(value := a[j].value) && b[j] == c[j].(value := b[j].value);
  }

  lemma AskersKept(full: bool, rfull: bool, a: seq<Endpoint>, b: seq<Endpoint>, sinks: seq<Endpoint>, tiles: bool)
    requires SameNames(a, b)
    ensures AskersFirst(full, rfull, a, sinks, tiles) <==> AskersFirst(full, rfull, b, sinks, tiles)
    ensures forall e, i: nat :: AsksFor(full, a, e, tiles, i) <==> AsksFor(full, b, e, tiles, i)
  {
    forall e, i: nat ensures AsksFor(full, a, e, tiles, i) <==> AsksFor(full, b, e, tiles, i) {
      FindKept(a, b, full, Id(e, tiles), 0);
    }
  }

  lemma TidyChange(sources: seq<Endpoint>, i: nat, value: string)
    requires i < |sources|
    ensures AllTidy(sources) && Plain(value) ==> AllTidy(sources[i := sources[i].(value := value)])
  {
    var next := sources[i := sources[i].(value := value)];
    if AllTidy(sources) && Plain(value) {
      forall j | 0 <= j < |next| ensures Tidy(next[j]) {
        assert Tidy(sources[j]);
      }
    }
  }

  // Update i, once, for a session that has the source attached.
  function Said(sources: seq<Endpoint>, i: nat, s: Session): Session
    requires i < |sources|
  {
    if i in s.attached then s.(log := s.log + [UpdateOf(sources[i])]) else s
  }

  lemma SaidOnce(sources: seq<Endpoint>, i: nat, s: Session)
    requires i < |sources|
    ensures var t, told := Said(sources, i, s), i in s.attached;
            && t.state == s.state && t.attached == s.attached
            && t.log == s.log + (if told then [Update(sources[i].name, sources[i].value)] else [])
            && Queued(t.log) == Queued(s.log) + (if told then "set " + sources[i].name + "=" + sources[i].value + "\n" else "")
  {
    PrintedOne(s.log, UpdateOf(sources[i]));
    var u := UpdateOf(sources[i]);
    assert SetLine(u) + "\n" == "set " + u.name + "=" + u.value + "\n";
    assert s.log + [] == s.log && Queued(s.log) + "" == Queued(s.log);
  }

  lemma SaidTidy(sources: seq<Endpoint>, s: Session, i: nat)
    requires i < |sources| && AllTidy(sources) && TidyLog(s.log)
    ensures TidyLog(Said(sources, i, s).log)
  {
    TidySay(sources, s.log, i);
  }

  lemma SaidKeeps(sources: seq<Endpoint>, pending: set<nat>, s: Session, i: nat)
    requires i < |sources| && Faithful(sources, pending, s)
    ensures Faithful(sources, pending - {i}, Said(sources, i, s))
  {
    if i in s.attached {
      SayKeeps(sources, pending, s, i);
    }
  }

  lemma NothingHeard(full: bool, sources: seq<Endpoint>, name: string)
    ensures Beyond(full, sources, Session(Sinks, [], []), "", name) == 0
  {
  }

  // Once node n has sent what is queued, sink k over there has the value of source i, or what it
  // had if that is an event of which nothing was said.
  ghost predicate Told(n: Node, rfull: bool, sinks: seq<Endpoint>, sources: seq<Endpoint>, i: nat, k: nat)
    requires i < |sources| && k < |sinks|
    reads n, n.sock, n.sock.wbuf, n.sock.wbuf.base
  {
    && n.sock.Valid()
    && var r := Receive(rfull, Receive(rfull, Remote("", sinks), n.sock.sent), n.sock.wbuf.Contents());
       var d := AfterName(n.log, sources[i].name);
       && r.line == "" && |r.sinks| == |sinks| && (d == 0 ==> sources[i].event)
       && r.sinks[k].value == if d == 0 then sinks[k].value else sources[i].value
  }

  // The whole protocol, for the first node of a program: any interleaving of its answer, cut
  // anywhere, with updates of sources, partial writes, and whatever other nodes do. Once the answer
  // is in, exactly the sources asked for are attached, and the node is dropped if there are none;
  // at any time, each sink that asked for an attached source ends with its value, if askers are
  // first of their names and what is said is clean. Under each name it is sent one update for each
  // line that asks for a value, and one for each time a source of that name was updated while attached.
  method Replicate(full: bool, sources: seq<Endpoint>, events: seq<Event>, rfull: bool, sinks: seq<Endpoint>, tiles: bool)
    returns (t: Table, ghost n: Node)
    requires Listable(sinks, tiles) && FromAnswer(sinks, tiles, DataFor(events, |events|, 0))
    ensures t.Valid() && t.sources == Changed(events, |events|, sources) && |t.nodes| > 0
    ensures t.nodes[0] == n ==> n.heard == DataFor(events, |events|, 0)
    ensures Answer(sinks, tiles) <= DataFor(events, |events|, 0) ==>
              (t.nodes[0] == n <==> exists i: nat :: Requested(full, sources, sinks, tiles, i))
    ensures Answer(sinks, tiles) <= DataFor(events, |events|, 0) && t.nodes[0] == n ==>
              forall i: nat :: i in n.attached <==> Requested(full, sources, sinks, tiles, i)
    ensures t.nodes[0] == n ==> forall name ::
              Count(n.log, name) == AskingLines(full, sources, Feed("", n.heard).0, 0, name)
                                    + UpdatesFor(full, sources, events, |events|, 0, "", name)
    ensures t.nodes[0] == n && AllTidy(sources) && PlainChanges(events, |events|)
            && AskersFirst(full, rfull, sources, sinks, tiles) ==>
              forall i, k: nat :: i in n.attached && k < |sinks| && AsksFor(full, sources, sinks[k], tiles, i) ==>
                i < |t.sources| && Told(n, rfull, sinks, t.sources, i, k)
  {
    hide Table.Valid, Heeded, AllTidy, Plain, Listable, FromAnswer, Requested, AskersFirst, AsksFor, Answer, SameNames, Told,
         AskingLines, UpdatesFor;
    t := new Table(full, sources);
    var first := t.NodeAdd();
    n := t.nodes[first];
    t.Run(events);
    ghost var heard := DataFor(events, |events|, 0);
    assert "" + heard == heard;
    AnswerHeard(full, sources, sinks, tiles, heard);
    ghost var s := Heeded(full, sources, heard);
    assert s.attached != [] ==> s.attached[0] in s.attached;
    if t.nodes[0] == n {
      t.AttachedNow(0, sources);
      forall name ensures Beyond(full, sources, Session(Sinks, [], []), "", name) == 0 {
        NothingHeard(full, sources, name);
      }
      if t.tidy && AskersFirst(full, rfull, sources, sinks, tiles) {
        AskersKept(full, rfull, t.sources, sources, sinks, tiles);
        forall i, k: nat | i in n.attached && k < |sinks| && AsksFor(full, sources, sinks[k], tiles, i)
          ensures i < |t.sources| && Told(n, rfull, sinks, t.sources, i, k)
        {
          t.AllHold(0, rfull, sinks, tiles, i, k);
        }
      }
    }
  }
}
