// What it means for a tile of and/or gates to be settled, on plain values, and how one
// delivery of a value changes that. Pads and objects are identified by table positions.
module Logic {
  import opened Wrappers

  datatype Class =
    | Gate(conj: bool, inv: bool)  // "and" (conj) or "or", with or without inverted output
    | Sink                         // endpoint whose updates drive an OUT pad
    | Source                       // endpoint fed by an input pad
    | Custom                       // any other class

  // The fixed part of an object. `inputs` may have holes: "in3" alone leaves 0..2 empty.
  datatype Desc = Desc(cls: Class, inputs: seq<Option<nat>>, outs: seq<nat>, localSinks: seq<nat>)

  // The fixed part of a tile during propagation.
  // `peers[p]` lists the pads on the net of pad p.
  datatype Graph = Graph(isOut: seq<bool>, owner: seq<nat>, net: seq<nat>, peers: seq<seq<nat>>, objs: seq<Desc>)

  // The part that propagation changes.
  datatype View = View(state: seq<bool>, value: seq<string>, refresh: seq<bool>, end: seq<string>)

  // atoi(s) != 0: leading blanks, an optional sign, then a digit run holding a non-zero digit.
  function Truth(s: string): bool {
    if s != "" && s[0] in " \t\n\r\U{0B}\U{0C}" then Truth(s[1..])
    else if s != "" && s[0] in "+-" then Digits(s[1..])
    else Digits(s)
  }

  function Digits(s: string): bool {
    s != "" && '0' <= s[0] <= '9' && (s[0] != '0' || Digits(s[1..]))
  }

  // Text read as a number: blanks, a sign, digits, and a rest at which reading stops.
  predicate NumberParts(b: string, g: string, d: string, r: string) {
    && (forall c <- b :: c == ' ' || '\t' <= c <= '\r')
    && (g == "" || g == "+" || g == "-")
    && (forall c <- d :: '0' <= c <= '9')
    && (r == "" || !('0' <= r[0] <= '9'))
    && (g == "" && d == "" && r != "" ==> r[0] != ' ' && !('\t' <= r[0] <= '\r') && r[0] != '+' && r[0] != '-')
  }

  // A text is on exactly when one of its digits is not zero.
  lemma {:induction false} TruthIff(b: string, g: string, d: string, r: string)
    requires NumberParts(b, g, d, r)
    ensures Truth(b + g + d + r) <==> exists k :: 0 <= k < |d| && d[k] != '0'
    decreases |b|
  {
    hide Digits;
    var s := b + g + d + r;
    if b != "" {
      assert b[0] in b && forall c <- b[1..] :: c in b;
      assert s[1..] == b[1..] + g + d + r && s[0] == b[0];
      TruthIff(b[1..], g, d, r);
    } else {
      assert s == g + d + r;
      SignedIff(g, d, r);
    }
  }

  lemma SignedIff(g: string, d: string, r: string)
    requires NumberParts("", g, d, r)
    ensures Truth(g + d + r) <==> exists k :: 0 <= k < |d| && d[k] != '0'
  {
    hide Digits;
    DigitsIff(d, r);
    var s := g + d + r;
    if g != "" {
      assert s[0] == g[0] && s[1..] == d + r;
    } else {
      assert s == d + r;
      assert d != "" ==> s[0] == d[0] && d[0] in d;
    }
  }

  lemma {:induction false} DigitsIff(d: string, r: string)
    requires (forall c <- d :: '0' <= c <= '9') && (r == "" || !('0' <= r[0] <= '9'))
    ensures Digits(d + r) <==> exists k :: 0 <= k < |d| && d[k] != '0'
    decreases |d|
  {
    if d == "" {
      assert d + r == r;
    } else {
      assert d[0] in d && forall c <- d[1..] :: c in d;
      assert (d + r)[1..] == d[1..] + r;
      DigitsIff(d[1..], r);
      assert forall k :: 0 < k < |d| ==> d[k] == d[1..][k - 1];
      assert forall k :: 0 <= k < |d| - 1 ==> d[1..][k] == d[k + 1];
    }
  }

  // Every text has these parts.
  lemma {:induction false} TruthParts(s: string) returns (b: string, g: string, d: string, r: string)
    ensures s == b + g + d + r && NumberParts(b, g, d, r)
    decreases |s|
  {
    b, g := "", "";
    if s != "" && (s[0] == ' ' || '\t' <= s[0] <= '\r') {
      b, g, d, r := TruthParts(s[1..]);
      b := [s[0]] + b;
      assert s == b + g + d + r;
    } else {
      var t := s;
      if s != "" && s[0] in "+-" {
        g, t := [s[0]], s[1..];
      }
      d, r := "", t;
      while r != "" && '0' <= r[0] <= '9'
        invariant t == d + r && forall c <- d :: '0' <= c <= '9'
        decreases |r|
      {
        d, r := d + [r[0]], r[1..];
      }
    }
  }

  function Fmt(b: bool): (s: string)
    ensures Truth(s) == b
  {
    if b then "1" else "0"
  }

  ghost predicate WellFormed(g: Graph) {
    && |g.owner| == |g.isOut| && |g.net| == |g.isOut| && |g.peers| == |g.isOut|
    && (forall p, j :: 0 <= p < |g.isOut| && g.net[p] != 0 && 0 <= j < |g.peers[p]| ==>
          g.peers[p][j] < |g.isOut| && g.net[g.peers[p][j]] == g.net[p])
    && (forall p, q :: 0 <= p < |g.isOut| && 0 <= q < |g.isOut| && g.net[p] == g.net[q] != 0 ==> q in g.peers[p])
    && (forall p :: 0 <= p < |g.owner| ==> g.owner[p] < |g.objs|)
    && (forall k, j :: 0 <= k < |g.objs| && 0 <= j < |g.objs[k].outs| ==>
          g.objs[k].outs[j] < |g.isOut| && g.isOut[g.objs[k].outs[j]])
    && (forall k, j :: 0 <= k < |g.objs| && 0 <= j < |g.objs[k].inputs| && g.objs[k].inputs[j].Some? ==>
          g.objs[k].inputs[j].value < |g.isOut|)
    && (forall k, j :: 0 <= k < |g.objs| && 0 <= j < |g.objs[k].localSinks| ==>
          g.objs[k].localSinks[j] < |g.objs| && g.objs[g.objs[k].localSinks[j]].cls.Sink?)
    && (forall k :: 0 <= k < |g.objs| && (g.objs[k].cls.Gate? || g.objs[k].cls.Sink?) ==> |g.objs[k].outs| == 1)
  }

  ghost predicate Shaped(g: Graph, v: View) {
    |v.state| == |v.value| == |g.isOut| && |v.refresh| == |v.end| == |g.objs|
  }

  // Pad d drives input pad i.
  predicate Edge(g: Graph, d: nat, i: nat)
    requires d < |g.isOut| && i < |g.isOut| && |g.net| == |g.isOut|
  {
    g.isOut[d] && !g.isOut[i] && g.net[d] == g.net[i] != 0
  }

  // A tile of gates fed by external outputs: no cycle (witnessed by a ranking of the objects),
  // at most one OUT pad per net, no local source-to-sink link.
  ghost predicate Acyclic(g: Graph, rank: seq<nat>) {
    && WellFormed(g) && |rank| == |g.objs|
    && (forall k :: 0 <= k < |g.objs| ==> !g.objs[k].cls.Custom? && g.objs[k].localSinks == [])
    && (forall d, i :: 0 <= d < |g.isOut| && 0 <= i < |g.isOut| && Edge(g, d, i) ==>
          rank[g.owner[d]] < rank[g.owner[i]])
    && (forall d, e, i | 0 <= d < |g.isOut| && 0 <= e < |g.isOut| && 0 <= i < |g.isOut| ::
          Edge(g, d, i) && Edge(g, e, i) ==> d == e)
    && (forall p :: 0 <= p < |g.isOut| && g.isOut[p] ==> g.objs[g.owner[p]].outs == [p])
    && (forall k, j :: 0 <= k < |g.objs| && 0 <= j < |g.objs[k].inputs| && g.objs[k].inputs[j].Some? ==>
          !g.isOut[g.objs[k].inputs[j].value] && g.owner[g.objs[k].inputs[j].value] == k)
    && (forall k :: 0 <= k < |g.objs| && |g.objs[k].outs| == 1 ==> g.owner[g.objs[k].outs[0]] == k)
    && (forall i, j | 0 <= i < |g.isOut| && 0 <= j < |g.isOut| && !g.isOut[i] && !g.isOut[j] ::
          g.owner[i] == g.owner[j] && g.objs[g.owner[i]].cls.Source? ==> i == j)
  }

  // The boolean function of gate k.
  ghost predicate Eval(g: Graph, state: seq<bool>, k: nat)
    requires WellFormed(g) && |state| == |g.isOut| && k < |g.objs| && g.objs[k].cls.Gate?
  {
    var o := g.objs[k];
    (if o.cls.conj
     then forall j :: 0 <= j < |o.inputs| && o.inputs[j].Some? ==> state[o.inputs[j].value]
     else exists j :: 0 <= j < |o.inputs| && o.inputs[j].Some? && state[o.inputs[j].value]) != o.cls.inv
  }

  // The output of gate k shows its function, both as state and as published value.
  ghost predicate GateShows(g: Graph, v: View, k: nat)
    requires WellFormed(g) && Shaped(g, v) && k < |g.objs| && g.objs[k].cls.Gate?
  {
    var p := g.objs[k].outs[0];
    v.state[p] == Eval(g, v.state, k) && v.value[p] == Fmt(v.state[p])
  }

  // ... once the gate has used up its first unconditional output (`refresh`).
  ghost predicate GateOk(g: Graph, v: View, k: nat)
    requires WellFormed(g) && Shaped(g, v) && k < |g.objs|
  {
    g.objs[k].cls.Gate? && !v.refresh[k] ==> GateShows(g, v, k)
  }

  // Input pad i holds the value s, as far as its class keeps it.
  ghost predicate Holds(g: Graph, v: View, i: nat, s: string)
    requires WellFormed(g) && Shaped(g, v) && i < |g.isOut|
  {
    match g.objs[g.owner[i]].cls
    case Gate(_, _) => v.state[i] == Truth(s)
    case Source => v.end[g.owner[i]] == s
    case _ => true
  }

  ghost predicate Pending(g: Graph, v: View, d: nat)
    requires WellFormed(g) && Shaped(g, v) && d < |g.isOut|
  {
    g.objs[g.owner[d]].cls.Gate? && v.refresh[g.owner[d]]
  }

  ghost predicate EdgeOk(g: Graph, v: View, d: nat, i: nat)
    requires WellFormed(g) && Shaped(g, v) && d < |g.isOut| && i < |g.isOut|
  {
    Edge(g, d, i) ==> Pending(g, v, d) || Holds(g, v, i, v.value[d])
  }

  ghost predicate GatesOk(g: Graph, v: View)
    requires WellFormed(g) && Shaped(g, v)
  {
    forall k :: 0 <= k < |g.objs| ==> GateOk(g, v, k)
  }

  ghost predicate EdgesOk(g: Graph, v: View)
    requires WellFormed(g) && Shaped(g, v)
  {
    forall d, i :: 0 <= d < |g.isOut| && 0 <= i < |g.isOut| ==> EdgeOk(g, v, d, i)
  }

  // Every gate shows its function and every input holds the value of its driver.
  ghost predicate Settled(g: Graph, v: View)
    requires WellFormed(g) && Shaped(g, v)
  {
    && GatesOk(g, v) && EdgesOk(g, v)
    && (forall k :: 0 <= k < |g.objs| && g.objs[k].cls.Gate? ==> !v.refresh[k])
  }

  // In a settled tile an and gate shows 1 iff all its connected inputs are on, an or gate iff one is,
  // the other way round if inverted; else they show 0. An input is on iff the text of its driver is.
  lemma SettledMeans(g: Graph, v: View, k: nat)
    requires WellFormed(g) && Shaped(g, v) && Settled(g, v) && k < |g.objs| && g.objs[k].cls.Gate?
    ensures var o, shown := g.objs[k], v.value[g.objs[k].outs[0]];
            && (shown == "0" || shown == "1")
            && (o.cls == Gate(true, false) ==> (shown == "1" <==> AllOn(g, v, k)))
            && (o.cls == Gate(true, true) ==> (shown == "0" <==> AllOn(g, v, k)))
            && (o.cls == Gate(false, false) ==> (shown == "0" <==> AllOff(g, v, k)))
            && (o.cls == Gate(false, true) ==> (shown == "1" <==> AllOff(g, v, k)))
    ensures forall d, j :: 0 <= d < |g.isOut| && 0 <= j < |g.objs[k].inputs| && g.objs[k].inputs[j].Some?
                           && Edge(g, d, g.objs[k].inputs[j].value) && g.owner[g.objs[k].inputs[j].value] == k ==>
              v.state[g.objs[k].inputs[j].value] == Truth(v.value[d])
  {
    assert GateOk(g, v, k);
    forall d, j | 0 <= d < |g.isOut| && 0 <= j < |g.objs[k].inputs| && g.objs[k].inputs[j].Some?
                  && Edge(g, d, g.objs[k].inputs[j].value) && g.owner[g.objs[k].inputs[j].value] == k
      ensures v.state[g.objs[k].inputs[j].value] == Truth(v.value[d])
    {
      assert EdgeOk(g, v, d, g.objs[k].inputs[j].value);
    }
  }

  ghost predicate AllOn(g: Graph, v: View, k: nat)
    requires WellFormed(g) && Shaped(g, v) && k < |g.objs|
  {
    forall j :: 0 <= j < |g.objs[k].inputs| && g.objs[k].inputs[j].Some? ==> v.state[g.objs[k].inputs[j].value]
  }

  ghost predicate AllOff(g: Graph, v: View, k: nat)
    requires WellFormed(g) && Shaped(g, v) && k < |g.objs|
  {
    forall j :: 0 <= j < |g.objs[k].inputs| && g.objs[k].inputs[j].Some? ==> !v.state[g.objs[k].inputs[j].value]
  }

  // ---------------------------------------------------------------- what one step does

  // From v to w nothing changed on pads and objects of rank at most r, except the value of pad p
  // (a bound p == |g.isOut| excepts nothing); no object regained its refresh.
  ghost predicate Below(g: Graph, rank: seq<nat>, v: View, w: View, r: nat, p: nat)
    requires Acyclic(g, rank) && Shaped(g, v) && Shaped(g, w)
  {
    && (forall q :: 0 <= q < |g.isOut| && rank[g.owner[q]] <= r ==> w.state[q] == v.state[q])
    && (forall q :: 0 <= q < |g.isOut| && rank[g.owner[q]] <= r && q != p ==> w.value[q] == v.value[q])
    && (forall k :: 0 <= k < |g.objs| && rank[k] <= r ==> w.refresh[k] == v.refresh[k] && w.end[k] == v.end[k])
    && (forall k :: 0 <= k < |g.objs| && w.refresh[k] ==> v.refresh[k])
  }

  // Gate k may re-evaluate itself: all other gates are right, and its last output was published.
  ghost predicate MayEvaluate(g: Graph, v: View, k: nat)
    requires WellFormed(g) && Shaped(g, v) && k < |g.objs| && g.objs[k].cls.Gate?
  {
    && (forall j :: 0 <= j < |g.objs| && j != k ==> GateOk(g, v, j))
    && (!v.refresh[k] ==> v.value[g.objs[k].outs[0]] == Fmt(v.state[g.objs[k].outs[0]]))
  }

  // OUT pad p may be given value s: all gates but its owner are right, and s is what its owner shows.
  ghost predicate MayEmit(g: Graph, v: View, p: nat, s: string)
    requires WellFormed(g) && Shaped(g, v) && p < |g.isOut|
  {
    && g.isOut[p]
    && (forall k :: 0 <= k < |g.objs| && k != g.owner[p] ==> GateOk(g, v, k))
    && (g.objs[g.owner[p]].cls.Gate? ==>
          && !v.refresh[g.owner[p]] && g.objs[g.owner[p]].outs == [p]
          && v.state[p] == Eval(g, v.state, g.owner[p]) && s == Fmt(v.state[p]))
  }

  // OUT pad p was given value s; this may have reached some of its inputs and what lies behind.
  ghost predicate Emitted(g: Graph, rank: seq<nat>, v: View, w: View, p: nat, s: string)
    requires Acyclic(g, rank) && Shaped(g, v) && Shaped(g, w) && p < |g.isOut|
  {
    && g.isOut[p] && w.value[p] == s && !Pending(g, w, p) && GatesOk(g, w)
    && (forall d, i :: 0 <= d < |g.isOut| && 0 <= i < |g.isOut| && d != p && EdgeOk(g, v, d, i) ==> EdgeOk(g, w, d, i))
    && Below(g, rank, v, w, rank[g.owner[p]], p)
  }

  // ... it has reached the inputs in `done`,
  ghost predicate DeliveredTo(g: Graph, rank: seq<nat>, v: View, w: View, p: nat, s: string, done: set<nat>)
    requires Acyclic(g, rank) && Shaped(g, v) && Shaped(g, w) && p < |g.isOut|
  {
    && Emitted(g, rank, v, w, p, s)
    && forall i :: i in done && i < |g.isOut| && Edge(g, p, i) ==> Holds(g, w, i, s)
  }

  // ... it has reached all its inputs.
  ghost predicate Delivered(g: Graph, rank: seq<nat>, v: View, w: View, p: nat, s: string)
    requires Acyclic(g, rank) && Shaped(g, v) && Shaped(g, w) && p < |g.isOut|
  {
    && Emitted(g, rank, v, w, p, s)
    && forall i :: 0 <= i < |g.isOut| && Edge(g, p, i) ==> Holds(g, w, i, s)
  }

  // Input pad i took value s and its object reacted.
  ghost predicate Taken(g: Graph, rank: seq<nat>, v: View, w: View, i: nat, s: string)
    requires Acyclic(g, rank) && Shaped(g, v) && Shaped(g, w) && i < |g.isOut|
  {
    && Holds(g, w, i, s) && GatesOk(g, w)
    && (forall d, j :: 0 <= d < |g.isOut| && 0 <= j < |g.isOut| && j != i && EdgeOk(g, v, d, j) ==> EdgeOk(g, w, d, j))
    && (forall r: nat :: r < rank[g.owner[i]] ==> Below(g, rank, v, w, r, |g.isOut|))
  }

  // Gate k re-evaluated itself.
  ghost predicate Evaluated(g: Graph, rank: seq<nat>, v: View, w: View, k: nat)
    requires Acyclic(g, rank) && Shaped(g, v) && Shaped(g, w) && k < |g.objs| && g.objs[k].cls.Gate?
  {
    && GatesOk(g, w) && !w.refresh[k]
    && (forall d, i :: 0 <= d < |g.isOut| && 0 <= i < |g.isOut| && EdgeOk(g, v, d, i) ==> EdgeOk(g, w, d, i))
    && (forall q :: 0 <= q < |g.isOut| && rank[g.owner[q]] <= rank[k] && q != g.objs[k].outs[0] ==>
          w.state[q] == v.state[q] && w.value[q] == v.value[q])
    && (forall j :: 0 <= j < |g.objs| && rank[j] <= rank[k] ==> w.end[j] == v.end[j])
    && (forall j :: 0 <= j < |g.objs| && rank[j] <= rank[k] && j != k ==> w.refresh[j] == v.refresh[j])
    && (forall j :: 0 <= j < |g.objs| && w.refresh[j] ==> v.refresh[j])
  }

  lemma DeliverStart(g: Graph, rank: seq<nat>, v: View, p: nat, s: string)
    requires Acyclic(g, rank) && Shaped(g, v) && p < |g.isOut| && MayEmit(g, v, p, s)
    ensures DeliveredTo(g, rank, v, v.(value := v.value[p := s]), p, s, {})
  {
    var w := v.(value := v.value[p := s]);
    forall k | 0 <= k < |g.objs| ensures GateOk(g, w, k) {
      if k != g.owner[p] {
        assert GateOk(g, v, k);
      }
    }
  }

  lemma DeliverStep(g: Graph, rank: seq<nat>, v: View, w: View, x: View, p: nat, s: string, done: set<nat>, i: nat)
    requires Acyclic(g, rank) && Shaped(g, v) && Shaped(g, w) && Shaped(g, x)
    requires p < |g.isOut| && i < |g.isOut| && Edge(g, p, i)
    requires DeliveredTo(g, rank, v, w, p, s, done) && Taken(g, rank, w, x, i, s)
    ensures DeliveredTo(g, rank, v, x, p, s, done + {i})
  {
    assert Below(g, rank, w, x, rank[g.owner[p]], |g.isOut|);
    forall j | j in done + {i} && j < |g.isOut| && Edge(g, p, j) ensures Holds(g, x, j, s) {
      if j != i {
        assert EdgeOk(g, w, p, j);
        assert EdgeOk(g, x, p, j);
      }
    }
    forall d, j | 0 <= d < |g.isOut| && 0 <= j < |g.isOut| && d != p && EdgeOk(g, v, d, j)
      ensures EdgeOk(g, x, d, j)
    {
      assert EdgeOk(g, w, d, j);
    }
  }

  lemma DeliverEnd(g: Graph, rank: seq<nat>, v: View, w: View, p: nat, s: string, done: set<nat>)
    requires Acyclic(g, rank) && Shaped(g, v) && Shaped(g, w) && p < |g.isOut|
    requires DeliveredTo(g, rank, v, w, p, s, done)
    requires forall i :: 0 <= i < |g.isOut| && Edge(g, p, i) ==> i in done
    ensures Delivered(g, rank, v, w, p, s)
  {
  }

  // A gate whose output already shows its function does nothing.
  lemma EvaluateQuiet(g: Graph, rank: seq<nat>, v: View, k: nat)
    requires Acyclic(g, rank) && Shaped(g, v) && k < |g.objs| && g.objs[k].cls.Gate?
    requires forall j :: 0 <= j < |g.objs| && j != k ==> GateOk(g, v, j)
    requires !v.refresh[k] && GateShows(g, v, k)
    ensures Evaluated(g, rank, v, v, k)
  {
  }

  // Otherwise it drops `refresh`, sets its output and delivers it.
  lemma EvaluateEmit(g: Graph, rank: seq<nat>, v: View, u: View, w: View, k: nat)
    requires Acyclic(g, rank) && Shaped(g, v) && Shaped(g, w) && k < |g.objs| && g.objs[k].cls.Gate?
    requires var p := g.objs[k].outs[0];
             u == v.(refresh := v.refresh[k := false], state := v.state[p := Eval(g, v.state, k)])
    requires Delivered(g, rank, u, w, g.objs[k].outs[0], Fmt(Eval(g, v.state, k)))
    ensures Evaluated(g, rank, v, w, k)
  {
    forall d, i | 0 <= d < |g.isOut| && 0 <= i < |g.isOut| && EdgeOk(g, v, d, i) ensures EdgeOk(g, w, d, i) {
      EmitEdge(g, rank, v, u, w, k, d, i);
    }
    EmitBounds(g, rank, v, u, w, k);
  }

  // The connections,
  lemma EmitEdge(g: Graph, rank: seq<nat>, v: View, u: View, w: View, k: nat, d: nat, i: nat)
    requires Acyclic(g, rank) && Shaped(g, v) && Shaped(g, w) && k < |g.objs| && g.objs[k].cls.Gate?
    requires u == v.(refresh := v.refresh[k := false], state := v.state[g.objs[k].outs[0] := Eval(g, v.state, k)])
    requires Delivered(g, rank, u, w, g.objs[k].outs[0], Fmt(Eval(g, v.state, k)))
    requires d < |g.isOut| && i < |g.isOut| && EdgeOk(g, v, d, i)
    ensures EdgeOk(g, w, d, i)
  {
    if d != g.objs[k].outs[0] {
      assert EdgeOk(g, u, d, i);
    }
  }

  // and what stays.
  lemma EmitBounds(g: Graph, rank: seq<nat>, v: View, u: View, w: View, k: nat)
    requires Acyclic(g, rank) && Shaped(g, v) && Shaped(g, w) && k < |g.objs| && g.objs[k].cls.Gate?
    requires u == v.(refresh := v.refresh[k := false], state := v.state[g.objs[k].outs[0] := Eval(g, v.state, k)])
    requires Delivered(g, rank, u, w, g.objs[k].outs[0], Fmt(Eval(g, v.state, k)))
    ensures !w.refresh[k]
    ensures forall q :: 0 <= q < |g.isOut| && rank[g.owner[q]] <= rank[k] && q != g.objs[k].outs[0] ==>
              w.state[q] == v.state[q] && w.value[q] == v.value[q]
    ensures forall j :: 0 <= j < |g.objs| && rank[j] <= rank[k] ==> w.end[j] == v.end[j]
    ensures forall j :: 0 <= j < |g.objs| && rank[j] <= rank[k] && j != k ==> w.refresh[j] == v.refresh[j]
    ensures forall j :: 0 <= j < |g.objs| && w.refresh[j] ==> v.refresh[j]
  {
    hide EdgeOk, GateOk, GatesOk;
    assert Below(g, rank, u, w, rank[k], g.objs[k].outs[0]);
  }

  lemma EmitIsAllowed(g: Graph, rank: seq<nat>, v: View, u: View, k: nat)
    requires Acyclic(g, rank) && Shaped(g, v) && k < |g.objs| && g.objs[k].cls.Gate?
    requires forall j :: 0 <= j < |g.objs| && j != k ==> GateOk(g, v, j)
    requires var p := g.objs[k].outs[0];
             u == v.(refresh := v.refresh[k := false], state := v.state[p := Eval(g, v.state, k)])
    ensures MayEmit(g, u, g.objs[k].outs[0], Fmt(Eval(g, v.state, k)))
  {
    SameInputs(g, rank, v.state, u.state, k);
    forall j | 0 <= j < |g.objs| && j != k ensures GateOk(g, u, j) {
      if g.objs[j].cls.Gate? {
        SameInputs(g, rank, v.state, u.state, j);
        assert GateOk(g, v, j);
      }
    }
  }

  // Writing an OUT pad's state, or an input pad of another object, does not change a gate's function.
  lemma SameInputs(g: Graph, rank: seq<nat>, a: seq<bool>, b: seq<bool>, k: nat)
    requires Acyclic(g, rank) && |a| == |b| == |g.isOut| && k < |g.objs| && g.objs[k].cls.Gate?
    requires forall q :: 0 <= q < |g.isOut| && !g.isOut[q] && g.owner[q] == k ==> a[q] == b[q]
    ensures Eval(g, a, k) == Eval(g, b, k)
  {
    var o := g.objs[k];
    assert forall j :: 0 <= j < |o.inputs| && o.inputs[j].Some? ==> a[o.inputs[j].value] == b[o.inputs[j].value];
  }

  // A gate input: the state is stored, then the gate re-evaluates itself.
  lemma GateTakes(g: Graph, rank: seq<nat>, v: View, u: View, w: View, i: nat, s: string)
    requires Acyclic(g, rank) && Shaped(g, v) && Shaped(g, w) && i < |g.isOut| && !g.isOut[i]
    requires g.objs[g.owner[i]].cls.Gate?
    requires u == v.(state := v.state[i := Truth(s)])
    requires Evaluated(g, rank, u, w, g.owner[i])
    ensures Taken(g, rank, v, w, i, s)
  {
    hide EdgeOk, GateOk;
    forall d, j | 0 <= d < |g.isOut| && 0 <= j < |g.isOut| && j != i && EdgeOk(g, v, d, j)
      ensures EdgeOk(g, w, d, j)
    {
      assert EdgeOk(g, u, d, j) by {
        StateEdge(g, v, i, Truth(s), d, j);
      }
    }
  }

  // The state of one input concerns its own connections only.
  lemma StateEdge(g: Graph, v: View, i: nat, b: bool, d: nat, j: nat)
    requires WellFormed(g) && Shaped(g, v) && i < |g.isOut| && d < |g.isOut| && j < |g.isOut| && j != i
    ensures EdgeOk(g, v, d, j) <==> EdgeOk(g, v.(state := v.state[i := b]), d, j)
  {
  }

  lemma GateMayEvaluate(g: Graph, rank: seq<nat>, v: View, i: nat, b: bool)
    requires Acyclic(g, rank) && Shaped(g, v) && i < |g.isOut| && !g.isOut[i] && GatesOk(g, v)
    requires g.objs[g.owner[i]].cls.Gate?
    ensures MayEvaluate(g, v.(state := v.state[i := b]), g.owner[i])
  {
    var u := v.(state := v.state[i := b]);
    forall j | 0 <= j < |g.objs| && j != g.owner[i] ensures GateOk(g, u, j) {
      if g.objs[j].cls.Gate? {
        SameInputs(g, rank, v.state, u.state, j);
        assert GateOk(g, v, j);
      }
    }
    assert GateOk(g, v, g.owner[i]);
  }

  // A source input: the endpoint value is stored.
  lemma SourceTakes(g: Graph, rank: seq<nat>, v: View, i: nat, s: string)
    requires Acyclic(g, rank) && Shaped(g, v) && i < |g.isOut| && !g.isOut[i]
    requires g.objs[g.owner[i]].cls.Source? && GatesOk(g, v)
    ensures Taken(g, rank, v, v.(end := v.end[g.owner[i] := s]), i, s)
  {
    var w := v.(end := v.end[g.owner[i] := s]);
    forall k | 0 <= k < |g.objs| ensures GateOk(g, w, k) {
      assert GateOk(g, v, k);
    }
    forall d, j | 0 <= d < |g.isOut| && 0 <= j < |g.isOut| && j != i && EdgeOk(g, v, d, j)
      ensures EdgeOk(g, w, d, j)
    {
    }
  }

  lemma SinkMayEmit(g: Graph, rank: seq<nat>, v: View, k: nat, s: string)
    requires Acyclic(g, rank) && Shaped(g, v) && GatesOk(g, v) && k < |g.objs| && g.objs[k].cls.Sink?
    ensures MayEmit(g, v.(end := v.end[k := s]), g.objs[k].outs[0], s)
  {
    var u := v.(end := v.end[k := s]);
    forall j | 0 <= j < |g.objs| ensures GateOk(g, u, j) {
      assert GateOk(g, v, j);
    }
  }

  // ---------------------------------------------------------------- settling

  // A delivery from an external output keeps a settled tile settled.
  lemma DeliveryKeepsSettled(g: Graph, rank: seq<nat>, v: View, w: View, k: nat, s: string)
    requires Acyclic(g, rank) && Shaped(g, v) && Shaped(g, w) && k < |g.objs| && g.objs[k].cls.Sink?
    requires EdgesOk(g, v)
    requires Delivered(g, rank, v.(end := v.end[k := s]), w, g.objs[k].outs[0], s)
    ensures GatesOk(g, w) && EdgesOk(g, w)
    ensures forall j :: 0 <= j < |g.objs| && w.refresh[j] ==> v.refresh[j]
    ensures w.value[g.objs[k].outs[0]] == s
  {
    var p, u := g.objs[k].outs[0], v.(end := v.end[k := s]);
    forall d, i | 0 <= d < |g.isOut| && 0 <= i < |g.isOut| ensures EdgeOk(g, w, d, i) {
      if d != p {
        assert EdgeOk(g, v, d, i);
        SinkTakesNothing(g, v, k, s, d, i);
      }
    }
  }

  lemma SinkTakesNothing(g: Graph, v: View, k: nat, s: string, d: nat, i: nat)
    requires WellFormed(g) && Shaped(g, v) && k < |g.objs| && g.objs[k].cls.Sink?
    requires d < |g.isOut| && i < |g.isOut|
    ensures EdgeOk(g, v.(end := v.end[k := s]), d, i) <==> EdgeOk(g, v, d, i)
  {
  }

  // Before any value was set, with every gate still owing its first output.
  ghost predicate Blank(g: Graph, v: View)
    requires WellFormed(g) && Shaped(g, v)
  {
    && (forall p :: 0 <= p < |g.isOut| ==> !v.state[p] && v.value[p] == "")
    && (forall k :: 0 <= k < |g.objs| ==> v.refresh[k] && v.end[k] == "")
  }

  lemma BlankIsReady(g: Graph, rank: seq<nat>, v: View)
    requires Acyclic(g, rank) && Shaped(g, v) && Blank(g, v)
    ensures GatesOk(g, v) && EdgesOk(g, v)
  {
    assert !Truth("");
  }

  // Two settled states with the same external values, and the same levels on undriven inputs.
  ghost predicate SameDrive(g: Graph, v: View, w: View)
    requires WellFormed(g) && Shaped(g, v) && Shaped(g, w)
  {
    && (forall p :: 0 <= p < |g.isOut| && g.isOut[p] && !g.objs[g.owner[p]].cls.Gate? ==> v.value[p] == w.value[p])
    && (forall i :: 0 <= i < |g.isOut| && !g.isOut[i] && (forall d :: 0 <= d < |g.isOut| ==> !Edge(g, d, i)) ==>
          v.state[i] == w.state[i])
  }

  // The settled state is a function of the external values: the tile computes its boolean
  // function, however the values got there.
  lemma {:induction false} SettledIsUnique(g: Graph, rank: seq<nat>, v: View, w: View, p: nat)
    requires Acyclic(g, rank) && Shaped(g, v) && Shaped(g, w)
    requires Settled(g, v) && Settled(g, w) && SameDrive(g, v, w)
    requires p < |g.isOut| && g.isOut[p]
    ensures v.value[p] == w.value[p]
    ensures g.objs[g.owner[p]].cls.Gate? ==> v.state[p] == w.state[p]
    decreases rank[g.owner[p]]
  {
    var k := g.owner[p];
    if g.objs[k].cls.Gate? {
      forall q | 0 <= q < |g.isOut| && !g.isOut[q] && g.owner[q] == k ensures v.state[q] == w.state[q] {
        if d :| 0 <= d < |g.isOut| && Edge(g, d, q) {
          SettledIsUnique(g, rank, v, w, d);
          assert EdgeOk(g, v, d, q) && EdgeOk(g, w, d, q);
        }
      }
      SameInputs(g, rank, v.state, w.state, k);
      assert GateOk(g, v, k) && GateOk(g, w, k);
    }
  }
}
