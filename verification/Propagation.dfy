// Propagation of pad values through nets, gates and locally linked endpoints
// (core/mod.c, core/endpoint.c, classes/and, classes/or, classes/sink, classes/source).
//
// Two results are carried by the same methods. On any wiring, cycles included, every call
// terminates: `budget` bounds the number of unlocked inputs and endpoints, each nested delivery
// uses at least one unit, and all those locks are restored on return. When `logic` is set
// the tile is an acyclic one of gates, and the calls keep it settled.
module Propagation {
  import opened Wrappers
  import opened Wiring
  import opened Logic

  // Locks of the pads and of the endpoints. Only input pads' locks are ever read, so the locks
  // of OUT pads are left out: they read as locked.
  datatype Locks = Locks(ins: seq<bool>, ends: seq<bool>)

  function Open(s: seq<bool>): set<nat> {
    set k: nat | k < |s| && !s[k]
  }

  function Free(l: Locks): nat {
    |Open(l.ins)| + |Open(l.ends)|
  }

  lemma LockPad(l: Locks, i: nat)
    requires i < |l.ins| && !l.ins[i]
    ensures Free(l) == Free(l.(ins := l.ins[i := true])) + 1
  {
    LockOne(l.ins, i);
  }

  lemma LockEnd(l: Locks, k: nat)
    requires k < |l.ends| && !l.ends[k]
    ensures Free(l) == Free(l.(ends := l.ends[k := true])) + 1
  {
    LockOne(l.ends, k);
  }

  lemma LockOne(s: seq<bool>, i: nat)
    requires i < |s| && !s[i]
    ensures |Open(s[i := true])| == |Open(s)| - 1
  {
    assert Open(s[i := true]) == Open(s) - {i};
  }

  // Only inputs of objects ranked below `r` are locked, and no source is.
  ghost predicate Clear(g: Graph, rank: seq<nat>, l: Locks, r: nat)
    requires WellFormed(g) && |rank| == |g.objs|
  {
    && |l.ins| == |g.isOut| && |l.ends| == |g.objs|
    && (forall q :: 0 <= q < |g.isOut| && !g.isOut[q] && l.ins[q] ==> rank[g.owner[q]] < r)
    && (forall k :: 0 <= k < |g.objs| && g.objs[k].cls.Source? ==> !l.ends[k])
  }

  // A value handed to an input pad, or to a sink by its local source; both may refuse it. `room` is
  // how many inputs and endpoints are unlocked when that happens.
  datatype Offer = ToInput(pad: nat, value: string, room: nat) | ToSink(obj: nat, value: string, room: nat)

  // Offers to the inputs among these pads, save p.
  function InputOffers(g: Graph, p: nat, s: string, room: nat, pads: seq<nat>): seq<Offer>
    requires forall k :: 0 <= k < |pads| ==> pads[k] < |g.isOut|
  {
    if pads == [] then []
    else
      var q := pads[|pads| - 1];
      InputOffers(g, p, s, room, pads[..|pads| - 1]) + if q != p && !g.isOut[q] then [ToInput(q, s, room)] else []
  }

  function SinkOffers(s: string, room: nat, sinks: seq<nat>): seq<Offer> {
    if sinks == [] then [] else SinkOffers(s, room, sinks[..|sinks| - 1]) + [ToSink(sinks[|sinks| - 1], s, room)]
  }

  // The offers made with that room or more are these, each once; what they lead to leaves less room.
  ghost predicate Offered(a: multiset<Offer>, b: multiset<Offer>, room: nat, offers: seq<Offer>) {
    forall x: Offer :: x.room >= room ==> b[x] == a[x] + multiset(offers)[x]
  }

  lemma OfferedMore(a: multiset<Offer>, b: multiset<Offer>, c: multiset<Offer>, room: nat, offers: seq<Offer>, more: seq<Offer>)
    requires Offered(a, b, room, offers) && Offered(b, c, room, more)
    ensures Offered(a, c, room, offers + more)
  {
  }

  lemma NoOffer(a: multiset<Offer>, room: nat)
    ensures Offered(a, a, room, [])
  {
  }

  // An offer that leads to others with less room.
  lemma OfferedFirst(a: multiset<Offer>, b: multiset<Offer>, x: Offer)
    requires Offered(a + multiset{x}, b, x.room, [])
    ensures Offered(a, b, x.room, [x])
  {
  }

  lemma OfferedAside(a: multiset<Offer>, b: multiset<Offer>, room: nat, more: nat, offers: seq<Offer>)
    requires Offered(a, b, room, offers) && room < more && forall x <- offers :: x.room == room
    ensures Offered(a, b, more, [])
  {
    forall x: Offer | x.room >= more ensures multiset(offers)[x] == 0 {
      assert x !in offers;
    }
  }

  lemma ThenOffered(a: multiset<Offer>, b: multiset<Offer>, x: Offer, offers: seq<Offer>)
    requires x.room > 0 && Offered(a + multiset{x}, b, x.room - 1, offers)
    ensures Offered(a, b, x.room - 1, [x] + offers)
  {
  }

  lemma {:induction false} SinkOffersHaveRoom(s: string, room: nat, sinks: seq<nat>)
    ensures forall x <- SinkOffers(s, room, sinks) :: x.room == room
    decreases |sinks|
  {
    if sinks != [] {
      SinkOffersHaveRoom(s, room, sinks[..|sinks| - 1]);
    }
  }

  lemma InputOffersStep(g: Graph, p: nat, s: string, room: nat, pads: seq<nat>, i: nat)
    requires i < |pads| && forall k :: 0 <= k < |pads| ==> pads[k] < |g.isOut|
    ensures InputOffers(g, p, s, room, pads[..i + 1]) ==
            InputOffers(g, p, s, room, pads[..i]) + if pads[i] != p && !g.isOut[pads[i]] then [ToInput(pads[i], s, room)] else []
  {
    assert pads[..i + 1][..i] == pads[..i];
  }

  lemma InputOffersNone(g: Graph, p: nat, s: string, room: nat)
    ensures InputOffers(g, p, s, room, []) == []
  {
  }

  lemma {:induction false} OffersHaveRoom(g: Graph, p: nat, s: string, room: nat, pads: seq<nat>)
    requires forall k :: 0 <= k < |pads| ==> pads[k] < |g.isOut|
    ensures forall x <- InputOffers(g, p, s, room, pads) :: x.room == room
    decreases |pads|
  {
    if pads != [] {
      OffersHaveRoom(g, p, s, room, pads[..|pads| - 1]);
    }
  }

  // Each other input among the pads is offered the value once, if they are distinct; no other pad is.
  lemma {:induction false} OfferedOnce(g: Graph, p: nat, s: string, room: nat, pads: seq<nat>)
    requires forall k :: 0 <= k < |pads| ==> pads[k] < |g.isOut|
    requires forall j, k :: 0 <= j < k < |pads| ==> pads[j] != pads[k]
    ensures forall q: nat :: multiset(InputOffers(g, p, s, room, pads))[ToInput(q, s, room)]
                             == if q in pads && q != p && !g.isOut[q] then 1 else 0
    decreases |pads|
  {
    if pads != [] {
      var front, last := pads[..|pads| - 1], pads[|pads| - 1];
      OfferedOnce(g, p, s, room, front);
      assert pads == front + [last];
    }
  }

  lemma ClearPad(g: Graph, rank: seq<nat>, l: Locks, i: nat)
    requires Acyclic(g, rank) && i < |g.isOut| && !g.isOut[i] && Clear(g, rank, l, rank[g.owner[i]])
    ensures !l.ins[i] && Clear(g, rank, l.(ins := l.ins[i := true]), rank[g.owner[i]] + 1)
  {
  }

  lemma ClearSink(g: Graph, rank: seq<nat>, l: Locks, r: nat, k: nat)
    requires WellFormed(g) && |rank| == |g.objs| && Clear(g, rank, l, r) && k < |g.objs| && g.objs[k].cls.Sink?
    ensures Clear(g, rank, l.(ends := l.ends[k := true]), r)
  {
  }

  // While p is delivered, its inputs may take the value.
  lemma MayPass(g: Graph, rank: seq<nat>, v0: View, v: View, l: Locks, p: nat, s: string, done: set<nat>, q: nat)
    requires Acyclic(g, rank) && Shaped(g, v0) && Shaped(g, v) && p < |g.isOut| && q < |g.isOut| && Edge(g, p, q)
    requires DeliveredTo(g, rank, v0, v, p, s, done) && Clear(g, rank, l, rank[g.owner[p]] + 1)
    ensures GatesOk(g, v) && Clear(g, rank, l, rank[g.owner[q]])
  {
  }

  // The values of locked endpoints stay, and offers are not forgotten.
  ghost predicate Kept(l: Locks, v: View, w: View, told: multiset<Offer>, told': multiset<Offer>) {
    && told <= told'
    && forall k :: 0 <= k < |l.ends| && k < |v.end| && k < |w.end| && l.ends[k] ==> w.end[k] == v.end[k]
  }

  lemma KeptOn(l: Locks, m: Locks, a: View, b: View, c: View,
               p: multiset<Offer>, q: multiset<Offer>, r: multiset<Offer>)
    requires Kept(l, a, b, p, q) && Kept(m, b, c, q, r) && |a.end| == |b.end| == |c.end| == |l.ends| == |m.ends|
    requires forall k :: 0 <= k < |l.ends| && l.ends[k] ==> m.ends[k]
    ensures Kept(l, a, c, p, r)
  {
  }

  // An endpoint that takes a value is locked while the rest happens, so it has it afterwards.
  lemma KeptEnd(l: Locks, v: View, w: View, k: nat, s: string, told: multiset<Offer>, first: multiset<Offer>, after: multiset<Offer>)
    requires k < |l.ends| == |v.end| == |w.end| && !l.ends[k] && told <= first
    requires Kept(l.(ends := l.ends[k := true]), v.(end := v.end[k := s]), w, first, after)
    ensures Kept(l, v, w, told, after) && w.end[k] == s
  {
    assert forall j :: 0 <= j < |l.ends| && l.ends[j] ==> l.ends[k := true][j];
  }

  lemma KeptPad(l: Locks, v: View, w: View, i: nat, told: multiset<Offer>, first: multiset<Offer>, after: multiset<Offer>)
    requires i < |l.ins| && told <= first && Kept(l.(ins := l.ins[i := true]), v, w, first, after)
    ensures Kept(l, v, w, told, after)
  {
  }

  lemma KeptState(l: Locks, v: View, w: View, p: nat, b: bool, told: multiset<Offer>, after: multiset<Offer>)
    requires p < |v.state| && Kept(l, v.(state := v.state[p := b]), w, told, after)
    ensures Kept(l, v, w, told, after)
  {
  }

  lemma KeptTold(l: Locks, v: View, after: multiset<Offer>, told: multiset<Offer>)
    requires told <= after
    ensures Kept(l, v, v, told, after)
  {
  }

  lemma KeptSelf(l: Locks, v: View, told: multiset<Offer>)
    ensures Kept(l, v, v, told, told)
  {
  }

  // The pad positions named by the object descriptions exist.
  ghost predicate ObjsFit(tile: Tile, objs: seq<Desc>) {
    && (forall k :: 0 <= k < |tile.pads| ==> tile.pads[k].obj < |objs|)
    && (forall o, j :: o in objs && 0 <= j < |o.outs| ==> o.outs[j] < |tile.pads| && tile.pads[o.outs[j]].dir == Out)
    && (forall o, j :: o in objs && 0 <= j < |o.inputs| && o.inputs[j].Some? ==> o.inputs[j].value < |tile.pads|)
    && (forall o, j :: o in objs && 0 <= j < |o.localSinks| ==>
          o.localSinks[j] < |objs| && objs[o.localSinks[j]].cls.Sink?)
    && (forall o :: o in objs && (o.cls.Gate? || o.cls.Sink?) ==> |o.outs| == 1)
  }

  function Positions(pads: seq<Pad>): (r: seq<nat>)
    ensures |r| == |pads| && forall k :: 0 <= k < |pads| ==> r[k] == pads[k].pos
  {
    if pads == [] then [] else [pads[0].pos] + Positions(pads[1..])
  }

  lemma PositionsHas(pads: seq<Pad>, p: Pad)
    requires p in pads
    ensures p.pos in Positions(pads)
  {
    var k :| 0 <= k < |pads| && pads[k] == p;
    assert Positions(pads)[k] == p.pos;
  }

  ghost predicate Wired(tile: Tile)
    reads tile, tile.pads, tile.nets
  {
    tile.Valid() && forall k :: 0 <= k < |tile.pads| ==> tile.pads[k].pos == k
  }

  function Peers(p: Pad): seq<nat>
    reads p, p.net
  {
    if p.net == null then [] else Positions(p.net.pads)
  }

  // The graph that propagation walks on a wired tile.
  function GraphOf(tile: Tile, objs: seq<Desc>): (g: Graph)
    reads tile, tile.pads, set p | p in tile.pads && p.net != null :: p.net
    ensures |g.isOut| == |g.owner| == |g.net| == |g.peers| == |tile.pads| && g.objs == objs
    ensures forall k :: 0 <= k < |tile.pads| ==>
              && g.isOut[k] == (tile.pads[k].dir == Out) && g.owner[k] == tile.pads[k].obj
              && g.net[k] == NetId(tile.pads[k]) && g.peers[k] == Peers(tile.pads[k])
  {
    var pads := tile.pads;
    Graph(
      seq(|pads|, k requires 0 <= k < |pads| => pads[k].dir == Out),
      seq(|pads|, k requires 0 <= k < |pads| => pads[k].obj),
      seq(|pads|, k requires 0 <= k < |pads| reads pads, set p | p in pads && p.net != null :: p.net =>
        NetId(pads[k])),
      seq(|pads|, k requires 0 <= k < |pads| reads pads, set p | p in pads && p.net != null :: p.net =>
        Peers(pads[k])),
      objs)
  }

  // Two pads carry the same net number in the graph iff one is listed among the other's peers.
  lemma PeersAreNets(tile: Tile, objs: seq<Desc>, p: nat)
    requires Wired(tile) && p < |tile.pads|
    ensures var g := GraphOf(tile, objs);
            && (forall q :: 0 <= q < |tile.pads| && g.net[p] == g.net[q] != 0 ==> q in g.peers[p])
            && (forall q :: q in g.peers[p] ==> q < |tile.pads| && g.net[q] == g.net[p])
            && (forall j, l :: 0 <= j < l < |g.peers[p]| ==> g.peers[p][j] != g.peers[p][l])
  {
    var g, pads := GraphOf(tile, objs), tile.pads;
    assert pads[p] in pads;
    forall q | 0 <= q < |pads| && g.net[p] == g.net[q] != 0 ensures q in g.peers[p] {
      tile.LabelsAreNets(p, q);
      assert pads[q] in pads;
      PositionsHas(pads[p].net.pads, pads[q]);
    }
    forall q | q in g.peers[p] ensures q < |pads| && g.net[q] == g.net[p] {
      var j :| 0 <= j < |g.peers[p]| && g.peers[p][j] == q;
      assert pads[p].net.pads[j] in pads;
    }
  }

  lemma GraphIsWellFormed(tile: Tile, objs: seq<Desc>)
    requires Wired(tile) && ObjsFit(tile, objs)
    ensures WellFormed(GraphOf(tile, objs))
  {
    var g := GraphOf(tile, objs);
    forall p | 0 <= p < |tile.pads|
      ensures forall q :: 0 <= q < |tile.pads| && g.net[p] == g.net[q] != 0 ==> q in g.peers[p]
      ensures forall q :: q in g.peers[p] ==> q < |tile.pads| && g.net[q] == g.net[p]
    {
      PeersAreNets(tile, objs, p);
    }
    assert forall k :: 0 <= k < |objs| ==> objs[k] in objs;
  }

  class Engine {
    const g: Graph
    ghost const rank: seq<nat>
    var v: View              // pad states and values, gate refresh flags, endpoint values
    var l: Locks
    var warnings: nat        // "attempting to update locked ..." messages
    ghost var told: multiset<Offer>   // the offers made so far

    // The engine of a tile whose wiring is done and on which nothing has been set yet.
    constructor (tile: Tile, objs: seq<Desc>, ghost rank: seq<nat>)
      requires Wired(tile) && ObjsFit(tile, objs)
      ensures Formed() && g == GraphOf(tile, objs) && this.rank == rank
      ensures Blank(g, v) && warnings == 0
      ensures Acyclic(g, rank) ==> Idle() && GatesOk(g, v) && EdgesOk(g, v)
    {
      GraphIsWellFormed(tile, objs);
      this.g := GraphOf(tile, objs);
      this.rank := rank;
      var n := |tile.pads|;
      this.v := View(seq(n, _ => false), seq(n, _ => ""), seq(|objs|, _ => true), seq(|objs|, _ => ""));
      this.l := Locks(seq(n, _ => false), seq(|objs|, _ => false));
      this.warnings := 0;
      this.told := multiset{};
      new;
      if Acyclic(g, rank) {
        BlankIsReady(g, rank, v);
      }
    }

    ghost predicate Formed()
      reads this
    {
      WellFormed(g) && Shaped(g, v) && |l.ins| == |g.isOut| && |l.ends| == |g.objs|
    }

    // The offers that giving a value to pad p makes: to every other input on its net.
    ghost function OffersOf(p: nat, s: string, room: nat): seq<Offer>
      requires Formed() && p < |g.isOut|
      reads this
    {
      if g.net[p] == 0 then [] else InputOffers(g, p, s, room, g.peers[p])
    }

    // hk_pad_update_str
    method UpdateStr(p: nat, s: string, ghost budget: nat, ghost logic: bool)
      requires Formed() && p < |g.isOut| && g.isOut[p] && Free(l) <= budget
      requires logic ==> Acyclic(g, rank) && MayEmit(g, v, p, s) && Clear(g, rank, l, rank[g.owner[p]] + 1)
      modifies this
      ensures Formed() && l == old(l) && Kept(l, old(v), v, old(told), told)
      ensures logic ==> warnings == old(warnings) && Delivered(g, rank, old(v), v, p, s)
      ensures Offered(old(told), told, Free(l), OffersOf(p, s, Free(l)))
      decreases budget, 3
    {
      hide Offered, Free;
      v := v.(value := v.value[p := s]);
      NoOffer(told, Free(l));
      if logic {
        DeliverStart(g, rank, old(v), p, s);
      }
      if g.net[p] != 0 {
        Broadcast(p, s, budget, logic, old(v));
      } else if logic {
        DeliverEnd(g, rank, old(v), v, p, s, {});
      }
    }

    // The loop of hk_pad_update_str over the pads of the net. The lock it holds on the OUT pad
    // itself is read by nobody.
    method Broadcast(p: nat, s: string, ghost budget: nat, ghost logic: bool, ghost v0: View)
      requires Formed() && p < |g.isOut| && g.isOut[p] && g.net[p] != 0 && Free(l) <= budget
      requires logic ==> Acyclic(g, rank) && Shaped(g, v0) && DeliveredTo(g, rank, v0, v, p, s, {})
                         && Clear(g, rank, l, rank[g.owner[p]] + 1)
      modifies this
      ensures Formed() && l == old(l) && Kept(l, old(v), v, old(told), told)
      ensures logic ==> warnings == old(warnings) && Delivered(g, rank, v0, v, p, s)
      ensures Offered(old(told), told, Free(l), OffersOf(p, s, Free(l)))
      decreases budget, 2
    {
      hide DeliveredTo, Delivered, Clear, Offered, Free, Kept, InputOffers;
      KeptSelf(l, v, told);
      InputOffersNone(g, p, s, Free(l));
      var i := 0;
      ghost var done: set<nat> := {};
      NoOffer(told, Free(l));
      while i < |g.peers[p]|
        invariant 0 <= i <= |g.peers[p]|
        invariant Formed() && l == old(l) && Kept(l, old(v), v, old(told), told)
        invariant forall k :: 0 <= k < i && !g.isOut[g.peers[p][k]] ==> g.peers[p][k] in done
        invariant logic ==> warnings == old(warnings) && DeliveredTo(g, rank, v0, v, p, s, done)
        invariant Offered(old(told), told, Free(l), InputOffers(g, p, s, Free(l), g.peers[p][..i]))
      {
        ghost var w, t := v, told;
        done := PassTo(p, i, s, budget, logic, v0, done);
        KeptOn(l, l, old(v), w, v, old(told), t, told);
        InputOffersStep(g, p, s, Free(l), g.peers[p], i);
        OfferedMore(old(told), t, told, Free(l), InputOffers(g, p, s, Free(l), g.peers[p][..i]), InputOffer(p, i, s, Free(l)));
        i := i + 1;
      }
      assert g.peers[p][..i] == g.peers[p];
      if logic {
        DeliverEnd(g, rank, v0, v, p, s, done);
      }
    }

    ghost function InputOffer(p: nat, i: nat, s: string, room: nat): seq<Offer>
      requires Formed() && p < |g.isOut| && i < |g.peers[p]|
      requires g.peers[p][i] < |g.isOut|
      reads this
    {
      var q := g.peers[p][i];
      if q != p && !g.isOut[q] then [ToInput(q, s, room)] else []
    }

    // One turn of that loop: pad q of the net of p takes the value, if it is an input.
    method PassTo(p: nat, i: nat, s: string, ghost budget: nat, ghost logic: bool, ghost v0: View, ghost done: set<nat>)
      returns (ghost done': set<nat>)
      requires Formed() && p < |g.isOut| && g.isOut[p] && g.net[p] != 0 && i < |g.peers[p]| && Free(l) <= budget
      requires logic ==> Acyclic(g, rank) && Shaped(g, v0) && DeliveredTo(g, rank, v0, v, p, s, done)
                         && Clear(g, rank, l, rank[g.owner[p]] + 1)
      modifies this
      ensures Formed() && l == old(l) && Kept(l, old(v), v, old(told), told)
      ensures done <= done' && (!g.isOut[g.peers[p][i]] ==> g.peers[p][i] in done')
      ensures logic ==> warnings == old(warnings) && DeliveredTo(g, rank, v0, v, p, s, done')
      ensures Offered(old(told), told, Free(l), InputOffer(p, i, s, Free(l)))
      decreases budget, 1
    {
      hide DeliveredTo, Clear, Taken, Acyclic, Offered, Free;
      var q := g.peers[p][i];
      done' := done;
      NoOffer(told, Free(l));
      if q != p && !g.isOut[q] {
        ghost var w := v;
        if logic {
          MayPass(g, rank, v0, v, l, p, s, done, q);
        }
        UpdateInput(q, s, budget, logic);
        if logic {
          DeliverStep(g, rank, v0, w, v, p, s, done, q);
        }
        done' := done + {q};
      }
    }

    // hk_pad_update_input
    method UpdateInput(i: nat, s: string, ghost budget: nat, ghost logic: bool)
      requires Formed() && i < |g.isOut| && !g.isOut[i] && Free(l) <= budget
      requires logic ==> Acyclic(g, rank) && GatesOk(g, v) && Clear(g, rank, l, rank[g.owner[i]])
      modifies this
      ensures Formed() && l == old(l) && Kept(l, old(v), v, old(told), told)
      ensures logic ==> warnings == old(warnings) && Taken(g, rank, old(v), v, i, s)
      ensures Offered(old(told), told, Free(l), [ToInput(i, s, Free(l))])
      ensures old(l.ins[i]) ==> v == old(v) && warnings == old(warnings) + 1
      decreases budget, 0
    {
      hide Offered, Free, Kept, Taken, Clear, Acyclic, GatesOk;
      ghost var first := told + multiset{ToInput(i, s, Free(l))};
      KeptTold(l, v, first, told);
      if logic {
        ClearPad(g, rank, l, i);
      }
      told := first;
      NoOffer(told, Free(l));
      if l.ins[i] {
        warnings := warnings + 1;
      } else {
        LockPad(l, i);
        l := l.(ins := l.ins[i := true]);
        Input(i, s, budget - 1, logic);
        KeptPad(old(l), old(v), v, i, old(told), first, told);
        l := l.(ins := l.ins[i := false]);
        assert l.ins == old(l.ins);
      }
      OfferedFirst(old(told), told, ToInput(i, s, Free(l)));
    }

    // The input methods of the classes.
    method Input(i: nat, s: string, ghost budget: nat, ghost logic: bool)
      requires Formed() && i < |g.isOut| && !g.isOut[i] && Free(l) <= budget
      requires logic ==> Acyclic(g, rank) && GatesOk(g, v) && Clear(g, rank, l, rank[g.owner[i]] + 1)
      modifies this
      ensures Formed() && l == old(l) && Kept(l, old(v), v, old(told), told)
      ensures logic ==> warnings == old(warnings) && Taken(g, rank, old(v), v, i, s)
      ensures Offered(old(told), told, Free(l) + 1, [])
      decreases budget, 5
    {
      hide Offered, Free;
      NoOffer(told, Free(l) + 1);
      var k := g.owner[i];
      match g.objs[k].cls
      case Gate(_, _) =>
        v := v.(state := v.state[i := Truth(s)]);
        if logic {
          GateMayEvaluate(g, rank, old(v), i, Truth(s));
        }
        ghost var u := v;
        GateUpdate(k, budget, logic);
        if logic {
          GateTakes(g, rank, old(v), u, v, i, s);
        }
      case Source =>
        SourceUpdate(k, s, budget, logic);
        if logic {
          SourceTakes(g, rank, old(v), i, s);
        }
      case Sink =>
        // no input method
      case Custom =>
        CustomInput(k, budget);
    }

    // _update of the and/or classes
    method GateUpdate(k: nat, ghost budget: nat, ghost logic: bool)
      requires Formed() && k < |g.objs| && g.objs[k].cls.Gate? && Free(l) <= budget
      requires logic ==> Acyclic(g, rank) && Clear(g, rank, l, rank[k] + 1) && MayEvaluate(g, v, k)
      modifies this
      ensures Formed() && l == old(l) && Kept(l, old(v), v, old(told), told)
      ensures logic ==> warnings == old(warnings) && Evaluated(g, rank, old(v), v, k)
      ensures var p, on := g.objs[k].outs[0], Eval(g, old(v).state, k);
              if on == old(v).state[p] && !old(v).refresh[k]
              then v == old(v) && told == old(told) && warnings == old(warnings)
              else Offered(old(told), told, Free(l), OffersOf(p, if on then "1" else "0", Free(l)))
      ensures Offered(old(told), told, Free(l) + 1, [])
      decreases budget, 4
    {
      hide Offered, Free, MayEmit, Evaluated, Delivered, Clear, InputOffers;
      NoOffer(told, Free(l) + 1);
      var out := GateOutput(k);
      var p := g.objs[k].outs[0];
      if out != v.state[p] || v.refresh[k] {
        v := v.(refresh := v.refresh[k := false], state := v.state[p := out]);
        ghost var u := v;
        if logic {
          EmitIsAllowed(g, rank, old(v), u, k);
        }
        UpdateStr(p, Fmt(out), budget, logic);
        OffersAside(p, Fmt(out), Free(l), old(told));
        if logic {
          EvaluateEmit(g, rank, old(v), u, v, k);
        }
      } else if logic {
        EvaluateQuiet(g, rank, v, k);
      }
    }

    lemma OffersAside(p: nat, s: string, room: nat, a: multiset<Offer>)
      requires Formed() && p < |g.isOut| && Offered(a, told, room, OffersOf(p, s, room))
      ensures Offered(a, told, room + 1, [])
    {
      if g.net[p] != 0 {
        OffersHaveRoom(g, p, s, room, g.peers[p]);
      }
      OfferedAside(a, told, room, room + 1, OffersOf(p, s, room));
    }

    // The input scan of _update: it stops at the first connected input that decides the result.
    method GateOutput(k: nat) returns (out: bool)
      requires Formed() && k < |g.objs| && g.objs[k].cls.Gate?
      ensures out == Eval(g, v.state, k)
    {
      var d := g.objs[k];
      out := d.cls.conj;
      var i := 0;
      while i < |d.inputs|
        invariant 0 <= i <= |d.inputs| && out == d.cls.conj
        invariant forall j :: 0 <= j < i && d.inputs[j].Some? ==> v.state[d.inputs[j].value] == d.cls.conj
      {
        if d.inputs[i].Some? && v.state[d.inputs[i].value] != d.cls.conj {
          out := !out;
          break;
        }
        i := i + 1;
      }
      if d.cls.inv {
        out := !out;
      }
    }

    // hk_source_update
    method SourceUpdate(k: nat, s: string, ghost budget: nat, ghost logic: bool)
      requires Formed() && k < |g.objs| && Free(l) <= budget
      requires logic ==> g.objs[k].localSinks == [] && !l.ends[k]
      modifies this
      ensures Formed() && l == old(l) && Kept(l, old(v), v, old(told), told)
      ensures logic ==> warnings == old(warnings) && v == old(v).(end := old(v).end[k := s])
      ensures old(l.ends[k]) ==> v == old(v) && warnings == old(warnings) + 1
      ensures !old(l.ends[k]) ==>
                && v.end[k] == s && Free(l) > 0
                && Offered(old(told), told, Free(l) - 1, SinkOffers(s, Free(l) - 1, g.objs[k].localSinks))
      ensures Offered(old(told), told, Free(l) + 1, [])
      decreases budget, 4
    {
      hide Offered, Free, Kept;
      KeptSelf(l, v, told);
      NoOffer(told, Free(l) + 1);
      if l.ends[k] {
        warnings := warnings + 1;
        return;
      }
      v := v.(end := v.end[k := s]);
      LockEnd(l, k);
      l := l.(ends := l.ends[k := true]);
      ghost var u, t := v, told;
      TellSinks(k, s, budget - 1, logic);
      KeptEnd(old(l), old(v), v, k, s, t, t, told);
      SinkOffersHaveRoom(s, Free(l), g.objs[k].localSinks);
      OfferedAside(t, told, Free(l), Free(l) + 2, SinkOffers(s, Free(l), g.objs[k].localSinks));
      l := l.(ends := l.ends[k := false]);
      assert l.ends == old(l.ends);
    }

    // The loop of hk_source_update over the local sinks.
    method TellSinks(k: nat, s: string, ghost budget: nat, ghost logic: bool)
      requires Formed() && k < |g.objs| && Free(l) <= budget && (logic ==> g.objs[k].localSinks == [])
      modifies this
      ensures Formed() && l == old(l) && Kept(l, old(v), v, old(told), told)
      ensures logic ==> warnings == old(warnings) && v == old(v) && told == old(told)
      ensures Offered(old(told), told, Free(l), SinkOffers(s, Free(l), g.objs[k].localSinks))
      decreases budget, 5
    {
      hide Offered, Free, Kept;
      ghost var sinks := g.objs[k].localSinks;
      NoOffer(told, Free(l));
      KeptSelf(l, v, told);
      var i := 0;
      while i < |g.objs[k].localSinks|
        invariant 0 <= i <= |g.objs[k].localSinks|
        invariant Formed() && l == old(l) && Kept(l, old(v), v, old(told), told)
        invariant Offered(old(told), told, Free(l), SinkOffers(s, Free(l), sinks[..i]))
        invariant logic ==> warnings == old(warnings) && v == old(v) && told == old(told)
      {
        ghost var w, t := v, told;
        SinkUpdate(g.objs[k].localSinks[i], s, budget, false);
        KeptOn(l, l, old(v), w, v, old(told), t, told);
        assert sinks[..i + 1][..i] == sinks[..i];
        OfferedMore(old(told), t, told, Free(l), SinkOffers(s, Free(l), sinks[..i]), [ToSink(sinks[i], s, Free(l))]);
        i := i + 1;
      }
      assert sinks[..i] == sinks;
    }

    // hk_sink_update, with the handler of the sink class
    method SinkUpdate(k: nat, s: string, ghost budget: nat, ghost logic: bool)
      requires Formed() && k < |g.objs| && g.objs[k].cls.Sink? && Free(l) <= budget
      requires logic ==> Acyclic(g, rank) && GatesOk(g, v) && !l.ends[k] && Clear(g, rank, l, rank[k] + 1)
      modifies this
      ensures Formed() && l == old(l) && Kept(l, old(v), v, old(told), told)
      ensures logic ==> warnings == old(warnings)
                        && Delivered(g, rank, old(v).(end := old(v).end[k := s]), v, g.objs[k].outs[0], s)
      ensures Offered(old(told), told, Free(l), [ToSink(k, s, Free(l))])
      ensures old(l.ends[k]) ==> v == old(v) && warnings == old(warnings) + 1
      ensures !old(l.ends[k]) ==>
                && v.end[k] == s && Free(l) > 0
                && Offered(old(told), told, Free(l) - 1,
                           [ToSink(k, s, Free(l))] + OffersOf(g.objs[k].outs[0], s, Free(l) - 1))
      decreases budget, 4
    {
      hide Offered, Delivered, Free, InputOffers, Kept, MayEmit, GatesOk, Clear;
      KeptSelf(l, v, told);
      told := told + multiset{ToSink(k, s, Free(l))};
      NoOffer(told, Free(l));
      OfferedFirst(old(told), told, ToSink(k, s, Free(l)));
      KeptTold(l, v, told, old(told));
      ghost var first, room := told, Free(l);
      if l.ends[k] {
        warnings := warnings + 1;
        return;
      }
      v := v.(end := v.end[k := s]);
      LockEnd(l, k);
      l := l.(ends := l.ends[k := true]);
      if logic {
        SinkMayEmit(g, rank, old(v), k, s);
        ClearSink(g, rank, old(l), rank[k] + 1, k);
      }
      UpdateStr(g.objs[k].outs[0], v.end[k], budget - 1, logic);
      KeptEnd(old(l), old(v), v, k, s, old(told), first, told);
      SinkOffered(k, s, room, old(told));
      l := l.(ends := l.ends[k := false]);
      assert l.ends == old(l.ends);
    }

    lemma SinkOffered(k: nat, s: string, room: nat, a: multiset<Offer>)
      requires Formed() && k < |g.objs| && g.objs[k].cls.Sink? && room > 0
      requires Offered(a + multiset{ToSink(k, s, room)}, told, room - 1, OffersOf(g.objs[k].outs[0], s, room - 1))
      ensures Offered(a, told, room - 1, [ToSink(k, s, room)] + OffersOf(g.objs[k].outs[0], s, room - 1))
      ensures Offered(a, told, room, [ToSink(k, s, room)])
    {
      hide Offered;
      ThenOffered(a, told, ToSink(k, s, room), OffersOf(g.objs[k].outs[0], s, room - 1));
      OffersAside(g.objs[k].outs[0], s, room - 1, a + multiset{ToSink(k, s, room)});
      OfferedFirst(a, told, ToSink(k, s, room));
    }

    // A class this model does not describe: any finite number of updates of any of the object's
    // own OUT pads, with any values, and any change to those pads' states.
    method CustomInput(k: nat, ghost budget: nat)
      requires Formed() && k < |g.objs| && Free(l) <= budget
      modifies this
      ensures Formed() && l == old(l) && Kept(l, old(v), v, old(told), told)
      ensures Offered(old(told), told, Free(l) + 1, [])
      decreases budget, 4
    {
      hide Offered, Free, Kept;
      NoOffer(told, Free(l) + 1);
      KeptSelf(l, v, told);
      var n: nat := *;
      while n > 0
        invariant Formed() && l == old(l) && Kept(l, old(v), v, old(told), told)
        invariant Offered(old(told), told, Free(l) + 1, [])
      {
        var j: nat, s: string, b: bool := *, *, *;
        if j < |g.objs[k].outs| {
          ghost var w, t := v, told;
          v := v.(state := v.state[g.objs[k].outs[j] := b]);
          UpdateStr(g.objs[k].outs[j], s, budget, false);
          OffersAside(g.objs[k].outs[j], s, Free(l), t);
          ghost var none: seq<Offer> := [];
          OfferedMore(old(told), t, told, Free(l) + 1, none, none);
          assert none + none == none;
          KeptState(l, w, v, g.objs[k].outs[j], b, t, told);
          KeptOn(l, l, old(v), w, v, old(told), t, told);
        }
        n := n - 1;
      }
    }

    // ------------------------------------------------------------ whole tile

    ghost predicate Idle()
      reads this
    {
      && Formed() && Acyclic(g, rank)
      && (forall q :: 0 <= q < |g.isOut| ==> !l.ins[q])
      && (forall k :: 0 <= k < |g.objs| ==> !l.ends[k])
    }

    // An external output is driven while the tile is settled: it is settled again on return,
    // and no update was refused because of a lock.
    method Drive(k: nat, s: string)
      requires Idle() && Settled(g, v) && k < |g.objs| && g.objs[k].cls.Sink?
      modifies this
      ensures Idle() && Settled(g, v) && warnings == old(warnings)
      ensures v.value[g.objs[k].outs[0]] == s && Free(l) > 0
      ensures Offered(old(told), told, Free(l) - 1, [ToSink(k, s, Free(l))] + OffersOf(g.objs[k].outs[0], s, Free(l) - 1))
    {
      SinkUpdate(k, s, Free(l), true);
      DeliveryKeepsSettled(g, rank, old(v), v, k, s);
    }

    // The start pass of hk_tile_start. It settles every tile whose used-up gates and whose
    // connections were right before it, in particular one without presets (BlankIsReady).
    method Start()
      requires Idle() && GatesOk(g, v) && EdgesOk(g, v)
      modifies this
      ensures Idle() && Settled(g, v) && warnings == old(warnings)
    {
      var k := 0;
      while k < |g.objs|
        invariant 0 <= k <= |g.objs| && Idle() && GatesOk(g, v) && EdgesOk(g, v)
        invariant forall j :: 0 <= j < k && g.objs[j].cls.Gate? ==> !v.refresh[j]
        invariant warnings == old(warnings)
      {
        StartObj(k);
        k := k + 1;
      }
    }

    // The start method of one object. A sink publishes the value its OUT pad already has, if any.
    method StartObj(k: nat)
      requires Idle() && GatesOk(g, v) && EdgesOk(g, v) && k < |g.objs|
      modifies this
      ensures Idle() && GatesOk(g, v) && EdgesOk(g, v) && warnings == old(warnings)
      ensures forall j :: 0 <= j < |g.objs| && v.refresh[j] ==> old(v).refresh[j] && (j == k ==> !g.objs[k].cls.Gate?)
    {
      if g.objs[k].cls.Gate? {
        assert GateOk(g, v, k);
        GateUpdate(k, Free(l), true);
      } else if g.objs[k].cls.Sink? {
        var hasValue: bool := *;
        if hasValue {
          var s := v.value[g.objs[k].outs[0]];
          SinkUpdate(k, s, Free(l), true);
          DeliveryKeepsSettled(g, rank, old(v), v, k, s);
        }
      }
    }
  }
}
