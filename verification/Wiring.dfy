// Pads, nets and wiring of one tile (core/mod.c).
//
// Pads are identified by their position in the tile's pad table, so that wiring can be
// described on plain values: the label of a pad is the id of its net, or 0 when the pad
// is not connected.
module Wiring {
  import opened Wrappers

  datatype Dir = In | Out | InOut

  // The part of a pad that wiring concerns; what propagation changes is kept by the engine.
  class Pad {
    const dir: Dir
    const pos: nat           // position in the pad table, standing for the pad's address
    const obj: nat           // position of the owning object in the object table
    var net: Net?

    constructor (dir: Dir, pos: nat, obj: nat)
      ensures this.dir == dir && this.pos == pos && this.obj == obj && net == null
    {
      this.dir, this.pos, this.obj, net := dir, pos, obj, null;
    }
  }

  class Net {
    var id: nat
    var pads: seq<Pad>

    constructor (id: nat)
      ensures this.id == id && pads == []
    {
      this.id, pads := id, [];
    }
  }

  function NetId(p: Pad): nat
    reads p, p.net
  {
    if p.net == null then 0 else p.net.id
  }

  // ---------------------------------------------------------------- label view

  // Two pads share a net, or are the same pad.
  predicate Same(labels: seq<nat>, p: nat, q: nat)
    requires p < |labels| && q < |labels|
  {
    p == q || labels[p] == labels[q] != 0
  }

  // One step of a path: an initial connection, or a link taken in either direction.
  predicate Step(labels: seq<nat>, links: seq<(nat, nat)>, p: nat, q: nat)
    requires p < |labels| && q < |labels|
  {
    Same(labels, p, q) || (p, q) in links || (q, p) in links
  }

  predicate IsPath(labels: seq<nat>, links: seq<(nat, nat)>, path: seq<nat>, p: nat, q: nat) {
    && |path| > 0 && path[0] == p && path[|path| - 1] == q
    && (forall k :: 0 <= k < |path| ==> path[k] < |labels|)
    && (forall k :: 0 < k < |path| ==> Step(labels, links, path[k - 1], path[k]))
  }

  // The equivalence closure of the initial wiring and the links.
  ghost predicate Connected(labels: seq<nat>, links: seq<(nat, nat)>, p: nat, q: nat) {
    exists path: seq<nat> :: IsPath(labels, links, path, p, q)
  }

  ghost predicate InRange(n: nat, links: seq<(nat, nat)>) {
    forall l :: l in links ==> l.0 < n && l.1 < n
  }

  lemma PathIsConnected(labels: seq<nat>, links: seq<(nat, nat)>, path: seq<nat>, p: nat, q: nat)
    requires IsPath(labels, links, path, p, q)
    ensures Connected(labels, links, p, q)
  {
  }

  lemma ConnectedJoin(labels: seq<nat>, links: seq<(nat, nat)>, p: nat, q: nat, r: nat)
    requires Connected(labels, links, p, q) && Connected(labels, links, q, r)
    ensures Connected(labels, links, p, r)
  {
    var a :| IsPath(labels, links, a, p, q);
    var b :| IsPath(labels, links, b, q, r);
    PathIsConnected(labels, links, a + b[1..], p, r);
  }

  lemma ConnectedStep(labels: seq<nat>, links: seq<(nat, nat)>, p: nat, q: nat)
    requires p < |labels| && q < |labels| && Step(labels, links, p, q)
    ensures Connected(labels, links, p, q)
  {
    PathIsConnected(labels, links, [p, q], p, q);
  }

  lemma ConnectedGrows(labels: seq<nat>, links: seq<(nat, nat)>, more: seq<(nat, nat)>, p: nat, q: nat)
    requires Connected(labels, links, p, q)
    ensures Connected(labels, links + more, p, q)
  {
    var a :| IsPath(labels, links, a, p, q);
    PathIsConnected(labels, links + more, a, p, q);
  }

  // With no links, being connected is sharing a net.
  lemma {:induction false} NoLinks(labels: seq<nat>, path: seq<nat>, p: nat, q: nat)
    requires IsPath(labels, [], path, p, q)
    ensures Same(labels, p, q)
    decreases |path|
  {
    if |path| > 1 {
      NoLinks(labels, path[..|path| - 1], p, path[|path| - 2]);
      assert Step(labels, [], path[|path| - 2], path[|path| - 1]);
    }
  }

  lemma NoLinksIff(labels: seq<nat>, p: nat, q: nat)
    requires p < |labels| && q < |labels|
    ensures Same(labels, p, q) <==> Connected(labels, [], p, q)
  {
    if Same(labels, p, q) {
      ConnectedStep(labels, [], p, q);
    }
    if Connected(labels, [], p, q) {
      var path :| IsPath(labels, [], path, p, q);
      NoLinks(labels, path, p, q);
    }
  }

  // What one more link (a, b) adds to the closure.
  ghost predicate Joined(labels: seq<nat>, links: seq<(nat, nat)>, a: nat, b: nat, p: nat, q: nat) {
    || Connected(labels, links, p, q)
    || (Connected(labels, links, p, a) && Connected(labels, links, b, q))
    || (Connected(labels, links, p, b) && Connected(labels, links, a, q))
  }

  lemma {:induction false} AddLinkPath(labels: seq<nat>, links: seq<(nat, nat)>, a: nat, b: nat,
                                       path: seq<nat>, p: nat, q: nat)
    requires a < |labels| && b < |labels|
    requires IsPath(labels, links + [(a, b)], path, p, q)
    ensures Joined(labels, links, a, b, p, q)
    decreases |path|
  {
    if |path| == 1 {
      PathIsConnected(labels, links, path, p, q);
    } else {
      var m := path[|path| - 2];
      AddLinkPath(labels, links, a, b, path[..|path| - 1], p, m);
      assert Step(labels, links + [(a, b)], m, q);
      ConnectedStep(labels, links, a, a);
      ConnectedStep(labels, links, b, b);
      if Step(labels, links, m, q) {
        ConnectedStep(labels, links, m, q);
        forall x | Connected(labels, links, x, m) ensures Connected(labels, links, x, q) {
          ConnectedJoin(labels, links, x, m, q);
        }
      }
    }
  }

  lemma AddLink(labels: seq<nat>, links: seq<(nat, nat)>, a: nat, b: nat, p: nat, q: nat)
    requires a < |labels| && b < |labels|
    ensures Connected(labels, links + [(a, b)], p, q) <==> Joined(labels, links, a, b, p, q)
  {
    var links' := links + [(a, b)];
    if Connected(labels, links', p, q) {
      var path :| IsPath(labels, links', path, p, q);
      AddLinkPath(labels, links, a, b, path, p, q);
    }
    if Joined(labels, links, a, b, p, q) {
      assert links'[|links|] == (a, b);
      ConnectedStep(labels, links', a, b);
      ConnectedStep(labels, links', b, a);
      forall x, y | Connected(labels, links, x, y) ensures Connected(labels, links', x, y) {
        ConnectedGrows(labels, links, [(a, b)], x, y);
      }
      if Connected(labels, links, p, a) && Connected(labels, links, b, q) {
        ConnectedJoin(labels, links', p, a, b);
        ConnectedJoin(labels, links', p, b, q);
      } else if Connected(labels, links, p, b) && Connected(labels, links, a, q) {
        ConnectedJoin(labels, links', p, b, a);
        ConnectedJoin(labels, links', p, a, q);
      }
    }
  }

  // `labels` is the wiring that the initial wiring and the links call for, no more, no less.
  ghost predicate IsClosure(initial: seq<nat>, links: seq<(nat, nat)>, labels: seq<nat>) {
    && |labels| == |initial|
    && forall p, q :: 0 <= p < |initial| && 0 <= q < |initial| ==>
         (Same(labels, p, q) <==> Connected(initial, links, p, q))
  }

  ghost predicate LinkEffect(before: seq<nat>, after: seq<nat>, a: nat, b: nat)
    requires |before| == |after| && a < |before| && b < |before|
  {
    forall p, q :: 0 <= p < |before| && 0 <= q < |before| ==>
      (Same(after, p, q) <==>
        || Same(before, p, q)
        || (Same(before, p, a) && Same(before, b, q))
        || (Same(before, p, b) && Same(before, a, q)))
  }

  lemma ClosureStep(initial: seq<nat>, links: seq<(nat, nat)>, before: seq<nat>, after: seq<nat>, a: nat, b: nat)
    requires IsClosure(initial, links, before)
    requires |after| == |before| && a < |before| && b < |before| && LinkEffect(before, after, a, b)
    ensures IsClosure(initial, links + [(a, b)], after)
  {
    forall p, q | 0 <= p < |initial| && 0 <= q < |initial|
      ensures Same(after, p, q) <==> Connected(initial, links + [(a, b)], p, q)
    {
      AddLink(initial, links, a, b, p, q);
    }
  }

  lemma ClosureStart(initial: seq<nat>)
    ensures IsClosure(initial, [], initial)
  {
    forall p, q | 0 <= p < |initial| && 0 <= q < |initial|
      ensures Same(initial, p, q) <==> Connected(initial, [], p, q)
    {
      NoLinksIff(initial, p, q);
    }
  }

  // The links whose target resolved.
  ghost function Resolved(links: seq<(nat, Option<nat>)>): seq<(nat, nat)> {
    if links == [] then []
    else
      var l := links[|links| - 1];
      Resolved(links[..|links| - 1]) + if l.1.Some? then [(l.0, l.1.value)] else []
  }

  lemma ResolvedStep(links: seq<(nat, Option<nat>)>, i: nat)
    requires i < |links|
    ensures links[i].1 == None ==> Resolved(links[..i + 1]) == Resolved(links[..i])
    ensures links[i].1.Some? ==> Resolved(links[..i + 1]) == Resolved(links[..i]) + [(links[i].0, links[i].1.value)]
  {
    assert links[..i + 1][..i] == links[..i];
  }

  // ---------------------------------------------------------------- how one link acts

  predicate SameNet(nets: seq<Net?>, p: nat, q: nat)
    requires p < |nets| && q < |nets|
  {
    p == q || (nets[p] != null && nets[p] == nets[q])
  }

  // The pads sharing a net after are those that did before, plus those joined through (a, b).
  ghost predicate JoinedBy(before: seq<Net?>, after: seq<Net?>, a: nat, b: nat)
    requires |before| == |after| && a < |before| && b < |before|
  {
    forall p, q :: 0 <= p < |before| && 0 <= q < |before| ==>
      (SameNet(after, p, q) <==>
        || SameNet(before, p, q)
        || (SameNet(before, p, a) && SameNet(before, b, q))
        || (SameNet(before, p, b) && SameNet(before, a, q)))
  }

  lemma MergeJoins(before: seq<Net?>, after: seq<Net?>, a: nat, b: nat)
    requires |before| == |after| && a < |before| && b < |before|
    requires before[a] != null && before[b] != null
    requires forall k :: 0 <= k < |before| ==>
      after[k] == if before[k] == before[b] then before[a] else before[k]
    ensures JoinedBy(before, after, a, b)
  {
  }

  lemma AttachJoins(before: seq<Net?>, after: seq<Net?>, a: nat, b: nat)
    requires |before| == |after| && a < |before| && b < |before|
    requires before[a] != null && before[b] == null && after == before[b := before[a]]
    ensures JoinedBy(before, after, a, b) && JoinedBy(before, after, b, a)
  {
  }

  lemma CreateJoins(before: seq<Net?>, after: seq<Net?>, a: nat, b: nat, net: Net)
    requires |before| == |after| && a < |before| && b < |before|
    requires before[a] == null && before[b] == null && net !in before
    requires forall k :: 0 <= k < |before| ==> after[k] == if k == a || k == b then net else before[k]
    ensures JoinedBy(before, after, a, b)
  {
  }

  // ---------------------------------------------------------------- the tile

  class Tile {
    const pads: seq<Pad>     // every pad of every object, in creation order
    var nets: seq<Net>       // a recycled net is pushed again, so entries may repeat

    ghost predicate IsFirst(n: Net, i: nat)
      reads this`nets
    {
      i < |nets| && nets[i] == n && forall j :: 0 <= j < i ==> nets[j] != n
    }

    // Each pad appears exactly once, in exactly the net its own field names; a free net is
    // empty; a live net carries the number of its first table entry.
    ghost predicate Valid()
      reads this`nets, pads`net, nets
    {
      && (forall i, j :: 0 <= i < j < |pads| ==> pads[i] != pads[j])
      && (forall p :: p in pads && p.net != null ==> p.net in nets && p.net.id != 0 && p in p.net.pads)
      && (forall n :: n in nets && n.id == 0 ==> n.pads == [])
      && (forall n :: n in nets && n.id != 0 ==> IsFirst(n, n.id - 1))
      && (forall n, k :: n in nets && 0 <= k < |n.pads| ==> n.pads[k] in pads && n.pads[k].net == n)
      && (forall n, k, l :: n in nets && 0 <= k < l < |n.pads| ==> n.pads[k] != n.pads[l])
    }

    ghost function Labels(): (r: seq<nat>)
      reads pads, set p | p in pads && p.net != null :: p.net
      ensures |r| == |pads| && forall k :: 0 <= k < |pads| ==> r[k] == NetId(pads[k])
    {
      seq(|pads|, k requires 0 <= k < |pads| reads pads, set p | p in pads && p.net != null :: p.net =>
        NetId(pads[k]))
    }

    constructor (pads: seq<Pad>)
      requires forall i, j :: 0 <= i < j < |pads| ==> pads[i] != pads[j]
      requires forall p :: p in pads ==> p.net == null
      ensures this.pads == pads && Valid() && nets == []
    {
      this.pads := pads;
      nets := [];
    }

    // The search of hk_net_create.
    method FirstFree() returns (i: nat)
      ensures i <= |nets| && (i < |nets| ==> nets[i].id == 0) && forall j :: 0 <= j < i ==> nets[j].id != 0
    {
      i := 0;
      while i < |nets| && nets[i].id != 0
        invariant 0 <= i <= |nets|
        invariant forall j :: 0 <= j < i ==> nets[j].id != 0
      {
        i := i + 1;
      }
    }

    // Pushing an entry keeps which entries come first; a new net comes first at the end.
    lemma FirstKept(before: seq<Net>, net: Net)
      requires nets == before + [net]
      ensures forall n, i: nat :: i < |before| && before[i] == n && (forall j :: 0 <= j < i ==> before[j] != n) ==> IsFirst(n, i)
      ensures net !in before ==> IsFirst(net, |before|)
    {
    }

    // hk_net_create: reuse the first free entry, else allocate; push it in both cases.
    method NetCreate() returns (net: Net)
      requires Valid()
      modifies this`nets, nets`id
      ensures Valid() && nets == old(nets) + [net]
      ensures net.id != 0 && net.pads == []
      ensures fresh(net) || (net in old(nets) && old(net.id) == 0)
      ensures forall n :: n in old(nets) && n != net ==> n.id == old(n.id)
    {
      ghost var before := nets;
      var i := FirstFree();
      if i < |nets| {
        net := nets[i];
        net.id := i + 1;
      } else {
        net := new Net(|nets| + 1);
      }
      nets := nets + [net];
      FirstKept(before, net);
      assert IsFirst(net, net.id - 1);
      forall n | n in nets && n.id != 0 ensures IsFirst(n, n.id - 1) {
        assert n != net ==> old(IsFirst(n, n.id - 1));
      }
    }

    // hk_net_connect
    method NetConnect(net: Net, pad: Pad) returns (ok: bool)
      modifies net`pads, pad`net
      ensures ok == (old(pad.net) == null)
      ensures pad.net == if ok then net else old(pad.net)
      ensures net.pads == if ok then old(net.pads) + [pad] else old(net.pads)
    {
      if pad.net != null {
        return false;
      }
      net.pads := net.pads + [pad];
      pad.net := net;
      return true;
    }

    // hk_net_connect on a consistent tile and a live net.
    method Attach(net: Net, pad: Pad) returns (ok: bool)
      requires Valid() && net in nets && net.id != 0 && pad in pads
      modifies net`pads, pad`net
      ensures Valid() && ok == (old(pad.net) == null)
      ensures pad.net == if ok then net else old(pad.net)
      ensures net.pads == if ok then old(net.pads) + [pad] else old(net.pads)
    {
      ok := NetConnect(net, pad);
    }

    // The loop of hk_net_merge: pads still listed by net2 are reconnected one by one.
    method MovePads(net1: Net, net2: Net)
      requires net1 != net2
      modifies net1`pads, net2.pads`net
      ensures net1.pads == old(net1.pads) + net2.pads
      ensures forall k :: 0 <= k < |net2.pads| ==> net2.pads[k].net == net1
    {
      var i := 0;
      while i < |net2.pads|
        invariant 0 <= i <= |net2.pads|
        invariant net1.pads == old(net1.pads) + net2.pads[..i]
        invariant forall k :: 0 <= k < i ==> net2.pads[k].net == net1
      {
        var pad2 := net2.pads[i];
        pad2.net := null;
        var _ := NetConnect(net1, pad2);
        i := i + 1;
      }
    }

    // hk_net_merge
    method NetMerge(net1: Net, net2: Net)
      requires Valid() && net1 in nets && net2 in nets && net1.id != 0 && net2.id != 0
      modifies net1`pads, net2`id, net2`pads, net2.pads`net
      ensures Valid()
      ensures net1 == net2 ==> net1.pads == old(net1.pads) && net1.id == old(net1.id)
                               && forall p :: p in pads ==> p.net == old(p.net)
      ensures net1 != net2 ==>
                && net1.pads == old(net1.pads) + old(net2.pads)
                && net2.id == 0 && net2.pads == []
                && forall p :: p in pads ==> p.net == if old(p.net) == net2 then net1 else old(p.net)
    {
      if net1 == net2 {
        return;
      }
      MovePads(net1, net2);
      assert forall p :: p in pads && old(p.net) == net2 ==> p in net2.pads;
      net2.id := 0;
      net2.pads := [];
    }

    ghost function NetTable(): (r: seq<Net?>)
      reads pads
      ensures |r| == |pads| && forall k :: 0 <= k < |pads| ==> r[k] == pads[k].net
    {
      seq(|pads|, k requires 0 <= k < |pads| reads pads => pads[k].net)
    }

    // Live ids are unique, so the labels tell exactly which pads share a net.
    lemma LabelsAreNets(p: nat, q: nat)
      requires Valid() && p < |pads| && q < |pads|
      ensures Same(Labels(), p, q) <==> SameNet(NetTable(), p, q)
    {
      var m, n := pads[p].net, pads[q].net;
      assert pads[p] in pads && pads[q] in pads;
      if m != null && n != null && m.id == n.id {
        assert IsFirst(m, m.id - 1) && IsFirst(n, n.id - 1);
      }
    }

    // hk_obj_net when neither pad has a net yet.
    method ConnectNew(a: nat, b: nat)
      requires Valid() && a < |pads| && b < |pads| && pads[a].net == null && pads[b].net == null
      modifies this`nets, nets`id, nets`pads, pads`net
      ensures Valid()
      ensures forall n :: n in nets ==> n in old(nets) || fresh(n)
      ensures JoinedBy(old(NetTable()), NetTable(), a, b)
    {
      ghost var before := NetTable();
      var net := NetCreate();
      assert net !in before;
      var _ := Attach(net, pads[a]);
      var _ := Attach(net, pads[b]);
      CreateJoins(before, NetTable(), a, b, net);
    }

    // The four cases of hk_obj_net once both pads are known.
    method Join(a: nat, b: nat)
      requires Valid() && a < |pads| && b < |pads|
      modifies this`nets, nets`id, nets`pads, pads`net
      ensures Valid()
      ensures forall n :: n in nets ==> n in old(nets) || fresh(n)
      ensures JoinedBy(old(NetTable()), NetTable(), a, b)
    {
      ghost var before := NetTable();
      var pad1, pad2 := pads[a], pads[b];
      if pad1.net != null {
        if pad2.net != null {
          NetMerge(pad1.net, pad2.net);
          MergeJoins(before, NetTable(), a, b);
        } else {
          var _ := Attach(pad1.net, pad2);
          AttachJoins(before, NetTable(), a, b);
        }
      } else {
        if pad2.net != null {
          var _ := Attach(pad2.net, pad1);
          AttachJoins(before, NetTable(), b, a);
        } else {
          ConnectNew(a, b);
        }
      }
    }

    // hk_obj_net: pads[a] is the pad being set up; the target is None when the reference
    // does not resolve to a pad of this tile.
    method ObjNet(a: nat, target: Option<nat>) returns (ok: bool)
      requires Valid() && a < |pads| && (target.Some? ==> target.value < |pads|)
      modifies this`nets, nets`id, nets`pads, pads`net
      ensures Valid() && ok == target.Some?
      ensures forall n :: n in nets ==> n in old(nets) || fresh(n)
      ensures !ok ==> Labels() == old(Labels()) && nets == old(nets)
      ensures ok ==> LinkEffect(old(Labels()), Labels(), a, target.value)
    {
      if target == None {
        return false;
      }
      forall p, q | 0 <= p < |pads| && 0 <= q < |pads|
        ensures Same(Labels(), p, q) <==> SameNet(NetTable(), p, q)
      {
        LabelsAreNets(p, q);
      }
      Join(a, target.value);
      forall p, q | 0 <= p < |pads| && 0 <= q < |pads|
        ensures Same(Labels(), p, q) <==> SameNet(NetTable(), p, q)
      {
        LabelsAreNets(p, q);
      }
      return true;
    }

    // The net references of the setup pass, in order; references that do not resolve change
    // nothing. The resulting wiring is the equivalence closure of what was there and the links.
    method LinkAll(links: seq<(nat, Option<nat>)>)
      requires Valid()
      requires forall l :: l in links ==> l.0 < |pads| && (l.1.Some? ==> l.1.value < |pads|)
      modifies this`nets, nets`id, nets`pads, pads`net
      ensures Valid()
      ensures IsClosure(old(Labels()), Resolved(links), Labels())
    {
      ghost var initial, done := Labels(), [];
      ClosureStart(initial);
      var i := 0;
      while i < |links|
        invariant 0 <= i <= |links| && Valid()
        invariant forall n :: n in nets ==> n in old(nets) || fresh(n)
        invariant done == Resolved(links[..i]) && IsClosure(initial, done, Labels())
      {
        ghost var before := Labels();
        ResolvedStep(links, i);
        assert links[i] in links;
        assert forall k :: 0 <= k < |nets| ==> nets[k] in nets;
        var ok := ObjNet(links[i].0, links[i].1);
        if ok {
          ClosureStep(initial, done, before, Labels(), links[i].0, links[i].1.value);
          done := done + [(links[i].0, links[i].1.value)];
        }
        i := i + 1;
      }
      assert links[..i] == links;
    }
  }
}
