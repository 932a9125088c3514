// The source table of the event loop (os/linux/sys.c) on plain values: what requests do to it,
// which timers it leaves due, and what a loop may claim to have served.
module EventTable {
  import opened Wrappers

  const NSOURCES: nat := 256
  const TAGS: nat := 0x1_0000_0000   // sys_tag_t is a 32-bit unsigned integer

  datatype Kind = Empty | Timeout | Io | Child | Quit | Removed

  // What poll reported: `input` for any of the bits that wake the read callback.
  datatype Ready = Ready(input: bool, output: bool)

  datatype Slot = Slot(tag: nat, func: bool, wfunc: bool, kind: Kind,
                       fd: int, wantOut: bool, ready: Ready, poll: bool,
                       delay: nat, t: nat, pid: int)

  const NONE := Ready(false, false)
  const CLEAR := Slot(0, false, false, Empty, 0, false, NONE, false, 0, 0, 0)

  // What a program can ask of the loop. A time stamp is read `dt` milliseconds after the last one.
  datatype Action =
    | Remove(tag: nat)
    | RemoveFd(fd: int)
    | Watch(fd: int)
    | Poll(fd: int, out: bool)
    | WriteHandler(tag: nat, on: bool)
    | AddTimeout(delay: nat, dt: nat)
    | AddChild(pid: int)
    | AddQuit
    | RequestQuit

  // One callback run: any finite list of actions, and the value it returns.
  datatype Script = Script(acts: seq<Action>, ret: int)

  // A callback that asks for nothing and goes on.
  const QUIET := Script([], 1)

  // One callback run as it happened; `late` when its source had been removed before.
  datatype Call = Call(tag: nat, kind: Kind, write: bool, fd: int, ready: Ready, late: bool)

  predicate Live(k: Kind) {
    k != Empty && k != Removed
  }

  // Two slots hold different sources, watching different descriptors.
  ghost predicate Apart(x: Slot, y: Slot) {
    && (x.tag == y.tag ==> x.tag == 0)
    && (x.kind == Io && y.kind == Io ==> x.fd != y.fd)
  }

  // Tags in use are distinct and below the registration count; a live slot has a callback; a slot awaits removal iff its tag
  // is dead; a descriptor is watched by one live slot at most.
  ghost predicate Inv(s: seq<Slot>, regs: nat, dead: set<nat>) {
    && (forall i :: 0 <= i < |s| ==> s[i].tag <= regs)
    && (forall i, j {:trigger Apart(s[i], s[j])} :: 0 <= i < j < |s| ==> Apart(s[i], s[j]))
    && (forall i :: 0 <= i < |s| && Live(s[i].kind) ==> s[i].tag != 0 && s[i].func)
    && (forall i :: 0 <= i < |s| && s[i].tag != 0 ==> (s[i].kind == Removed <==> s[i].tag in dead))
    && (forall d :: d in dead ==> 0 < d <= regs)
  }

  // Live slots have a tag.
  ghost predicate Tagged(s: seq<Slot>) {
    forall j :: 0 <= j < |s| && Live(s[j].kind) ==> s[j].tag != 0
  }

  lemma InvTagged(s: seq<Slot>, regs: nat, dead: set<nat>)
    ensures Inv(s, regs, dead) ==> Tagged(s)
  {
  }

  // A slot in use keeps its source: it stays as it is, or awaits removal.
  ghost predicate Keeps(x: Slot, y: Slot) {
    x.tag != 0 ==>
      && y.tag == x.tag && y.fd == x.fd && y.pid == x.pid && y.t == x.t && y.delay == x.delay
      && (y.kind == x.kind || y.kind == Removed)
      && (y.ready == x.ready || y.ready == NONE)
  }

  lemma KeepsOn(x: Slot, m: Slot, y: Slot)
    requires Keeps(x, m) && Keeps(m, y)
    ensures Keeps(x, y)
  {
  }

  lemma KeepsSelf(s: seq<Slot>)
    ensures forall j :: 0 <= j < |s| ==> Keeps(s[j], s[j])
  {
  }

  // ---------------------------------------------------------------- what an action does

  // The first slot of that tag, from k on; |s| when there is none. Tag 0 marks free slots.
  function FirstTag(s: seq<Slot>, tag: nat, k: nat := 0): (i: nat)
    requires k <= |s|
    ensures k <= i <= |s| && (i < |s| ==> s[i].tag == tag) && forall j :: k <= j < i ==> s[j].tag != tag
    decreases |s| - k
  {
    if k == |s| || s[k].tag == tag then k else FirstTag(s, tag, k + 1)
  }

  // The first slot that watches fd.
  function FirstFd(s: seq<Slot>, fd: int, k: nat := 0): (i: nat)
    requires k <= |s|
    ensures k <= i <= |s| && (i < |s| ==> s[i].kind == Io && s[i].fd == fd)
    ensures forall j :: k <= j < i && s[j].kind == Io ==> s[j].fd != fd
    decreases |s| - k
  {
    if k == |s| || (s[k].kind == Io && s[k].fd == fd) then k else FirstFd(s, fd, k + 1)
  }

  lemma FirstFdIs(s: seq<Slot>, i: nat, regs: nat, dead: set<nat>)
    requires Inv(s, regs, dead) && i < |s| && s[i].kind == Io
    ensures FirstFd(s, s[i].fd) == i
  {
    var j := FirstFd(s, s[i].fd);
    assert j < i ==> Apart(s[j], s[i]);
  }

  lemma FirstTagIs(s: seq<Slot>, i: nat, regs: nat, dead: set<nat>)
    requires Inv(s, regs, dead) && i < |s| && s[i].tag != 0
    ensures FirstTag(s, s[i].tag) == i
  {
    var j := FirstTag(s, s[i].tag);
    assert j < i ==> Apart(s[j], s[i]);
  }

  lemma FirstTagStays(s: seq<Slot>, i: nat, x: Slot, tag: nat)
    requires FirstTag(s, tag) == i < |s| && x.tag == tag
    ensures FirstTag(s[i := x], tag) == i
  {
    var j := FirstTag(s[i := x], tag);
    assert s[i := x][i].tag == tag;
    assert forall k :: 0 <= k < i ==> s[i := x][k] == s[k];
  }

  datatype World = World(table: seq<Slot>, lastTag: nat, clock: nat, quit: bool)

  function Set(w: World, i: nat, x: Slot): World {
    if i < |w.table| then w.(table := w.table[i := x]) else w
  }

  // A new source takes the first free slot, if any, and the next tag.
  function Adding(w: World, x: Slot): World {
    var i, tag := FirstTag(w.table, 0), (w.lastTag + 1) % TAGS;
    if i == |w.table| then w else Set(w.(lastTag := tag), i, x.(tag := tag, func := true))
  }

  // A descriptor already watched keeps its slot and its callbacks.
  function Watching(w: World, fd: int, poll: bool, out: bool): World {
    var i := FirstFd(w.table, fd);
    if i < |w.table| then Set(w, i, w.table[i].(wantOut := out, ready := NONE, poll := poll))
    else Adding(w, CLEAR.(kind := Io, fd := fd, wantOut := out, poll := poll))
  }

  function Act(a: Action, w: World): World {
    match a
    case Remove(tag) =>
      var i := FirstTag(w.table, tag);
      if i == |w.table| then w else Set(w, i, w.table[i].(kind := Removed, func := false, wfunc := false))
    case RemoveFd(fd) =>
      var i := FirstFd(w.table, fd);
      if i == |w.table| then w else Set(w, i, w.table[i].(kind := Removed, func := false))
    case Watch(fd) => Watching(w, fd, false, false)
    case Poll(fd, out) => Watching(w, fd, true, out)
    case WriteHandler(tag, on) =>
      var i := FirstTag(w.table, tag);
      if i < |w.table| && w.table[i].kind in {Io, Removed, Empty}
      then Set(w, i, w.table[i].(wantOut := on, wfunc := on)) else w
    case AddTimeout(delay, dt) =>
      Adding(w.(clock := w.clock + dt), CLEAR.(kind := Timeout, delay := delay, t := delay + w.clock + dt))
    case AddChild(pid) => Adding(w, CLEAR.(kind := Child, pid := pid))
    case AddQuit => Adding(w, CLEAR.(kind := Quit))
    case RequestQuit => w.(quit := true)
  }

  // A request for a new source, which is any but one for a descriptor already watched.
  predicate Adds(a: Action, w: World) {
    match a
    case Watch(fd) => forall i :: 0 <= i < |w.table| ==> !(w.table[i].kind == Io && w.table[i].fd == fd)
    case Poll(fd, _) => forall i :: 0 <= i < |w.table| ==> !(w.table[i].kind == Io && w.table[i].fd == fd)
    case AddTimeout(_, _) => true
    case AddChild(_) => true
    case AddQuit => true
    case _ => false
  }

  // What the new source is: it has a callback and no write handler, and what was asked for.
  predicate IsAdded(a: Action, x: Slot, clock: nat) {
    && x.func && !x.wfunc && x.ready == NONE
    && match a
       case Watch(fd) => x.kind == Io && x.fd == fd && !x.poll && !x.wantOut
       case Poll(fd, out) => x.kind == Io && x.fd == fd && x.poll && x.wantOut == out
       case AddTimeout(delay, dt) => x.kind == Timeout && x.delay == delay && x.t == clock + dt + delay
       case AddChild(pid) => x.kind == Child && x.pid == pid
       case _ => x.kind == Quit
  }

  // The first free slot takes it, under the next tag; no other slot changes, and none does when none
  // is free.
  lemma AddsOne(a: Action, w: World)
    requires Adds(a, w)
    ensures var r := Act(a, w);
            && |r.table| == |w.table| && r.clock == w.clock + (if a.AddTimeout? then a.dt else 0)
            && (forall i :: 0 <= i < |w.table| && w.table[i].tag != 0 ==> r.table[i] == w.table[i])
            && forall i :: 0 <= i < |w.table| && w.table[i].tag == 0 ==>
                 if forall j :: 0 <= j < i ==> w.table[j].tag != 0
                 then r.table[i].tag == r.lastTag == (w.lastTag + 1) % 0x1_0000_0000 && IsAdded(a, r.table[i], w.clock)
                 else r.table[i] == w.table[i]
  {
    hide FirstFd;
    assert a.Watch? || a.Poll? ==> FirstFd(w.table, a.fd) == |w.table|;
  }

  // The slot a request is about: that of a tag, or the one that watches a descriptor.
  predicate Concerns(a: Action, x: Slot) {
    match a
    case Remove(tag) => x.tag == tag
    case RemoveFd(fd) => x.kind == Io && x.fd == fd
    case Watch(fd) => x.kind == Io && x.fd == fd
    case Poll(fd, _) => x.kind == Io && x.fd == fd
    case WriteHandler(tag, _) => x.tag == tag
    case _ => false
  }

  // What it makes of it.
  predicate IsChanged(a: Action, x: Slot, y: Slot) {
    match a
    case Remove(_) => y.kind == Removed && y.tag == x.tag && !y.func && !y.wfunc
    case RemoveFd(_) => y.kind == Removed && y.tag == x.tag && !y.func && y.wfunc == x.wfunc
    case Watch(_) => y == x.(wantOut := false, poll := false, ready := NONE)
    case Poll(_, out) => y == x.(wantOut := out, poll := true, ready := NONE)
    case WriteHandler(_, on) => x.kind in {Io, Removed, Empty} ==> y == x.(wantOut := on, wfunc := on)
    case _ => true
  }

  // The first such slot changes, and no other.
  lemma ChangesOne(a: Action, w: World, i: nat)
    requires i < |w.table| && !Adds(a, w)
    ensures var r := Act(a, w);
            && |r.table| == |w.table| && r.lastTag == w.lastTag && r.clock == w.clock
            && if Concerns(a, w.table[i]) && forall j :: 0 <= j < i ==> !Concerns(a, w.table[j])
               then IsChanged(a, w.table[i], r.table[i])
               else r.table[i] == w.table[i]
  {
    match a
    case Remove(tag) => assert FirstTag(w.table, tag) <= |w.table|;
    case RemoveFd(fd) => assert FirstFd(w.table, fd) <= |w.table|;
    case Watch(fd) => assert FirstFd(w.table, fd) <= |w.table|;
    case Poll(fd, _) => assert FirstFd(w.table, fd) <= |w.table|;
    case WriteHandler(tag, _) => assert FirstTag(w.table, tag) <= |w.table|;
    case _ =>
  }

  function Acts(acts: seq<Action>, w: World, k: nat := 0): World
    requires k <= |acts|
    decreases |acts| - k
  {
    if k == |acts| then w else Acts(acts, Act(acts[k], w), k + 1)
  }

  // Action a leaves a write handler on a slot awaiting removal: it removes by descriptor a source
  // that has one, or gives one to a removed source.
  predicate Orphans(a: Action, s: seq<Slot>) {
    match a
    case RemoveFd(fd) => var i := FirstFd(s, fd); i < |s| && s[i].wfunc
    case WriteHandler(tag, on) => var i := FirstTag(s, tag); on && i < |s| && s[i].kind == Removed
    case _ => false
  }

  predicate Orphaning(acts: seq<Action>, w: World, k: nat := 0)
    requires k <= |acts|
    decreases |acts| - k
  {
    k < |acts| && (Orphans(acts[k], w.table) || Orphaning(acts, Act(acts[k], w), k + 1))
  }

  // ---------------------------------------------------------------- what follows a table

  // A timer is the one that was there, or is set after `now`.
  ghost predicate TimerFrom(x: Slot, y: Slot, now: nat) {
    y.kind == Timeout ==>
      || (x.kind == Timeout && y.t == x.t && y.delay == x.delay)
      || y.t >= now + y.delay
  }

  // The actions concern the write handler or the watching of that source.
  predicate Touches(acts: seq<Action>, tag: nat, fd: int) {
    exists a <- acts :: a in {WriteHandler(tag, true), WriteHandler(tag, false), Watch(fd), Poll(fd, true), Poll(fd, false)}
  }

  lemma TouchesEither(a: seq<Action>, b: seq<Action>, tag: nat, fd: int)
    requires Touches(a, tag, fd) || Touches(b, tag, fd)
    ensures Touches(a + b, tag, fd)
  {
    assert (forall e <- a :: e in a + b) && forall e <- b :: e in a + b;
  }

  // A watched descriptor that the actions do not concern keeps its slot as it is, or is removed; it
  // may stop being watched for writing.
  ghost predicate HandlerKept(x: Slot, y: Slot, acts: seq<Action>) {
    x.kind == Io && x.tag != 0 && !Touches(acts, x.tag, x.fd) ==>
      y.kind == Removed || (y == x.(wantOut := y.wantOut) && (y.wantOut ==> x.wantOut))
  }

  ghost predicate Next(x: Slot, y: Slot, now: nat, acts: seq<Action>) {
    Keeps(x, y) && TimerFrom(x, y, now) && HandlerKept(x, y, acts)
  }

  // What `acts`, asked for from time `now` on, may make of the table s.
  ghost predicate Follows(s: seq<Slot>, s': seq<Slot>, now: nat, acts: seq<Action>) {
    |s| == |s'| && forall i :: 0 <= i < |s| ==> Next(s[i], s'[i], now, acts)
  }

  // As Follows, except that slot i may have been cleared.
  ghost predicate FollowsBut(s: seq<Slot>, s': seq<Slot>, i: nat, cleared: bool, now: nat, acts: seq<Action>) {
    && |s| == |s'| && i < |s|
    && (forall j :: 0 <= j < |s| && j != i ==> Next(s[j], s'[j], now, acts))
    && (if cleared then s'[i] == CLEAR else Next(s[i], s'[i], now, acts))
  }

  lemma NextOn(x: Slot, m: Slot, y: Slot, now: nat, later: nat, a: seq<Action>, b: seq<Action>)
    requires Next(x, m, now, a) && Next(m, y, later, b) && now <= later
    ensures Next(x, y, now, a + b)
  {
    assert forall e <- a :: e in a + b;
    assert forall e <- b :: e in a + b;
  }

  lemma FollowsOn(s: seq<Slot>, m: seq<Slot>, e: seq<Slot>, now: nat, later: nat, a: seq<Action>, b: seq<Action>)
    requires Follows(s, m, now, a) && Follows(m, e, later, b) && now <= later
    ensures Follows(s, e, now, a + b)
  {
    forall i | 0 <= i < |s| ensures Next(s[i], e[i], now, a + b) {
      assert Next(s[i], m[i], now, a) && Next(m[i], e[i], later, b);
      NextOn(s[i], m[i], e[i], now, later, a, b);
    }
  }

  lemma FollowsSelf(s: seq<Slot>, now: nat)
    ensures Follows(s, s, now, [])
  {
  }

  lemma SetFollows(s: seq<Slot>, i: nat, x: Slot, now: nat, acts: seq<Action>)
    requires i < |s| ==> Next(s[i], x, now, acts)
    ensures Follows(s, if i < |s| then s[i := x] else s, now, acts)
  {
  }

  lemma AddingFollows(w: World, x: Slot, now: nat, acts: seq<Action>)
    requires x.kind == Timeout ==> x.t >= now + x.delay
    ensures Follows(w.table, Adding(w, x).table, now, acts) && Adding(w, x).clock == w.clock
  {
    hide FirstTag;
    var i, tag := FirstTag(w.table, 0), (w.lastTag + 1) % TAGS;
    SetFollows(w.table, i, x.(tag := tag, func := true), now, acts);
  }

  lemma WatchingFollows(w: World, fd: int, poll: bool, out: bool, acts: seq<Action>)
    requires Watch(fd) in acts || Poll(fd, out) in acts
    ensures Follows(w.table, Watching(w, fd, poll, out).table, w.clock, acts)
    ensures Watching(w, fd, poll, out).clock == w.clock
  {
    hide FirstFd, Adding;
    var i := FirstFd(w.table, fd);
    if i < |w.table| {
      SetFollows(w.table, i, w.table[i].(wantOut := out, ready := NONE, poll := poll), w.clock, acts);
    } else {
      AddingFollows(w, CLEAR.(kind := Io, fd := fd, wantOut := out, poll := poll), w.clock, acts);
    }
  }

  lemma NextSelf(s: seq<Slot>, now: nat, acts: seq<Action>)
    ensures forall j :: 0 <= j < |s| ==> Next(s[j], s[j], now, acts)
  {
  }

  lemma NextGives(x: Slot, y: Slot, now: nat, acts: seq<Action>)
    requires Next(x, y, now, acts)
    ensures Keeps(x, y)
    ensures x.kind == Io && x.tag != 0 && !Touches(acts, x.tag, x.fd) ==> y.kind == Removed || y == x.(wantOut := y.wantOut)
  {
  }

  lemma FollowsAt(s: seq<Slot>, s': seq<Slot>, i: nat, now: nat, acts: seq<Action>)
    requires Follows(s, s', now, acts) && i < |s|
    ensures |s| == |s'| && Next(s[i], s'[i], now, acts)
  {
  }

  lemma ActFollows(a: Action, w: World)
    ensures Follows(w.table, Act(a, w).table, w.clock, [a]) && Act(a, w).clock >= w.clock
  {
    hide Follows, FirstTag, FirstFd, Adding, Watching;
    var s, now, acts := w.table, w.clock, [a];
    assert a in acts;
    match a
    case Remove(tag) =>
      var i := FirstTag(s, tag);
      SetFollows(s, i, if i < |s| then s[i].(kind := Removed, func := false, wfunc := false) else CLEAR, now, acts);
    case RemoveFd(fd) =>
      var i := FirstFd(s, fd);
      SetFollows(s, i, if i < |s| then s[i].(kind := Removed, func := false) else CLEAR, now, acts);
    case Watch(fd) => WatchingFollows(w, fd, false, false, acts);
    case Poll(fd, out) => WatchingFollows(w, fd, true, out, acts);
    case WriteHandler(tag, on) =>
      var i := FirstTag(s, tag);
      SetFollows(s, i, if i < |s| then s[i].(wantOut := on, wfunc := on) else CLEAR, now, acts);
      SetFollows(s, |s|, CLEAR, now, acts);
    case AddTimeout(delay, dt) =>
      AddingFollows(w.(clock := now + dt), CLEAR.(kind := Timeout, delay := delay, t := delay + now + dt), now, acts);
    case AddChild(pid) => AddingFollows(w, CLEAR.(kind := Child, pid := pid), now, acts);
    case AddQuit => AddingFollows(w, CLEAR.(kind := Quit), now, acts);
    case RequestQuit => SetFollows(s, |s|, CLEAR, now, acts);
  }

  lemma {:induction false} ActsFollow(acts: seq<Action>, w: World, k: nat)
    requires k <= |acts|
    ensures Follows(w.table, Acts(acts, w, k).table, w.clock, acts[k..]) && Acts(acts, w, k).clock >= w.clock
    decreases |acts| - k
  {
    hide Follows, Act;
    if k == |acts| {
      FollowsSelf(w.table, w.clock);
    } else {
      var m := Act(acts[k], w);
      ActFollows(acts[k], w);
      ActsFollow(acts, m, k + 1);
      FollowsOn(w.table, m.table, Acts(acts, m, k + 1).table, w.clock, m.clock, [acts[k]], acts[k + 1..]);
      assert [acts[k]] + acts[k + 1..] == acts[k..];
    }
  }

  // The source of x is still in its slot, or removed.
  ghost predicate KeptOrDead(x: Slot, y: Slot, dead: set<nat>) {
    x.tag in dead || Keeps(x, y)
  }

  // ---------------------------------------------------------------- what requests promise

  // No write handler is ever set.
  predicate NoHandlers(done: seq<Action>) {
    forall i :: 0 <= i < |done| && done[i].WriteHandler? ==> !done[i].on
  }

  // No source is given a write handler after it was removed by its tag, and none that is ever given
  // one is removed by its descriptor; `bound` says for which descriptors tags were given out.
  ghost predicate HandlersFirst(done: seq<Action>, bound: set<(nat, int)>) {
    && TagsFirst(done)
    && forall b <- bound :: WriteHandler(b.0, true) in done ==> RemoveFd(b.1) !in done
  }

  predicate TagsFirst(done: seq<Action>) {
    forall i :: 0 <= i < |done| && done[i].WriteHandler? && done[i].on ==>
      done[i].tag != 0 && Remove(done[i].tag) !in done[..i]
  }

  ghost predicate Careful(done: seq<Action>, bound: set<(nat, int)>) {
    NoHandlers(done) || HandlersFirst(done, bound)
  }

  predicate DelaysWithin(done: seq<Action>, lo: int, hi: int) {
    forall i :: 0 <= i < |done| && done[i].AddTimeout? ==> lo <= done[i].delay <= hi
  }

  // The deadline of a timer is no later than its delay from now, a delay that was asked for.
  ghost predicate Timely(x: Slot, done: seq<Action>, clock: nat) {
    x.kind == Timeout ==>
      x.t <= clock + x.delay && exists i :: 0 <= i < |done| && done[i].AddTimeout? && done[i].delay == x.delay
  }

  // A source awaiting removal was removed by its tag or by its descriptor.
  ghost predicate Gone(x: Slot, done: seq<Action>, bound: set<(nat, int)>) {
    Remove(x.tag) in done || (RemoveFd(x.fd) in done && (x.tag, x.fd) in bound)
  }

  // What the requests so far say of the table, and of whether a write handler was orphaned.
  ghost predicate Lawful(s: seq<Slot>, done: seq<Action>, bound: set<(nat, int)>, orphaned: bool, clock: nat) {
    && (NoHandlers(done) ==> !orphaned)
    && (HandlersFirst(done, bound) ==>
          !orphaned && forall i :: 0 <= i < |s| && s[i].kind == Removed && s[i].tag != 0 ==> Gone(s[i], done, bound))
    && (!orphaned ==> NoOrphan(s))
    && (forall i :: 0 <= i < |s| && s[i].wfunc ==> WriteHandler(s[i].tag, true) in done)
    && (forall i :: 0 <= i < |s| && s[i].kind == Io ==> (s[i].tag, s[i].fd) in bound)
    && forall i :: 0 <= i < |s| ==> Timely(s[i], done, clock)
  }

  // Slot y may become x.
  ghost predicate SlotLawful(y: Slot, x: Slot, done: seq<Action>, bound: set<(nat, int)>, clock: nat) {
    && (x.wfunc ==> WriteHandler(x.tag, true) in done)
    && (x.kind == Io ==> (x.tag, x.fd) in bound)
    && (HandlersFirst(done, bound) && x.kind == Removed ==>
          || (y.kind == Removed && x.tag == y.tag && x.fd == y.fd && (x.wfunc ==> y.wfunc))
          || (!x.wfunc && (x.tag != 0 ==> Gone(x, done, bound))))
    && Timely(x, done, clock)
  }

  lemma LawfulSet(s: seq<Slot>, i: nat, x: Slot, done: seq<Action>, bound: set<(nat, int)>, orphaned: bool, clock: nat)
    requires Lawful(s, done, bound, orphaned, clock) && i < |s| && SlotLawful(s[i], x, done, bound, clock)
    ensures Lawful(s[i := x], done, bound, orphaned || (x.kind == Removed && x.wfunc), clock)
  {
  }

  lemma TimelyLater(x: Slot, done: seq<Action>, more: seq<Action>, clock: nat, later: nat)
    requires Timely(x, done, clock) && clock <= later
    ensures Timely(x, done + more, later)
  {
    if x.kind == Timeout {
      var i :| 0 <= i < |done| && done[i].AddTimeout? && done[i].delay == x.delay;
      assert (done + more)[i] == done[i];
    }
  }

  lemma FirstBefore(done: seq<Action>, more: seq<Action>, bound: set<(nat, int)>, wider: set<(nat, int)>)
    requires bound <= wider
    ensures NoHandlers(done + more) ==> NoHandlers(done)
    ensures HandlersFirst(done + more, wider) ==> HandlersFirst(done, bound)
  {
    var all := done + more;
    assert forall i :: 0 <= i < |done| ==> all[i] == done[i] && all[..i] == done[..i];
    assert forall a <- done :: a in all;
  }

  // Time passes, and more is asked for.
  lemma LawfulLater(s: seq<Slot>, done: seq<Action>, more: seq<Action>, bound: set<(nat, int)>, wider: set<(nat, int)>,
                    orphaned: bool, clock: nat, later: nat)
    requires Lawful(s, done, bound, orphaned, clock) && clock <= later && bound <= wider
    ensures Lawful(s, done + more, wider, orphaned, later)
    ensures HandlersFirst(done + more, wider) ==> HandlersFirst(done, bound)
  {
    hide HandlersFirst, NoHandlers, NoOrphan, Timely;
    FirstBefore(done, more, bound, wider);
    assert forall a <- done :: a in done + more;
    forall i | 0 <= i < |s| ensures Timely(s[i], done + more, later) {
      TimelyLater(s[i], done, more, clock, later);
    }
  }

  // ---------------------------------------------------------------- calls

  // The callback ran for the source that was in slot x, with the readiness stored there; it came
  // after the source's removal only as a write handler of a slot awaiting removal.
  ghost predicate RunsFor(x: Slot, c: Call) {
    && c.tag == x.tag && c.fd == x.fd && c.ready == x.ready
    && (c.kind == x.kind || (c.kind == Removed && c.write))
    && (c.late <==> c.kind == Removed)
  }

  ghost predicate AllRunFor(x: Slot, before: seq<Call>, after: seq<Call>) {
    && |before| <= |after| <= |before| + 2 && after[..|before|] == before
    && forall n :: |before| <= n < |after| ==> RunsFor(x, after[n])
  }

  // A watched descriptor with a write handler.
  predicate Awaits(x: Slot) {
    x.kind == Io && x.func && x.wfunc && !x.poll
  }

  // The calls made for a watched descriptor: to read, then to write.
  ghost function ReadCall(x: Slot, dead: set<nat>): seq<Call> {
    if x.ready.input then [Call(x.tag, Io, false, x.fd, x.ready, x.tag in dead)] else []
  }

  ghost function WriteCall(x: Slot): seq<Call> {
    if x.ready.output && x.wfunc then [Call(x.tag, x.kind, true, x.fd, x.ready, x.kind == Removed)] else []
  }

  lemma OneRun(x: Slot, calls: seq<Call>, c: Call)
    requires RunsFor(x, c)
    ensures AllRunFor(x, calls, calls + [c])
  {
  }

  lemma NoneRun(x: Slot, calls: seq<Call>)
    ensures AllRunFor(x, calls, calls)
  {
  }

  // Both calls are for the source of x; a late one is a write after removal.
  lemma IoCalls(x: Slot, mid: Slot, before: seq<Call>, after: seq<Call>, goes: bool, dead: set<nat>)
    requires Keeps(x, mid) && x.kind == Io && x.tag != 0 && x.tag !in dead
    requires after == before + ReadCall(x, dead) + (if goes then WriteCall(mid) else [])
    ensures AllRunFor(x, before, after)
    ensures (exists n :: |before| <= n < |after| && after[n].late) <==>
              goes && mid.kind == Removed && mid.wfunc && mid.ready.output
  {
    assert after[..|before|] == before;
    if goes && WriteCall(mid) != [] {
      assert after[|after| - 1] == WriteCall(mid)[0];
    }
  }

  // The write handler of a watched descriptor that nothing concerned was called, or it is removed.
  lemma IoWritten(x: Slot, mid: Slot, before: seq<Call>, p: Past)
    requires Keeps(x, mid) && Awaits(x) && x.ready.output && x.tag != 0
    requires mid.kind == Removed || mid == x.(wantOut := mid.wantOut)
    requires mid.kind == Removed ==> x.tag in p.dead
    requires p.calls == before + WriteCall(mid)
    ensures forall n: nat :: n <= |before| ==> Written(x, n, p)
  {
    if mid.kind != Removed {
      assert p.calls[|before|] == WriteCall(mid)[0];
    }
  }

  // The source of x is removed, or its descriptor is not watched for output.
  ghost predicate Off(x: Slot, y: Slot, dead: set<nat>) {
    x.tag in dead || (y.tag == x.tag && y.fd == x.fd && y.kind == Io && !y.wantOut)
  }

  // The source of x has no write handler, or it ran since the n-th call and said it has finished.
  ghost predicate Drained(behave: nat -> Script, x: Slot, n: nat, calls: seq<Call>) {
    x.wfunc ==> exists k :: n <= k < |calls| && calls[k].tag == x.tag && calls[k].write && behave(k).ret == 0
  }

  // It then stays so, while nothing concerns it.
  lemma OffKept(x: Slot, m: Slot, y: Slot, now: nat, acts: seq<Action>, early: set<nat>, dead: set<nat>)
    requires Off(x, m, early) && early <= dead && x.tag != 0 && Next(m, y, now, acts) && !Touches(acts, x.tag, x.fd)
    requires y.kind == Removed && y.tag != 0 ==> y.tag in dead
    ensures Off(x, y, dead)
  {
    hide Touches;
  }

  // So for every descriptor reported ready to write, whose write handler, if it has one, has then said
  // that it is finished, unless a callback changed its handler or its watching.
  ghost predicate AllOff(behave: nat -> Script, s: seq<Slot>, n: nat, lookup: seq<int>, ready: seq<Ready>, from: nat,
                         calls: seq<Call>, dead: set<nat>, t: seq<Slot>, acts: seq<Action>)
  {
    forall j :: 0 <= j < n && j < |s| && j < |t| && j < |lookup| && 0 <= lookup[j] < |ready| && ready[lookup[j]].output
                && !s[j].poll && !Touches(acts, s[j].tag, s[j].fd) && Drained(behave, s[j], from, calls) ==>
      Off(s[j], t[j], dead)
  }

  lemma AllOffLater(behave: nat -> Script, s: seq<Slot>, n: nat, lookup: seq<int>, ready: seq<Ready>, from: nat,
                    calls: seq<Call>, dead: set<nat>, later: set<nat>, t: seq<Slot>, acts: seq<Action>)
    requires AllOff(behave, s, n, lookup, ready, from, calls, dead, t, acts) && dead <= later
    ensures AllOff(behave, s, n, lookup, ready, from, calls, later, t, acts)
  {
  }

  // Calls for other sources say nothing of it.
  lemma DrainedBefore(behave: nat -> Script, x: Slot, from: nat, early: seq<Call>, calls: seq<Call>)
    requires |early| <= |calls| && calls[..|early|] == early
    requires forall k :: |early| <= k < |calls| ==> calls[k].tag != x.tag
    ensures Drained(behave, x, from, calls) ==> Drained(behave, x, from, early)
  {
    assert forall k :: 0 <= k < |early| ==> calls[k] == calls[..|early|][k];
  }

  lemma DrainedSince(behave: nat -> Script, x: Slot, from: nat, since: nat, calls: seq<Call>)
    requires forall k :: from <= k < since && k < |calls| ==> calls[k].tag != x.tag
    ensures Drained(behave, x, from, calls) ==> Drained(behave, x, since, calls)
  {
  }

  ghost predicate DistinctTags(s: seq<Slot>) {
    forall i, j :: 0 <= i < j < |s| && s[i].tag == s[j].tag ==> s[i].tag == 0
  }

  lemma InvDistinct(s: seq<Slot>, regs: nat, dead: set<nat>)
    requires Inv(s, regs, dead)
    ensures DistinctTags(s)
  {
    forall i, j | 0 <= i < j < |s| && s[i].tag == s[j].tag ensures s[i].tag == 0 {
      assert Apart(s[i], s[j]);
    }
  }

  // One more slot is served: those before it stay as they are.
  lemma AllOffOn(behave: nat -> Script, s: seq<Slot>, i: nat, lookup: seq<int>, ready: seq<Ready>, from: nat,
                 early: seq<Call>, calls: seq<Call>, dead: set<nat>, later: set<nat>, m: seq<Slot>, t: seq<Slot>, now: nat,
                 acts: seq<Action>, more: seq<Action>)
    requires AllOff(behave, s, i, lookup, ready, from, early, dead, m, acts) && i < |s| == |m| == |t| && dead <= later
    requires |lookup| == |s| && DistinctTags(s) && Tagged(s) && forall j :: 0 <= j <= i && lookup[j] >= 0 ==> s[j].kind == Io
    requires |early| <= |calls| && calls[..|early|] == early
    requires forall k :: |early| <= k < |calls| ==> calls[k].tag == s[i].tag
    requires forall j :: 0 <= j < i ==> Next(m[j], t[j], now, more)
    requires forall j :: 0 <= j < |t| && t[j].kind == Removed && t[j].tag != 0 ==> t[j].tag in later
    requires forall tag, fd :: Touches(acts, tag, fd) || Touches(more, tag, fd) ==> Touches(acts + more, tag, fd)
    requires 0 <= lookup[i] < |ready| && ready[lookup[i]].output && !s[i].poll
             && !Touches(acts + more, s[i].tag, s[i].fd) && Drained(behave, s[i], from, calls) ==>
               Off(s[i], t[i], later)
    ensures AllOff(behave, s, i + 1, lookup, ready, from, calls, later, t, acts + more)
  {
    hide Touches, Drained, Off, Next;
    forall j | 0 <= j < i && 0 <= lookup[j] < |ready| && ready[lookup[j]].output
               && !s[j].poll && !Touches(acts + more, s[j].tag, s[j].fd) && Drained(behave, s[j], from, calls)
      ensures Off(s[j], t[j], later)
    {
      assert s[j].tag != 0 && s[j].tag != s[i].tag;
      DrainedBefore(behave, s[j], from, early, calls);
      OffKept(s[j], m[j], t[j], now, more, dead, later);
    }
  }

  // One callback of a descriptor that nothing concerned, which ends with y in its slot.
  lemma IoStops(behave: nat -> Script, x: Slot, mid: Slot, y: Slot, before: seq<Call>, dead: set<nat>, p: Past)
    requires Keeps(x, mid) && Keeps(mid, y) && x.kind == Io && x.tag != 0 && x.ready.output
    requires mid.kind == Removed || mid == x.(wantOut := mid.wantOut)
    requires mid.kind == Removed || y.kind == Removed ==> x.tag in p.dead
    requires p.calls == before + ReadCall(x, dead) + WriteCall(mid)
    requires mid.ready.output && (!mid.wfunc || behave(|before| + |ReadCall(x, dead)|).ret == 0) ==> !y.wantOut
    requires Drained(behave, x, |before|, p.calls)
    ensures Off(x, y, p.dead)
  {
    if mid.kind != Removed && x.wfunc {
      var k :| |before| <= k < |p.calls| && p.calls[k].tag == x.tag && p.calls[k].write && behave(k).ret == 0;
      assert k == |before| + |ReadCall(x, dead)|;
    }
  }

  // What a run has done so far.
  // `worlds` are those in which the callback runs began.
  datatype Past = Past(calls: seq<Call>, worlds: seq<World>, dead: set<nat>, done: seq<Action>, bound: set<(nat, int)>,
                       orphaned: bool, regs: nat, clock: nat)

  // The requests of callback runs n to m, in order.
  function Performed(behave: nat -> Script, n: nat, m: nat): seq<Action>
    requires n <= m
  {
    if n == m then [] else Performed(behave, n, m - 1) + behave(m - 1).acts
  }

  lemma {:induction false} PerformedOn(behave: nat -> Script, n: nat, m: nat, k: nat)
    requires n <= m <= k
    ensures Performed(behave, n, m) + Performed(behave, m, k) == Performed(behave, n, k)
    decreases k
  {
    if m == k {
      assert Performed(behave, n, m) + [] == Performed(behave, n, m);
    } else {
      PerformedOn(behave, n, m, k - 1);
      assert Performed(behave, n, m) + Performed(behave, m, k)
          == (Performed(behave, n, m) + Performed(behave, m, k - 1)) + behave(k - 1).acts;
    }
  }

  // No script sets a write handler.
  ghost predicate NeverHandles(behave: nat -> Script, n: nat) {
    forall k: nat :: k >= n ==> NoHandlers(behave(k).acts)
  }

  // What was asked or a script may ask.
  ghost predicate MayAsk(behave: nat -> Script, n: nat, asked: seq<Action>, a: Action) {
    a in asked || exists k: nat :: k >= n && a in behave(k).acts
  }

  // No script sets a write handler on a tag removed before: in what was asked already, in an
  // earlier script, or earlier in its own. No source that may be given a write handler may be
  // removed by its descriptor.
  ghost predicate HandlesBefore(behave: nat -> Script, n: nat, asked: seq<Action>, bound: set<(nat, int)>) {
    && (forall k: nat :: k >= n ==>
          && TagsFirst(behave(k).acts)
          && forall a <- behave(k).acts :: a.WriteHandler? && a.on ==>
               Remove(a.tag) !in asked && forall l: nat :: n <= l < k ==> Remove(a.tag) !in behave(l).acts)
    && forall b <- bound :: MayAsk(behave, n, asked, WriteHandler(b.0, true)) ==> !MayAsk(behave, n, asked, RemoveFd(b.1))
  }

  // What may be asked of the loop, before and by the scripts, without orphaning a write handler.
  ghost predicate Harmless(behave: nat -> Script, n: nat, asked: seq<Action>, bound: set<(nat, int)>) {
    || (NoHandlers(asked) && NeverHandles(behave, n))
    || (TagsFirst(asked) && HandlesBefore(behave, n, asked, bound))
  }

  lemma {:induction false} PerformedBy(behave: nat -> Script, n: nat, m: nat, a: Action)
    requires n <= m && a in Performed(behave, n, m)
    ensures exists l: nat :: n <= l < m && a in behave(l).acts
    decreases m
  {
    if a !in behave(m - 1).acts {
      PerformedBy(behave, n, m - 1, a);
    }
  }

  lemma TagsJoin(a: seq<Action>, b: seq<Action>)
    requires TagsFirst(a) && TagsFirst(b)
    requires forall c <- b :: c.WriteHandler? && c.on ==> Remove(c.tag) !in a
    ensures TagsFirst(a + b)
  {
    var s := a + b;
    forall i | 0 <= i < |s| && s[i].WriteHandler? && s[i].on ensures s[i].tag != 0 && Remove(s[i].tag) !in s[..i] {
      if i < |a| {
        assert s[i] == a[i] && s[..i] == a[..i];
      } else {
        assert s[i] == b[i - |a|] && s[..i] == a + b[..i - |a|] && s[i] in b;
      }
    }
  }

  lemma {:induction false} TagsStayFirst(behave: nat -> Script, n: nat, m: nat, asked: seq<Action>, bound: set<(nat, int)>)
    requires n <= m && TagsFirst(asked) && HandlesBefore(behave, n, asked, bound)
    ensures TagsFirst(asked + Performed(behave, n, m))
    decreases m
  {
    if m == n {
      assert asked + [] == asked;
    } else {
      TagsStayFirst(behave, n, m - 1, asked, bound);
      var front, acts := asked + Performed(behave, n, m - 1), behave(m - 1).acts;
      assert asked + Performed(behave, n, m) == front + acts;
      forall c <- acts | c.WriteHandler? && c.on ensures Remove(c.tag) !in front {
        if Remove(c.tag) in Performed(behave, n, m - 1) {
          PerformedBy(behave, n, m - 1, Remove(c.tag));
        }
      }
      TagsJoin(front, acts);
    }
  }

  lemma {:induction false} NoneHandled(behave: nat -> Script, n: nat, m: nat, asked: seq<Action>)
    requires n <= m && NoHandlers(asked) && NeverHandles(behave, n)
    ensures NoHandlers(asked + Performed(behave, n, m))
    decreases m
  {
    if m == n {
      assert asked + [] == asked;
    } else {
      NoneHandled(behave, n, m - 1, asked);
      var front, acts := asked + Performed(behave, n, m - 1), behave(m - 1).acts;
      assert asked + Performed(behave, n, m) == front + acts;
    }
  }

  // Harmless requests and scripts stay so over any run.
  lemma HarmlessIsCareful(behave: nat -> Script, n: nat, m: nat, asked: seq<Action>, bound: set<(nat, int)>)
    requires n <= m && Harmless(behave, n, asked, bound)
    ensures Careful(asked + Performed(behave, n, m), bound)
  {
    if NoHandlers(asked) && NeverHandles(behave, n) {
      NoneHandled(behave, n, m, asked);
    } else {
      TagsStayFirst(behave, n, m, asked, bound);
      forall a <- asked + Performed(behave, n, m) ensures MayAsk(behave, n, asked, a) {
        if a in Performed(behave, n, m) {
          PerformedBy(behave, n, m, a);
        }
      }
    }
  }

  // What all requests do not concern, the first ones do not.
  lemma FewerTouch(behave: nat -> Script, n: nat, m: nat, k: nat, tag: nat, fd: int)
    requires n <= m <= k && Touches(Performed(behave, n, m), tag, fd)
    ensures Touches(Performed(behave, n, k), tag, fd)
  {
    PerformedOn(behave, n, m, k);
    assert forall a <- Performed(behave, n, m) :: a in Performed(behave, n, k);
  }

  lemma LaterTouch(behave: nat -> Script, n: nat, m: nat, k: nat, tag: nat, fd: int)
    requires n <= m <= k && !Touches(Performed(behave, n, k), tag, fd)
    ensures !Touches(Performed(behave, n, m), tag, fd) && !Touches(Performed(behave, m, k), tag, fd)
  {
    PerformedOn(behave, n, m, k);
    assert forall a <- Performed(behave, n, m) :: a in Performed(behave, n, k);
    assert forall a <- Performed(behave, m, k) :: a in Performed(behave, n, k);
  }

  // Some callback run from n to m orphaned a write handler: in the world it began in, one of its
  // requests did.
  ghost predicate Strays(behave: nat -> Script, worlds: seq<World>, n: nat, m: nat) {
    exists k :: n <= k < m && k < |worlds| && Orphaning(behave(k).acts, worlds[k])
  }

  // These requests remove the source of that tag, by its tag or by a descriptor it was given out for.
  ghost predicate RemovedBy(acts: seq<Action>, bound: set<(nat, int)>, d: nat) {
    Remove(d) in acts || exists b <- bound :: b.0 == d && RemoveFd(b.1) in acts
  }

  ghost predicate DeadBy(early: set<nat>, dead: set<nat>, acts: seq<Action>, bound: set<(nat, int)>) {
    forall d <- dead :: d in early || RemovedBy(acts, bound, d)
  }

  lemma DeadByNothing(dead: set<nat>, acts: seq<Action>, bound: set<(nat, int)>)
    ensures DeadBy(dead, dead, acts, bound)
  {
  }

  lemma DeadByMore(early: set<nat>, mid: set<nat>, dead: set<nat>, a: seq<Action>, b: seq<Action>,
                   bound: set<(nat, int)>, wider: set<(nat, int)>)
    requires DeadBy(early, mid, a, bound) && DeadBy(mid, dead, b, wider) && bound <= wider
    ensures DeadBy(early, dead, a + b, wider)
  {
    forall d <- dead | d !in early ensures RemovedBy(a + b, wider, d) {
      if d in mid {
        RemovedMore(a, a + b, bound, wider, d);
      } else {
        RemovedMore(b, a + b, wider, wider, d);
      }
    }
  }

  lemma RemovedMore(a: seq<Action>, b: seq<Action>, bound: set<(nat, int)>, wider: set<(nat, int)>, d: nat)
    requires bound <= wider && forall e <- a :: e in b
    ensures RemovedBy(a, bound, d) ==> RemovedBy(b, wider, d)
  {
  }

  // A source is removed only by a request, or after its own callback ran.
  ghost predicate DeadFor(behave: nat -> Script, p: Past, q: Past)
    requires |p.calls| <= |q.calls|
  {
    q.regs < TAGS ==> forall d <- q.dead ::
      || d in p.dead || RemovedBy(Performed(behave, |p.calls|, |q.calls|), q.bound, d)
      || exists k :: |p.calls| <= k < |q.calls| && q.calls[k].tag == d
  }

  lemma DeadForOn(behave: nat -> Script, p: Past, q: Past, r: Past)
    requires |p.calls| <= |q.calls| <= |r.calls| && r.calls[..|q.calls|] == q.calls && q.bound <= r.bound && q.regs <= r.regs
    requires DeadFor(behave, p, q) && DeadFor(behave, q, r)
    ensures DeadFor(behave, p, r)
  {
    hide RemovedBy;
    if r.regs < TAGS {
      PerformedOn(behave, |p.calls|, |q.calls|, |r.calls|);
      var a, b := Performed(behave, |p.calls|, |q.calls|), Performed(behave, |q.calls|, |r.calls|);
      var all := Performed(behave, |p.calls|, |r.calls|);
      assert (forall e <- a :: e in all) && forall e <- b :: e in all;
      assert forall k :: 0 <= k < |q.calls| ==> r.calls[k] == r.calls[..|q.calls|][k];
      forall d <- r.dead
        ensures d in p.dead || RemovedBy(all, r.bound, d) || exists k :: |p.calls| <= k < |r.calls| && r.calls[k].tag == d
      {
        RemovedMore(a, all, q.bound, r.bound, d);
        RemovedMore(b, all, r.bound, r.bound, d);
      }
    }
  }

  // Nothing is forgotten; what was asked for is what the callbacks run in between ask for, at most
  // one registration by request, and a write handler was orphaned since then exactly if one of them did so.
  ghost predicate Grows(behave: nat -> Script, p: Past, q: Past) {
    && |p.worlds| == |p.calls| && |q.worlds| == |q.calls|
    && |p.calls| <= |q.calls| && q.calls[..|p.calls|] == p.calls && q.worlds[..|p.calls|] == p.worlds
    && p.dead <= q.dead && p.bound <= q.bound && p.regs <= q.regs && p.clock <= q.clock
    && (q.orphaned <==> p.orphaned || Strays(behave, q.worlds, |p.calls|, |q.calls|))
    && q.done == p.done + Performed(behave, |p.calls|, |q.calls|) && q.regs - p.regs <= |q.done| - |p.done|
    && DeadFor(behave, p, q)
  }

  lemma GrowsSelf(behave: nat -> Script, p: Past)
    requires |p.worlds| == |p.calls|
    ensures Grows(behave, p, p)
  {
  }

  lemma GrowsLonger(behave: nat -> Script, p: Past, q: Past)
    requires Grows(behave, p, q)
    ensures |p.calls| <= |q.calls| && q.calls[..|p.calls|] == p.calls
    ensures p.regs <= q.regs && p.dead <= q.dead && p.clock <= q.clock && (p.orphaned ==> q.orphaned)
  {
  }

  lemma NothingDone(behave: nat -> Script, w: World, n: nat)
    ensures Acts([], w) == w && Performed(behave, n, n) == []
  {
  }

  lemma StraysOn(behave: nat -> Script, early: seq<World>, all: seq<World>, n: nat, m: nat, k: nat)
    requires n <= m == |early| <= k && |early| <= |all| && all[..|early|] == early
    ensures Strays(behave, all, n, k) <==> Strays(behave, early, n, m) || Strays(behave, all, m, k)
  {
    hide Orphaning;
    assert forall l :: 0 <= l < m ==> all[l] == all[..m][l] == early[l];
  }

  lemma DoneOn(behave: nat -> Script, asked: seq<Action>, n: nat, m: nat, k: nat)
    requires n <= m <= k
    ensures asked + Performed(behave, n, m) + Performed(behave, m, k) == asked + Performed(behave, n, k)
  {
    PerformedOn(behave, n, m, k);
    assert (asked + Performed(behave, n, m)) + Performed(behave, m, k)
        == asked + (Performed(behave, n, m) + Performed(behave, m, k));
  }

  lemma GrowsOn(behave: nat -> Script, p: Past, q: Past, r: Past)
    requires Grows(behave, p, q) && Grows(behave, q, r)
    ensures Grows(behave, p, r)
  {
    hide Strays, Performed, DeadFor;
    DeadForOn(behave, p, q, r);
    assert r.calls[..|p.calls|] == r.calls[..|q.calls|][..|p.calls|];
    assert r.worlds[..|p.calls|] == r.worlds[..|q.calls|][..|p.calls|];
    StraysOn(behave, q.worlds, r.worlds, |p.calls|, |q.calls|, |r.calls|);
    DoneOn(behave, p.done, |p.calls|, |q.calls|, |r.calls|);
  }

  lemma DelaysBefore(behave: nat -> Script, p: Past, q: Past, lo: int, hi: int)
    requires Grows(behave, p, q) && DelaysWithin(q.done, lo, hi)
    ensures DelaysWithin(p.done, lo, hi)
  {
    assert forall i :: 0 <= i < |p.done| ==> q.done[i] == p.done[i];
  }

  // The source in slot x was called since the n-th call, or is removed.
  ghost predicate Handled(x: Slot, n: nat, p: Past) {
    x.tag in p.dead || exists k :: n <= k < |p.calls| && p.calls[k].tag == x.tag
  }

  // Its write handler was.
  ghost predicate Written(x: Slot, n: nat, p: Past) {
    x.tag in p.dead || exists k :: n <= k < |p.calls| && p.calls[k].tag == x.tag && p.calls[k].write
  }

  lemma HandledLater(behave: nat -> Script, x: Slot, n: nat, p: Past, q: Past)
    requires Grows(behave, p, q)
    ensures Handled(x, n, p) ==> Handled(x, n, q)
    ensures Written(x, n, p) ==> Written(x, n, q)
  {
    assert forall k :: 0 <= k < |p.calls| ==> q.calls[k] == q.calls[..|p.calls|][k];
  }

  lemma SameTag(x: Slot, y: Slot, n: nat, p: Past)
    requires x.tag == y.tag
    ensures Handled(x, n, p) <==> Handled(y, n, p)
    ensures Written(x, n, p) <==> Written(y, n, p)
  {
  }

  lemma HandledSince(x: Slot, m: nat, n: nat, p: Past)
    requires n <= m
    ensures Handled(x, m, p) ==> Handled(x, n, p)
    ensures Written(x, m, p) ==> Written(x, n, p)
  {
  }

  lemma StillHandled(behave: nat -> Script, s: seq<Slot>, n: nat, p: Past, q: Past)
    requires Grows(behave, p, q)
    ensures forall j :: 0 <= j < |s| && Handled(s[j], n, p) ==> Handled(s[j], n, q)
    ensures forall j :: 0 <= j < |s| && Written(s[j], n, p) ==> Written(s[j], n, q)
  {
    forall j | 0 <= j < |s|
      ensures (Handled(s[j], n, p) ==> Handled(s[j], n, q)) && (Written(s[j], n, p) ==> Written(s[j], n, q))
    {
      HandledLater(behave, s[j], n, p, q);
    }
  }

  ghost predicate Called(x: Slot, n: nat, p: Past) {
    exists k :: n <= k < |p.calls| && p.calls[k].tag == x.tag
  }

  lemma CalledIsHandled(x: Slot, n: nat, p: Past)
    requires n < |p.calls| && p.calls[n].tag == x.tag
    ensures Handled(x, n, p) && Called(x, n, p)
  {
  }

  // No source awaiting removal has a write handler left.
  ghost predicate NoOrphan(s: seq<Slot>) {
    forall i :: 0 <= i < |s| && s[i].kind == Removed ==> !s[i].wfunc
  }

  // No other slot watches the descriptor of x.
  ghost predicate FdFree(s: seq<Slot>, i: nat, x: Slot)
    requires i < |s|
  {
    x.kind == Io ==>
      || (s[i].kind == Io && s[i].fd == x.fd)
      || (forall j :: 0 <= j < |s| && s[j].kind == Io ==> s[j].fd != x.fd)
  }

  lemma AddKeeps(s: seq<Slot>, i: nat, x: Slot, regs: nat, dead: set<nat>)
    requires Inv(s, regs, dead) && i < |s| && s[i].tag == 0
    requires x.tag == regs + 1 && x.kind == Empty
    ensures Inv(s[i := x], regs + 1, dead)
  {
    var t := s[i := x];
    forall k, l | 0 <= k < l < |t| ensures Apart(t[k], t[l]) {
      assert Apart(s[k], s[l]);
    }
  }

  // Rewriting one slot without changing its tag.
  lemma UpdateKeeps(s: seq<Slot>, i: nat, x: Slot, regs: nat, dead: set<nat>, dead': set<nat>)
    requires Inv(s, regs, dead) && i < |s| && x.tag == s[i].tag
    requires dead' == if x.kind == Removed && x.tag != 0 then dead + {x.tag} else dead
    requires x.tag != 0 ==> (x.kind == Removed <==> x.tag in dead')
    requires (x.tag == 0 ==> !Live(x.kind)) && (Live(x.kind) ==> x.func)
    requires FdFree(s, i, x)
    ensures Inv(s[i := x], regs, dead')
  {
    var t := s[i := x];
    forall k, l | 0 <= k < l < |t| ensures Apart(t[k], t[l]) {
      assert Apart(s[k], s[l]);
    }
    forall k | 0 <= k < |t| && t[k].tag != 0 ensures t[k].kind == Removed <==> t[k].tag in dead' {
      assert k < i ==> Apart(s[k], s[i]);
      assert i < k ==> Apart(s[i], s[k]);
    }
  }

  lemma ClearKeeps(s: seq<Slot>, i: nat, regs: nat, dead: set<nat>)
    requires Inv(s, regs, dead) && i < |s| && s[i].tag != 0
    ensures Inv(s[i := CLEAR], regs, dead + {s[i].tag})
  {
    var t := s[i := CLEAR];
    forall k, l | 0 <= k < l < |t| ensures Apart(t[k], t[l]) {
      assert Apart(s[k], s[l]);
    }
    forall k | 0 <= k < |t| && t[k].tag != 0
      ensures t[k].kind == Removed <==> t[k].tag in dead + {s[i].tag}
    {
      assert k < i ==> Apart(s[k], s[i]);
      assert i < k ==> Apart(s[i], s[k]);
    }
  }

  // A slot as the poll scan leaves it.
  ghost function Polled(x: Slot): Slot {
    if x.kind == Removed then CLEAR else if x.kind == Io then x.(ready := NONE) else x
  }

  // One entry given to poll: a descriptor, and whether output is asked for.
  datatype PollFd = PollFd(fd: int, out: bool)

  ghost function ListedFd(x: Slot): seq<PollFd> {
    if x.kind == Io then [PollFd(x.fd, x.wantOut)] else []
  }

  // The descriptors watched by the first n slots.
  ghost function FdsUpTo(s: seq<Slot>, n: nat): seq<PollFd>
    requires n <= |s|
  {
    if n == 0 then [] else FdsUpTo(s, n - 1) + ListedFd(s[n - 1])
  }

  // `fds` are the descriptors watched below n, no more; `lookup` maps each slot that watches one
  // to its entry, and all others to -1.
  ghost predicate Lists(s: seq<Slot>, n: nat, fds: seq<PollFd>, lookup: seq<int>) {
    && |lookup| == n <= |s| && fds == FdsUpTo(s, n)
    && (forall i :: 0 <= i < n ==> lookup[i] == if s[i].kind == Io then |FdsUpTo(s, i)| else -1)
    && (forall i :: 0 <= i < n ==> -1 <= lookup[i] < |fds|)
    && (forall i :: 0 <= i < n && lookup[i] >= 0 ==> fds[lookup[i]] == PollFd(s[i].fd, s[i].wantOut))
  }

  lemma ListsNone(s: seq<Slot>)
    ensures Lists(s, 0, [], [])
  {
  }

  lemma ListsStep(s: seq<Slot>, n: nat, fds: seq<PollFd>, lookup: seq<int>)
    requires n < |s| && Lists(s, n, fds, lookup)
    ensures Lists(s, n + 1, fds + ListedFd(s[n]),
                  lookup + [if s[n].kind == Io then |fds| else -1])
  {
  }

  lemma {:induction false} FdsPolled(s: seq<Slot>, s': seq<Slot>, n: nat)
    requires |s'| == |s| && n <= |s| && forall i :: 0 <= i < |s| ==> s'[i] == Polled(s[i])
    ensures FdsUpTo(s', n) == FdsUpTo(s, n)
  {
    if n > 0 {
      FdsPolled(s, s', n - 1);
    }
  }

  lemma ListsPolled(s: seq<Slot>, s': seq<Slot>, fds: seq<PollFd>, lookup: seq<int>)
    requires |s'| == |s| && Lists(s, |s|, fds, lookup)
    requires forall i :: 0 <= i < |s| ==> s'[i] == Polled(s[i])
    ensures Lists(s', |s|, fds, lookup)
  {
    forall n | 0 <= n <= |s| ensures FdsUpTo(s', n) == FdsUpTo(s, n) {
      FdsPolled(s, s', n);
    }
  }

  // The poll timeout as the scan of the first n slots computes it.
  ghost function Wait(s: seq<Slot>, n: nat, now: nat): int
    requires n <= |s|
  {
    if n == 0 then -1 else Shorter(Wait(s, n - 1, now), s[n - 1], now)
  }

  function Shorter(w: int, x: Slot, now: nat): int {
    if x.kind == Timeout && x.t > now && (w < 0 || x.t - now < w) then x.t - now else w
  }

  // `w` is the time left before the earliest deadline, or -1 when there is no timer.
  ghost predicate Exact(s: seq<Slot>, now: nat, w: int) {
    && (w == -1 || exists i :: 0 <= i < |s| && s[i].kind == Timeout && w == if s[i].t > now then s[i].t - now else 0)
    && forall i :: 0 <= i < |s| && s[i].kind == Timeout ==> 0 <= w <= if s[i].t > now then s[i].t - now else 0
  }

  ghost predicate TimersAfter(s: seq<Slot>, n: nat, now: nat) {
    forall i :: 0 <= i < |s| && i < n && s[i].kind == Timeout ==> s[i].t > now
  }

  // As the timer scan leaves a timer: due later, or set from `now` on.
  ghost predicate Rearmed(x: Slot, now: nat) {
    x.kind == Timeout ==> x.t > now || x.t >= now + x.delay
  }

  lemma RearmedIf(x: Slot, now: nat)
    ensures x.kind != Timeout || x.t > now || x.t == now + x.delay ==> Rearmed(x, now)
  {
  }

  // What a callback run for slot i leaves in all slots.
  lemma SlotsFollow(s: seq<Slot>, s': seq<Slot>, i: nat, cleared: bool, clock: nat, now: nat, acts: seq<Action>)
    requires FollowsBut(s, s', i, cleared, clock, acts) && now <= clock
    ensures |s| == |s'| && i < |s|
    ensures forall j :: 0 <= j < |s| && j != i ==> Keeps(s[j], s'[j])
    ensures forall j :: 0 <= j < |s| && j != i && Rearmed(s[j], now) ==> Rearmed(s'[j], now)
    ensures if cleared then s'[i] == CLEAR else Keeps(s[i], s'[i])
  {
    forall j | 0 <= j < |s| && j != i
      ensures Keeps(s[j], s'[j]) && (Rearmed(s[j], now) ==> Rearmed(s'[j], now))
    {
      assert Next(s[j], s'[j], clock, acts);
    }
  }

  lemma {:induction false} WaitBounds(s: seq<Slot>, n: nat, now: nat)
    requires n <= |s|
    ensures Wait(s, n, now) == -1 || Wait(s, n, now) > 0
    ensures Wait(s, n, now) > 0 ==>
              exists i :: 0 <= i < n && s[i].kind == Timeout && s[i].t - now == Wait(s, n, now)
    ensures forall i :: 0 <= i < n && s[i].kind == Timeout && s[i].t > now ==> 0 < Wait(s, n, now) <= s[i].t - now
  {
    if n > 0 {
      WaitBounds(s, n - 1, now);
    }
  }

  // The loop wakes up in time exactly when no live timer is already due at the poll.
  lemma WaitIsExactIff(s: seq<Slot>, now: nat)
    ensures Exact(s, now, Wait(s, |s|, now)) <==> TimersAfter(s, |s|, now)
  {
    WaitBounds(s, |s|, now);
  }

  lemma {:induction false} PolledKeepsWait(s: seq<Slot>, s': seq<Slot>, n: nat, now: nat)
    requires |s'| == |s| && n <= |s| && forall i :: 0 <= i < |s| ==> s'[i] == Polled(s[i])
    ensures Wait(s', n, now) == Wait(s, n, now)
    ensures forall i :: 0 <= i < |s| ==> (s'[i].kind == Timeout <==> s[i].kind == Timeout)
    ensures forall i :: 0 <= i < |s| && s[i].kind == Timeout ==> s'[i] == s[i]
  {
    if n > 0 {
      PolledKeepsWait(s, s', n - 1, now);
    }
  }

  // The timeout goes through poll's int parameter; a negative one waits for ever.
  function PollArg(timeout: int): int {
    var w := timeout % 0x1_0000_0000;
    if w < 0x8000_0000 then w else w - 0x1_0000_0000
  }

  ghost predicate AnyTimer(s: seq<Slot>) {
    exists i :: 0 <= i < |s| && s[i].kind == Timeout
  }

  // Some timer is due in less than 2^31 ms.
  ghost predicate Near(s: seq<Slot>, now: nat) {
    exists i :: 0 <= i < |s| && s[i].kind == Timeout && s[i].t - now < 0x8000_0000
  }

  // With no timer due already, what poll is given is the exact wait iff some timer is near, or
  // there is none.
  lemma PollExactIff(s: seq<Slot>, now: nat)
    requires TimersAfter(s, |s|, now)
    ensures Exact(s, now, PollArg(Wait(s, |s|, now))) <==> (AnyTimer(s) ==> Near(s, now))
  {
    var w := Wait(s, |s|, now);
    WaitBounds(s, |s|, now);
    WaitIsExactIff(s, now);
    if AnyTimer(s) {
      assert w > 0;
      var i :| 0 <= i < |s| && s[i].kind == Timeout && s[i].t - now == w;
      if Near(s, now) {
        var j :| 0 <= j < |s| && s[j].kind == Timeout && s[j].t - now < 0x8000_0000;
        assert w <= s[j].t - now;
      } else {
        assert w >= 0x8000_0000;
        assert PollArg(w) != w;
      }
    }
  }

  // A wait of w that starts at `from` ends `late` after the earliest deadline; it has no end iff
  // there is no timer.
  ghost predicate Wakes(s: seq<Slot>, from: nat, w: int, late: int) {
    if w == -1 then !AnyTimer(s)
    else
      && (exists i :: 0 <= i < |s| && s[i].kind == Timeout && from + w == s[i].t + late)
      && forall i :: 0 <= i < |s| && s[i].kind == Timeout ==> from + w <= s[i].t + late
  }

  // Delays of 1 ms to 2^31 less the time spent in callbacks before the poll: the wait given to
  // poll is the exact one counted from `now`. It starts at `clock`, and so ends that much late.
  lemma PollWakes(s: seq<Slot>, done: seq<Action>, now: nat, clock: nat, w: int)
    requires now <= clock && w == PollArg(Wait(s, |s|, now))
    requires forall i :: 0 <= i < |s| ==> Timely(s[i], done, clock) && Rearmed(s[i], now)
    requires DelaysWithin(done, 1, 0x7FFF_FFFF - (clock - now))
    ensures Exact(s, now, w) && Wakes(s, clock, w, clock - now)
  {
    forall i | 0 <= i < |s| && s[i].kind == Timeout ensures now < s[i].t <= now + 0x7FFF_FFFF {
      assert Timely(s[i], done, clock) && Rearmed(s[i], now);
    }
    PollExactIff(s, now);
  }

  // The callback run was for a source watched at the poll, and saw what poll said of its descriptor.
  ghost predicate Reported(s: seq<Slot>, lookup: seq<int>, ready: seq<Ready>, c: Call) {
    exists i :: 0 <= i < |s| && i < |lookup| && 0 <= lookup[i] < |ready|
      && c.tag == s[i].tag && c.fd == s[i].fd && c.ready == ready[lookup[i]] != NONE
  }

  // Every source whose descriptor was reported ready to read was called, or is removed; so was every
  // polled source reported ready in any way, unless a callback changed its watching meanwhile.
  ghost predicate AllServed(s: seq<Slot>, n: nat, lookup: seq<int>, ready: seq<Ready>, from: nat, p: Past,
                            acts: seq<Action>)
  {
    forall i :: 0 <= i < n && i < |s| && i < |lookup| && 0 <= lookup[i] < |ready|
                && (ready[lookup[i]].input || (ready[lookup[i]] != NONE && PolledUntouched(s[i], acts))) ==>
      Handled(s[i], from, p)
  }

  ghost predicate PolledUntouched(x: Slot, acts: seq<Action>) {
    x.kind == Io && x.poll && !Touches(acts, x.tag, x.fd)
  }

  // The write handler of every source whose descriptor was reported ready to write was called, or
  // the source is removed, unless a callback changed its handler or its watching meanwhile. A
  // source whose read callback returned 0 is removed.
  ghost predicate AllWritten(s: seq<Slot>, n: nat, lookup: seq<int>, ready: seq<Ready>, from: nat, p: Past,
                             acts: seq<Action>)
  {
    forall i :: 0 <= i < n && i < |s| && i < |lookup| && 0 <= lookup[i] < |ready| && ready[lookup[i]].output
                && Awaits(s[i]) && !Touches(acts, s[i].tag, s[i].fd) ==>
      Written(s[i], from, p)
  }

  // Every expired timer was called or is removed.
  ghost predicate AllExpired(s: seq<Slot>, n: nat, now: nat, from: nat, p: Past) {
    forall i :: 0 <= i < n && i < |s| && s[i].kind == Timeout && s[i].t <= now ==> Handled(s[i], from, p)
  }

  // Every watcher of a child that ended is gone, after its callback ran unless a request removed it.
  ghost predicate AllReaped(s: seq<Slot>, n: nat, pid: int, dead: set<nat>) {
    forall i :: 0 <= i < n && i < |s| && s[i].kind == Child && s[i].pid == pid ==> s[i].tag in dead
  }

  lemma InputReported(s: seq<Slot>, i: nat, lookup: seq<int>, ready: seq<Ready>, c: Call)
    requires i < |s| && i < |lookup| && 0 <= lookup[i] < |ready| && ready[lookup[i]] != NONE
    requires c.tag == s[i].tag && c.fd == s[i].fd && c.ready == ready[lookup[i]]
    ensures Reported(s, lookup, ready, c)
  {
  }

  // What the timer scan makes of a slot when no callback asks for anything or stops.
  function Restarted(x: Slot, now: nat): Slot {
    if x.kind == Timeout && x.t <= now then (if x.func then x.(t := now + x.delay) else CLEAR) else x
  }

  // A moment of a turn: the table, the time, the descriptors given to poll, the calls made before.
  datatype Moment = Moment(table: seq<Slot>, clock: nat, fds: seq<PollFd>, entries: seq<int>, called: nat)

  // A call of poll: when, for what time, with what timeout.
  datatype Sleep = Sleep(at: Moment, now: nat, arg: int)

  function Reports(poll: nat -> Ready, n: nat): seq<Ready> {
    seq(n, k requires 0 <= k < n => poll(k))
  }
}
