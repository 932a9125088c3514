// The event loop (os/linux/sys.c): a table of sources scanned while their callbacks add and
// remove sources.
module EventLoop {
  import opened Wrappers
  import opened EventTable

  class Loop {
    const sources: array<Slot>
    const behave: nat -> Script    // what the n-th callback run does
    var ncalls: nat
    var lastTag: nat
    var clock: nat
    var quit: bool
    ghost var table: seq<Slot>     // the contents of `sources`
    ghost var regs: nat            // registrations so far
    ghost var dead: set<nat>       // tags removed or finished
    ghost var calls: seq<Call>
    ghost var done: seq<Action>    // everything asked of the loop so far
    ghost var bound: set<(nat, int)>    // which tag was given out for which descriptor
    ghost var worlds: seq<World>   // those in which the callback runs began
    // A source awaits removal with a write handler, or did.
    ghost var orphaned: bool

    // Below 2^32 registrations the table is consistent, and every callback run happened on a
    // source not removed before, unless a write handler was orphaned.
    ghost predicate Valid()
      reads this, sources
    {
      && sources.Length == NSOURCES && sources[..] == table && |calls| == |worlds| == ncalls
      && (regs < TAGS ==> lastTag == regs && Inv(table, regs, dead))
      && (regs < TAGS && !orphaned ==> forall c :: c in calls ==> !c.late)
      && Lawful(table, done, bound, orphaned, clock)
    }

    ghost function Here(): World
      reads this
    {
      World(table, lastTag, clock, quit)
    }

    ghost function Now(): Past
      reads this
    {
      Past(calls, worlds, dead, done, bound, orphaned, regs, clock)
    }

    constructor (behave: nat -> Script)
      ensures Valid() && fresh(sources) && this.behave == behave
      ensures regs == 0 && ncalls == 0 && calls == [] && done == [] && bound == {} && clock == 0 && lastTag == 0
      ensures !orphaned && dead == {} && !quit
      ensures |table| == NSOURCES && forall i :: 0 <= i < NSOURCES ==> table[i] == CLEAR
    {
      this.behave := behave;
      sources := new Slot[NSOURCES](_ => CLEAR);
      ncalls, lastTag, clock, quit := 0, 0, 0, false;
      regs, dead, calls, done, orphaned := 0, {}, [], [], false;
      bound, worlds := {}, [];
      table := seq(NSOURCES, _ => CLEAR);
    }

    // ------------------------------------------------------------ the table

    // sys_source_add
    method SourceAdd() returns (r: Option<nat>)
      requires Valid()
      modifies this`lastTag, this`regs, this`table, sources
      ensures Valid() && old(regs) <= regs <= old(regs) + 1
      ensures r == None ==> regs == old(regs) && table == old(table) && lastTag == old(lastTag)
                            && FirstTag(table, 0) == NSOURCES
      ensures r.Some? ==>
                && r.value == FirstTag(old(table), 0) < NSOURCES
                && lastTag == (old(lastTag) + 1) % TAGS
                && table == old(table)[r.value := CLEAR.(tag := lastTag, func := true)]
                && (regs < TAGS ==> 0 < lastTag && lastTag !in dead)
    {
      hide Lawful;
      var i := 0;
      while i < NSOURCES && sources[i].tag != 0
        invariant 0 <= i <= NSOURCES && FirstTag(table, 0) == FirstTag(table, 0, i)
      {
        i := i + 1;
      }
      if i == NSOURCES {
        return None;
      }
      ghost var s := table;
      lastTag := (lastTag + 1) % TAGS;
      regs := regs + 1;
      sources[i] := CLEAR.(tag := lastTag, func := true);
      table := table[i := sources[i]];
      LawfulSet(s, i, table[i], done, bound, orphaned, clock);
      if regs < TAGS {
        AddKeeps(s, i, table[i], regs - 1, dead);
      }
      return Some(i);
    }

    // sys_retrieve; tag 0 finds the first free slot
    method Retrieve(tag: nat) returns (r: Option<nat>)
      requires Valid()
      ensures FirstTag(table, tag) == if r.Some? then r.value else NSOURCES
      ensures r.Some? ==> r.value < NSOURCES
    {
      for i := 0 to NSOURCES
        invariant FirstTag(table, tag) == FirstTag(table, tag, i)
      {
        if sources[i].tag == tag {
          return Some(i);
        }
      }
      return None;
    }

    // sys_retrieve_fd
    method RetrieveFd(fd: int) returns (r: Option<nat>)
      requires Valid()
      ensures FirstFd(table, fd) == if r.Some? then r.value else NSOURCES
      ensures r.Some? ==> r.value < NSOURCES
    {
      for i := 0 to NSOURCES
        invariant FirstFd(table, fd) == FirstFd(table, fd, i)
      {
        if sources[i].kind == Io && sources[i].fd == fd {
          return Some(i);
        }
      }
      return None;
    }

    // Rewrite one slot; its tag stays.
    method Put(i: nat, x: Slot)
      requires Valid() && i < NSOURCES && x.tag == table[i].tag && SlotLawful(table[i], x, done, bound, clock)
      requires regs < TAGS ==>
                 && (x.tag != 0 && x.kind != Removed ==> x.tag !in dead)
                 && (x.tag == 0 ==> !Live(x.kind)) && (Live(x.kind) ==> x.func)
                 && FdFree(table, i, x)
      modifies this`dead, this`orphaned, this`table, sources
      ensures Valid() && table == old(table)[i := x]
      ensures orphaned == (old(orphaned) || (x.kind == Removed && x.wfunc))
      ensures dead == if x.kind == Removed && x.tag != 0 then old(dead) + {x.tag} else old(dead)
    {
      hide Lawful, SlotLawful;
      ghost var s, d := table, dead;
      LawfulSet(s, i, x, done, bound, orphaned, clock);
      orphaned := orphaned || (x.kind == Removed && x.wfunc);
      if x.kind == Removed && x.tag != 0 {
        dead := dead + {x.tag};
      }
      sources[i] := x;
      table := table[i := x];
      if regs < TAGS {
        UpdateKeeps(s, i, x, regs, d, dead);
      }
    }

    // A request goes on record, and perhaps the tag given out for a descriptor.
    ghost method Record(a: Action, more: set<(nat, int)>)
      requires Valid()
      modifies this`done, this`bound
      ensures Valid() && done == old(done) + [a] && a in done && bound == old(bound) + more
      ensures more == {} ==> bound == old(bound)
      ensures Lawful(table, old(done), old(bound), orphaned, clock)
      ensures HandlersFirst(done, bound) ==> HandlersFirst(old(done), old(bound))
    {
      hide Inv, Lawful, HandlersFirst;
      LawfulLater(table, done, [a], bound, bound + more, orphaned, clock, clock);
      done, bound := done + [a], bound + more;
    }

    // sys_remove
    method SysRemove(tag: nat)
      requires Valid()
      modifies this`dead, this`orphaned, this`done, this`bound, this`table, sources
      ensures Valid() && Here() == Act(Remove(tag), old(Here())) && old(dead) <= dead && old(bound) <= bound
      ensures regs < TAGS ==> DeadBy(old(dead), dead, [Remove(tag)], bound)
      ensures orphaned == old(orphaned) && done == old(done) + [Remove(tag)]
    {
      hide FirstTag, NoOrphan, Lawful, HandlersFirst, NoHandlers;
      Record(Remove(tag), {});
      var r := Retrieve(tag);
      if r.Some? {
        SlotIsLawful(r.value);
        Put(r.value, sources[r.value].(kind := Removed, func := false, wfunc := false));
      }
    }

    // sys_remove_fd: unlike sys_remove it leaves the write handler in place
    method SysRemoveFd(fd: int)
      requires Valid()
      modifies this`dead, this`orphaned, this`done, this`bound, this`table, sources
      ensures Valid() && Here() == Act(RemoveFd(fd), old(Here())) && old(dead) <= dead && old(bound) <= bound
      ensures regs < TAGS ==> DeadBy(old(dead), dead, [RemoveFd(fd)], bound)
      ensures orphaned == (old(orphaned) || Orphans(RemoveFd(fd), old(table)))
      ensures done == old(done) + [RemoveFd(fd)]
    {
      hide FirstFd, NoOrphan, Lawful, NoHandlers;
      Record(RemoveFd(fd), {});
      var r := RetrieveFd(fd);
      if r.Some? {
        SlotIsLawful(r.value);
        Put(r.value, sources[r.value].(kind := Removed, func := false));
      }
    }

    lemma SlotIsLawful(i: nat)
      requires Valid() && i < NSOURCES
      ensures Timely(table[i], done, clock)
      ensures table[i].wfunc ==> WriteHandler(table[i].tag, true) in done
      ensures table[i].kind == Io ==> (table[i].tag, table[i].fd) in bound
      ensures !orphaned && table[i].kind == Removed ==> !table[i].wfunc
    {
    }

    // sys_io_source_add: an already watched descriptor keeps its slot, and its callback
    method IoSourceAdd(fd: int, poll: bool, out: bool)
      requires Valid()
      modifies this`lastTag, this`regs, this`dead, this`orphaned, this`bound, this`table, sources
      ensures Valid() && Here() == Watching(old(Here()), fd, poll, out)
      ensures orphaned == old(orphaned) && old(regs) <= regs <= old(regs) + 1 && dead == old(dead) && old(bound) <= bound
    {
      hide FirstTag, FirstFd, NoOrphan, Lawful, HandlersFirst, NoHandlers;
      var r := RetrieveFd(fd);
      if r == None {
        r := SourceAdd();
      }
      if r.Some? {
        WatchWith(r.value, fd, poll, out);
      }
    }

    // Slot i is set to watch that descriptor.
    method WatchWith(i: nat, fd: int, poll: bool, out: bool)
      requires Valid() && i < NSOURCES && table[i].kind in {Io, Empty}
      requires regs < TAGS ==>
                 0 < table[i].tag && table[i].tag !in dead && table[i].func && FdFree(table, i, table[i].(kind := Io, fd := fd))
      modifies this`dead, this`orphaned, this`bound, this`table, sources
      ensures Valid() && orphaned == old(orphaned) && dead == old(dead) && old(bound) <= bound
      ensures table == old(table)[i := old(table)[i].(kind := Io, fd := fd, wantOut := out, ready := NONE, poll := poll)]
    {
      hide Lawful, Inv;
      Bind(sources[i].tag, fd);
      SlotIsLawful(i);
      Put(i, sources[i].(kind := Io, fd := fd, wantOut := out, ready := NONE, poll := poll));
    }

    // A tag is given out for a descriptor.
    ghost method Bind(tag: nat, fd: int)
      requires Valid()
      modifies this`bound
      ensures Valid() && bound == old(bound) + {(tag, fd)}
    {
      hide Inv, Lawful;
      LawfulLater(table, done, [], bound, bound + {(tag, fd)}, orphaned, clock, clock);
      assert done + [] == done;
      bound := bound + {(tag, fd)};
    }

    // sys_io_watch
    method SysIoWatch(fd: int)
      requires Valid()
      modifies this`lastTag, this`regs, this`dead, this`orphaned, this`done, this`bound, this`table, sources
      ensures Valid() && Here() == Act(Watch(fd), old(Here())) && old(dead) <= dead && old(bound) <= bound
      ensures regs < TAGS ==> DeadBy(old(dead), dead, [Watch(fd)], bound)
      ensures orphaned == old(orphaned) && old(regs) <= regs <= old(regs) + 1 && done == old(done) + [Watch(fd)]
    {
      hide Watching, Inv, Lawful, HandlersFirst;
      Record(Watch(fd), {});
      IoSourceAdd(fd, false, false);
    }

    // sys_io_poll; `out` tells whether writing is among the events asked for
    method SysIoPoll(fd: int, out: bool)
      requires Valid()
      modifies this`lastTag, this`regs, this`dead, this`orphaned, this`done, this`bound, this`table, sources
      ensures Valid() && Here() == Act(Poll(fd, out), old(Here())) && old(dead) <= dead && old(bound) <= bound
      ensures regs < TAGS ==> DeadBy(old(dead), dead, [Poll(fd, out)], bound)
      ensures orphaned == old(orphaned) && old(regs) <= regs <= old(regs) + 1 && done == old(done) + [Poll(fd, out)]
    {
      hide Watching, Inv, Lawful, HandlersFirst;
      Record(Poll(fd, out), {});
      IoSourceAdd(fd, true, out);
    }

    // sys_io_write_handler, on a source of I/O or a slot awaiting removal
    method SysIoWriteHandler(tag: nat, on: bool)
      requires Valid()
      modifies this`dead, this`orphaned, this`done, this`bound, this`table, sources
      ensures Valid() && Here() == Act(WriteHandler(tag, on), old(Here())) && old(dead) <= dead && old(bound) <= bound
      ensures regs < TAGS ==> DeadBy(old(dead), dead, [WriteHandler(tag, on)], bound)
      ensures orphaned == (old(orphaned) || Orphans(WriteHandler(tag, on), old(table)))
      ensures done == old(done) + [WriteHandler(tag, on)]
    {
      hide FirstTag, NoOrphan, Lawful;
      ghost var before := done;
      Record(WriteHandler(tag, on), {});
      var r := Retrieve(tag);
      if r.Some? && sources[r.value].kind in {Io, Removed, Empty} {
        HandlerAllowed(r.value, before, WriteHandler(tag, on));
        SlotIsLawful(r.value);
        Put(r.value, sources[r.value].(wantOut := on, wfunc := on));
      }
    }

    // A slot awaiting removal may be given a handler only if that is not ruled out.
    lemma HandlerAllowed(i: nat, before: seq<Action>, a: Action)
      requires i < |table| && Lawful(table, before, bound, orphaned, clock) && done == before + [a]
      requires a.WriteHandler? && a.tag == table[i].tag
      requires HandlersFirst(done, bound) ==> HandlersFirst(before, bound)
      ensures HandlersFirst(done, bound) && table[i].kind == Removed ==> !a.on
      ensures HandlersFirst(done, bound) && table[i].kind == Removed && table[i].tag != 0 ==> Gone(table[i], done, bound)
    {
      assert done[|before|] == a && done[..|before|] == before;
      assert forall c <- before :: c in done;
      assert a in done;
    }

    // The common part of sys_timeout, sys_child_watch and sys_quit_handler.
    method AddOther(kind: Kind, delay: nat, t: nat, pid: int)
      requires Valid() && kind in {Timeout, Child, Quit}
      requires kind == Timeout ==> t == clock + delay && exists dt :: AddTimeout(delay, dt) in done
      modifies this`lastTag, this`regs, this`dead, this`orphaned, this`table, sources
      ensures Valid() && orphaned == old(orphaned) && old(regs) <= regs <= old(regs) + 1 && dead == old(dead)
      ensures Here() == Adding(old(Here()), CLEAR.(kind := kind, delay := delay, t := t, pid := pid))
    {
      hide FirstTag, NoOrphan, Lawful, HandlersFirst, NoHandlers;
      var r := SourceAdd();
      if r.Some? {
        Put(r.value, sources[r.value].(kind := kind, delay := delay, t := t, pid := pid));
      }
    }

    // sys_timeout, when `dt` passes before the clock is read
    method SysTimeout(delay: nat, dt: nat)
      requires Valid()
      modifies this`lastTag, this`regs, this`dead, this`orphaned, this`done, this`bound, this`clock, this`table, sources
      ensures Valid() && Here() == Act(AddTimeout(delay, dt), old(Here())) && old(dead) <= dead && old(bound) <= bound
      ensures regs < TAGS ==> DeadBy(old(dead), dead, [AddTimeout(delay, dt)], bound)
      ensures orphaned == old(orphaned) && old(regs) <= regs <= old(regs) + 1 && done == old(done) + [AddTimeout(delay, dt)]
    {
      hide Adding, Inv, Lawful, HandlersFirst;
      Record(AddTimeout(delay, dt), {});
      LawfulLater(table, done, [], bound, bound, orphaned, clock, clock + dt);
      assert done + [] == done;
      clock := clock + dt;
      AddOther(Timeout, delay, delay + clock, 0);
    }

    // sys_child_watch
    method SysChildWatch(pid: int)
      requires Valid()
      modifies this`lastTag, this`regs, this`dead, this`orphaned, this`done, this`bound, this`table, sources
      ensures Valid() && Here() == Act(AddChild(pid), old(Here())) && old(dead) <= dead && old(bound) <= bound
      ensures regs < TAGS ==> DeadBy(old(dead), dead, [AddChild(pid)], bound)
      ensures orphaned == old(orphaned) && old(regs) <= regs <= old(regs) + 1 && done == old(done) + [AddChild(pid)]
    {
      hide Adding, Inv, Lawful, HandlersFirst;
      Record(AddChild(pid), {});
      AddOther(Child, 0, 0, pid);
    }

    // sys_quit_handler
    method SysQuitHandler()
      requires Valid()
      modifies this`lastTag, this`regs, this`dead, this`orphaned, this`done, this`bound, this`table, sources
      ensures Valid() && Here() == Act(AddQuit, old(Here())) && old(dead) <= dead && old(bound) <= bound
      ensures regs < TAGS ==> DeadBy(old(dead), dead, [AddQuit], bound)
      ensures orphaned == old(orphaned) && old(regs) <= regs <= old(regs) + 1 && done == old(done) + [AddQuit]
    {
      hide Adding, Inv, Lawful, HandlersFirst;
      Record(AddQuit, {});
      AddOther(Quit, 0, 0, 0);
    }

    // sys_quit
    method SysQuit()
      requires Valid()
      modifies this`done, this`bound, this`quit
      ensures Valid() && Here() == Act(RequestQuit, old(Here())) && done == old(done) + [RequestQuit] && bound == old(bound)
    {
      hide Inv, Lawful, HandlersFirst;
      Record(RequestQuit, {});
      quit := true;
    }

    // ------------------------------------------------------------ callbacks

    // A write handler is orphaned by the two requests that do so, and by no other.
    method Apply(a: Action)
      requires Valid()
      modifies this`lastTag, this`regs, this`dead, this`orphaned, this`done, this`bound, this`clock, this`quit, this`table, sources
      ensures Valid() && Here() == Act(a, old(Here())) && old(dead) <= dead && old(bound) <= bound && old(regs) <= regs <= old(regs) + 1
      ensures regs < TAGS ==> DeadBy(old(dead), dead, [a], bound)
      ensures orphaned == (old(orphaned) || Orphans(a, old(table))) && done == old(done) + [a]
    {
      hide FirstTag, FirstFd, Act, Inv, NoOrphan, Lawful;
      match a
      case Remove(tag) => SysRemove(tag);
      case RemoveFd(fd) => SysRemoveFd(fd);
      case Watch(fd) => SysIoWatch(fd);
      case Poll(fd, out) => SysIoPoll(fd, out);
      case WriteHandler(tag, on) => SysIoWriteHandler(tag, on);
      case AddTimeout(delay, dt) => SysTimeout(delay, dt);
      case AddChild(pid) => SysChildWatch(pid);
      case AddQuit => SysQuitHandler();
      case RequestQuit => SysQuit();
    }

    // The requests of a script take effect, in order.
    method Perform(acts: seq<Action>)
      requires Valid()
      modifies this`lastTag, this`regs, this`dead, this`orphaned, this`done, this`bound, this`clock, this`quit, this`table, sources
      ensures Valid() && Here() == Acts(acts, old(Here()))
      ensures orphaned == (old(orphaned) || Orphaning(acts, old(Here())))
      ensures done == old(done) + acts && old(dead) <= dead && old(bound) <= bound
      ensures regs < TAGS ==> DeadBy(old(dead), dead, acts, bound)
      ensures old(regs) <= regs <= old(regs) + |acts|
    {
      hide Inv, NoOrphan, Act, Lawful, Orphans;
      ghost var w := Here();
      DeadByNothing(dead, acts[..0], bound);
      var k := 0;
      while k < |acts|
        invariant 0 <= k <= |acts| && Valid()
        invariant Acts(acts, w) == Acts(acts, Here(), k)
        invariant (orphaned || Orphaning(acts, Here(), k)) == (old(orphaned) || Orphaning(acts, w))
        invariant old(dead) <= dead && old(bound) <= bound && done == old(done) + acts[..k]
        invariant regs < TAGS ==> DeadBy(old(dead), dead, acts[..k], bound)
        invariant old(regs) <= regs <= old(regs) + k
      {
        ghost var d, b := dead, bound;
        Apply(acts[k]);
        if regs < TAGS {
          DeadByMore(old(dead), d, dead, acts[..k], [acts[k]], b, bound);
          assert acts[..k] + [acts[k]] == acts[..k + 1];
        }
        k := k + 1;
      }
      assert acts[..k] == acts;
    }

    // Run the callback of slot i: its requests take effect, in order, and no slot in use is given
    // to another source.
    method Invoke(i: nat, write: bool) returns (ret: int)
      requires Valid() && i < NSOURCES
      requires regs < TAGS && !orphaned ==> table[i].tag !in dead
      modifies this, sources
      ensures Valid() && Grows(behave, old(Now()), Now())
      ensures Here() == Acts(behave(old(ncalls)).acts, old(Here())) && ret == behave(old(ncalls)).ret
      ensures orphaned == (old(orphaned) || Orphaning(behave(old(ncalls)).acts, old(Here())))
      ensures worlds == old(worlds) + [old(Here())]
      ensures calls == old(calls) + [old(Call(table[i].tag, table[i].kind, write, table[i].fd,
                                              table[i].ready, table[i].tag in dead))]
      ensures Follows(old(table), table, old(clock), Performed(behave, old(ncalls), ncalls))
    {
      hide Inv, NoOrphan, Acts, Orphaning, Follows, Lawful;
      var script := behave(ncalls);
      ghost var x, w := table[i], Here();
      calls := calls + [Call(x.tag, x.kind, write, x.fd, x.ready, x.tag in dead)];
      worlds := worlds + [w];
      ncalls := ncalls + 1;
      Perform(script.acts);
      assert forall k :: old(ncalls) <= k < ncalls ==> k == old(ncalls) && worlds[k] == w;
      ActsFollow(script.acts, w, 0);
      assert script.acts[0..] == script.acts;
      assert Performed(behave, old(ncalls), ncalls) == [] + script.acts == script.acts;
      ret := script.ret;
    }

    // sys_source_clear on a slot in use
    method Clear(i: nat)
      requires Valid() && i < NSOURCES
      modifies this`dead, this`table, sources
      ensures Valid() && table == old(table)[i := CLEAR]
      ensures dead == if old(table[i].tag) == 0 then old(dead) else old(dead) + {old(table[i].tag)}
    {
      hide Lawful;
      ghost var s, d := table, dead;
      ghost var tag := table[i].tag;
      sources[i] := CLEAR;
      table := table[i := CLEAR];
      LawfulSet(s, i, CLEAR, done, bound, orphaned, clock);
      if tag != 0 {
        dead := dead + {tag};
        if regs < TAGS {
          ClearKeeps(s, i, regs, d);
        }
      }
    }

    // The write half of sys_callback.
    method WriteBack(i: nat)
      requires Valid() && i < NSOURCES
      modifies this, sources
      ensures Valid() && Grows(behave, old(Now()), Now())
      ensures Follows(old(table), table, old(clock), Performed(behave, old(ncalls), ncalls))
      ensures calls == old(calls) +
                if old(table[i].ready.output && table[i].wfunc)
                then [old(Call(table[i].tag, table[i].kind, true, table[i].fd,
                               table[i].ready, table[i].tag in dead))]
                else []
      ensures Here() == Stopping(i, StopsOutput(old(table)[i], old(ncalls)),
                                 Acts(WriteActs(i, old(table), old(ncalls)), old(Here())))
    {
      hide Lawful, Follows, Grows, Performed, NoOrphan, Acts;
      assert Acts([], Here()) == Here() by {
        NothingDone(behave, Here(), ncalls);
      }
      ghost var s, p := table, Now();
      GrowsSelf(behave, p);
      FollowsSelf(s, clock);
      SlotIsLawful(i);
      NothingAsked(ncalls);
      if sources[i].ready.output {
        var cont := 0;
        if sources[i].wfunc {
          cont := Invoke(i, true);
        }
        if cont == 0 {
          ghost var m, q, acts := table, Now(), Performed(behave, |p.calls|, ncalls);
          GrowsLonger(behave, p, q);
          StopWriting(i);
          AfterClear(p, q, CLEAR);
          FollowsOn(s, m, table, p.clock, clock, acts, []);
          assert acts + [] == acts;
        }
      }
    }

    lemma NothingAsked(n: nat)
      ensures Performed(behave, n, n) == []
    {
    }

    // The descriptor is no longer watched for writing.
    method StopWriting(i: nat)
      requires Valid() && i < NSOURCES
      modifies this`dead, this`orphaned, this`table, sources
      ensures Valid() && old(dead) <= dead && Now() == old(Now()).(dead := dead) && (regs < TAGS ==> dead == old(dead))
      ensures Follows(old(table), table, clock, [])
      ensures Here() == Stopping(i, true, old(Here()))
    {
      hide Lawful, Follows;
      ghost var m := table;
      SlotIsLawful(i);
      Put(i, sources[i].(wantOut := false));
      SetFollows(m, i, table[i], clock, []);
    }

    // What the write handler of slot i does: nothing, when it does not run.
    ghost function WriteActs(i: nat, s: seq<Slot>, n: nat): seq<Action>
      requires i < |s|
    {
      if s[i].ready.output && s[i].wfunc then behave(n).acts else []
    }

    // The number of callback runs once the one that reads has returned.
    ghost function AfterRead(i: nat, s: seq<Slot>, n: nat): nat
      requires i < |s|
    {
      if s[i].ready.input then n + 1 else n
    }

    // Output was possible, and there is no handler or it said that it has finished.
    ghost predicate StopsOutput(x: Slot, n: nat) {
      x.ready.output && (!x.wfunc || behave(n).ret == 0)
    }

    // Output is no longer asked for, if c.
    ghost function Stopping(i: nat, c: bool, w: World): World {
      if c && i < |w.table| then w.(table := w.table[i := w.table[i].(wantOut := false)]) else w
    }

    // What the callback does that comes first for slot i: nothing, when there is nothing to read.
    ghost function FirstActs(i: nat, s: seq<Slot>, n: nat): seq<Action>
      requires i < |s|
    {
      if s[i].ready.input then behave(n).acts else []
    }

    // A callback of slot i begun in world w is followed by its write handler though it left the slot
    // awaiting removal.
    ghost predicate LateAt(i: nat, w: World, n: nat)
      requires i < |w.table|
    {
      var after := Acts(FirstActs(i, w.table, n), w).table;
      && (w.table[i].ready.input ==> behave(n).ret != 0)
      && i < |after| && after[i].kind == Removed && after[i].wfunc && after[i].ready.output
    }

    // The read half of sys_callback. `mid` is the slot it leaves.
    method ReadFront(i: nat) returns (ret: int, ghost mid: Slot)
      requires Valid() && i < NSOURCES && table[i].kind == Io && table[i].func && !table[i].poll
      modifies this, sources
      ensures Valid() && Grows(behave, old(Now()), Now())
      ensures Follows(old(table), table, old(clock), Performed(behave, old(ncalls), ncalls))
      ensures Here() == Acts(FirstActs(i, old(table), old(ncalls)), old(Here())) && mid == table[i]
      ensures calls == old(calls) + if old(table[i].ready.input)
                                    then [old(Call(table[i].tag, Io, false, table[i].fd,
                                                   table[i].ready, table[i].tag in dead))] else []
      ensures ret == if old(table[i].ready.input) then behave(old(ncalls)).ret else -1
    {
      hide Follows, Lawful, Acts, Performed, Grows;
      ret := -1;
      GrowsSelf(behave, Now());
      FollowsSelf(table, clock);
      assert Acts([], Here()) == Here() && Performed(behave, ncalls, ncalls) == [] by {
        NothingDone(behave, Here(), ncalls);
      }
      if sources[i].ready.input {
        ret := Invoke(i, false);
      }
      mid := table[i];
    }

    // sys_callback on a watched descriptor: the read callback, then possibly the write handler.
    // `mid` is the slot after the read callback. The source is invoked after its removal exactly
    // when that callback keeps going and leaves its slot awaiting removal with a write handler,
    // while output is possible.
    method IoCallback(i: nat) returns (ret: int, ghost mid: Slot)
      requires Valid() && i < NSOURCES && table[i].kind == Io && table[i].func && !table[i].poll
      modifies this, sources
      ensures Valid() && Grows(behave, old(Now()), Now()) && ncalls <= old(ncalls) + 2
      ensures Follows(old(table), table, old(clock), Performed(behave, old(ncalls), ncalls))
      ensures regs < TAGS ==> AllRunFor(old(table)[i], old(calls), calls)
      ensures regs < TAGS ==>
                ((exists n :: |old(calls)| <= n < |calls| && calls[n].late) <==>
                  ret != 0 && mid.kind == Removed && mid.wfunc && mid.ready.output)
      ensures regs < TAGS ==>
                ((exists n :: |old(calls)| <= n < |calls| && calls[n].late) <==> LateAt(i, old(Here()), old(ncalls)))
      ensures |old(table)| == NSOURCES == |Acts(FirstActs(i, old(table), old(ncalls)), old(Here())).table|
      ensures mid == Acts(FirstActs(i, old(table), old(ncalls)), old(Here())).table[i]
      ensures regs < TAGS ==>
                calls == old(calls) + ReadCall(old(table[i]), old(dead)) + (if ret != 0 then WriteCall(mid) else [])
      ensures ret == if !old(table[i].ready.input) then 1 else if behave(old(ncalls)).ret == 0 then 0 else 1
      ensures regs < TAGS && Awaits(old(table)[i]) && old(table)[i].ready.output
              && !Touches(Performed(behave, old(ncalls), ncalls), old(table)[i].tag, old(table)[i].fd) ==>
                ret == 0 || Written(old(table)[i], |old(calls)|, Now())
      ensures ret == 0 ==> Here() == Acts(FirstActs(i, old(table), old(ncalls)), old(Here()))
      ensures ret != 0 ==>
                var w, n := Acts(FirstActs(i, old(table), old(ncalls)), old(Here())), AfterRead(i, old(table), old(ncalls));
                Here() == Stopping(i, StopsOutput(mid, n), Acts(WriteActs(i, w.table, n), w))
      ensures ret != 0 && mid.ready.output && (!mid.wfunc || behave(AfterRead(i, old(table), old(ncalls))).ret == 0) ==>
                !table[i].wantOut
      ensures regs < TAGS && ret != 0 && old(table)[i].ready.output
              && !Touches(Performed(behave, old(ncalls), ncalls), old(table)[i].tag, old(table)[i].fd)
              && Drained(behave, old(table)[i], |old(calls)|, calls) ==>
                Off(old(table)[i], table[i], dead)
    {
      hide Lawful, Follows, Acts, Grows, Performed, NoOrphan, AllRunFor, Written, Touches, Drained, Off;
      ghost var x, p, s := table[i], Now(), table;
      ret, mid := ReadFront(i);
      ghost var q, m := Now(), table;
      FollowsAt(s, m, i, p.clock, Performed(behave, |p.calls|, |q.calls|));
      GrowsLonger(behave, p, q);
      if ret != 0 {
        WriteBack(i);
        ret := 1;
        Composed(s, m, p, q);
        GrowsLonger(behave, q, Now());
        if regs < TAGS {
          assert calls == q.calls + WriteCall(mid);
          OutputHalf(i, s, m, p, q);
        }
      }
      if regs < TAGS {
        IoCalls(x, mid, p.calls, calls, ret != 0, p.dead);
      }
    }

    // What comes of a descriptor ready to write that no request concerned, which was in slot i of s
    // when its callbacks began, and of m when the one that reads had returned.
    lemma OutputHalf(i: nat, s: seq<Slot>, m: seq<Slot>, p: Past, q: Past)
      requires Valid() && regs < TAGS && i < NSOURCES == |s| && |p.calls| <= |q.calls| <= ncalls
      requires s[i].kind == Io && s[i].tag != 0 && |m| == |s|
      requires Follows(s, m, p.clock, Performed(behave, |p.calls|, |q.calls|))
      requires Follows(m, table, q.clock, Performed(behave, |q.calls|, ncalls))
      requires m[i].kind == Removed && m[i].tag != 0 ==> m[i].tag in dead
      requires table[i].kind == Removed && table[i].tag != 0 ==> table[i].tag in dead
      requires q.calls == p.calls + ReadCall(s[i], p.dead) && calls == q.calls + WriteCall(m[i])
      requires StopsOutput(m[i], |q.calls|) ==> !table[i].wantOut
      ensures s[i].ready.output && !Touches(Performed(behave, |p.calls|, ncalls), s[i].tag, s[i].fd) ==>
                && (Awaits(s[i]) ==> Written(s[i], |p.calls|, Now()))
                && (Drained(behave, s[i], |p.calls|, calls) ==> Off(s[i], table[i], dead))
    {
      hide Inv, Lawful, Follows, Written, Drained, Off, Touches, Performed;
      var x, mid := s[i], m[i];
      if x.ready.output && !Touches(Performed(behave, |p.calls|, ncalls), x.tag, x.fd) {
        LaterTouch(behave, |p.calls|, |q.calls|, ncalls, x.tag, x.fd);
        FollowsAt(s, m, i, p.clock, Performed(behave, |p.calls|, |q.calls|));
        FollowsAt(m, table, i, q.clock, Performed(behave, |q.calls|, ncalls));
        if Awaits(x) {
          IoWritten(x, mid, q.calls, Now());
        }
        if Drained(behave, x, |p.calls|, calls) {
          IoStops(behave, x, mid, table[i], p.calls, p.dead, Now());
        }
      }
    }

    // Two stretches of a run make one.
    lemma Composed(s: seq<Slot>, m: seq<Slot>, p: Past, q: Past)
      requires |p.calls| <= |q.calls| <= ncalls == |calls|
      requires Grows(behave, p, q) && Grows(behave, q, Now())
      requires Follows(s, m, p.clock, Performed(behave, |p.calls|, |q.calls|))
      requires Follows(m, table, q.clock, Performed(behave, |q.calls|, ncalls))
      ensures Grows(behave, p, Now())
      ensures Follows(s, table, p.clock, Performed(behave, |p.calls|, ncalls))
    {
      hide Follows, Performed;
      GrowsOn(behave, p, q, Now());
      PerformedOn(behave, |p.calls|, |q.calls|, ncalls);
      FollowsOn(s, m, table, p.clock, q.clock, Performed(behave, |p.calls|, |q.calls|), Performed(behave, |q.calls|, ncalls));
    }

    // Such a late invocation does happen: a read callback that removes its own descriptor with
    // sys_remove_fd and returns non-zero is followed by its write handler.
    method OrphanedWriteRuns(i: nat)
      requires Valid() && i < NSOURCES && table[i].kind == Io && table[i].func && !table[i].poll
      requires table[i].wfunc && table[i].ready == Ready(true, true)
      requires behave(ncalls) == Script([RemoveFd(table[i].fd)], 1)
      modifies this, sources
      ensures regs < TAGS ==> exists n :: |old(calls)| <= n < |calls| && calls[n].late
    {
      hide Grows, Follows, Lawful;
      ghost var w, fd := Here(), table[i].fd;
      if regs < TAGS {
        FirstFdIs(table, i, regs, dead);
      }
      assert Acts([RemoveFd(fd)], w) == Acts([RemoveFd(fd)], Act(RemoveFd(fd), w), 1) == Act(RemoveFd(fd), w);
      GrowsSelf(behave, Now());
      var ret, mid := IoCallback(i);
      RegsGrow(old(Now()));
    }

    // So does it with sys_remove, when the callback then sets a write handler: the tag is still found.
    method RemovedWriteRuns(i: nat)
      requires Valid() && i < NSOURCES && table[i].kind == Io && table[i].func && !table[i].poll
      requires table[i].ready == Ready(true, true)
      requires behave(ncalls) == Script([Remove(table[i].tag), WriteHandler(table[i].tag, true)], 1)
      modifies this, sources
      ensures regs < TAGS ==> exists n :: |old(calls)| <= n < |calls| && calls[n].late
    {
      hide Grows, Follows, Lawful;
      ghost var w, tag, acts := Here(), table[i].tag, behave(ncalls).acts;
      ghost var m := Act(Remove(tag), w);
      if regs < TAGS {
        FirstTagIs(w.table, i, regs, dead);
        FirstTagStays(w.table, i, w.table[i].(kind := Removed, func := false, wfunc := false), tag);
      }
      assert Acts(acts, w) == Acts(acts, m, 1) == Acts(acts, Act(WriteHandler(tag, true), m), 2) == Act(WriteHandler(tag, true), m);
      var ret, mid := IoCallback(i);
      RegsGrow(old(Now()));
    }

    lemma RegsGrow(p: Past)
      requires Grows(behave, p, Now())
      ensures p.regs <= regs <= p.regs + |done| - |p.done|
    {
    }

    // The calls of sys_callback.
    method Serve(i: nat) returns (ret: int)
      requires Valid() && i < NSOURCES && Live(table[i].kind) && table[i].func
      modifies this, sources
      ensures Valid() && Grows(behave, old(Now()), Now()) && ncalls <= old(ncalls) + 2
      ensures Follows(old(table), table, old(clock), Performed(behave, old(ncalls), ncalls))
      ensures regs < TAGS ==> AllRunFor(old(table)[i], old(calls), calls)
      ensures regs < TAGS && (old(table)[i].kind == Io && !old(table)[i].poll ==> old(table)[i].ready.input) ==>
                Handled(old(table)[i], |old(calls)|, Now()) && Called(old(table)[i], |old(calls)|, Now())
      ensures regs < TAGS && Awaits(old(table)[i]) && old(table)[i].ready.output
              && !Touches(Performed(behave, old(ncalls), ncalls), old(table)[i].tag, old(table)[i].fd) ==>
                ret == 0 || Written(old(table)[i], |old(calls)|, Now())
      ensures regs < TAGS && old(table)[i].kind == Io && old(table)[i].func && !old(table)[i].poll ==>
                ((exists n :: |old(calls)| <= n < |calls| && calls[n].late) <==> LateAt(i, old(Here()), old(ncalls)))
      ensures regs < TAGS && old(table)[i].kind == Io && !old(table)[i].poll && old(table)[i].ready.output
              && !Touches(Performed(behave, old(ncalls), ncalls), old(table)[i].tag, old(table)[i].fd)
              && Drained(behave, old(table)[i], |old(calls)|, calls) ==>
                ret == 0 || Off(old(table)[i], table[i], dead)
      ensures regs < TAGS && ret <= 0 ==> Called(old(table)[i], |old(calls)|, Now())
      ensures old(table)[i].kind != Io ==>
                Here() == Acts(behave(old(ncalls)).acts, old(Here())) && ret == behave(old(ncalls)).ret
    {
      hide NoOrphan, Follows, Grows, Lawful, Touches, Handled, Written, Acts, Performed, AllRunFor, Drained, Off, Called;
      ghost var x, run := table[i], |calls|;
      if sources[i].kind == Io && !sources[i].poll {
        ghost var mid;
        ret, mid := IoCallback(i);
        if regs < TAGS && x.ready.input {
          CalledIsHandled(x, run, Now());
        }
      } else {
        ghost var before, live := calls, x.tag !in dead;
        ret := Invoke(i, false);
        CalledIsHandled(x, run, Now());
        if live {
          OneRun(x, before, calls[run]);
        }
        assert regs < TAGS ==> live by {
          RegsGrow(old(Now()));
        }
      }
    }

    // sys_callback: the slot keeps its source while the callback runs, and is cleared if the
    // callback says so.
    method Callback(i: nat) returns (ret: int)
      requires Valid() && i < NSOURCES && Live(table[i].kind)
      modifies this, sources
      ensures Valid() && Grows(behave, old(Now()), Now()) && ncalls <= old(ncalls) + 2
      ensures FollowsBut(old(table), table, i, ret <= 0, old(clock), Performed(behave, old(ncalls), ncalls))
      ensures regs < TAGS ==> AllRunFor(old(table)[i], old(calls), calls)
      ensures regs < TAGS && (old(table)[i].kind == Io && !old(table)[i].poll ==> old(table)[i].ready.input) ==>
                Handled(old(table)[i], |old(calls)|, Now()) && Called(old(table)[i], |old(calls)|, Now())
      ensures regs < TAGS && Awaits(old(table)[i]) && old(table)[i].ready.output
              && !Touches(Performed(behave, old(ncalls), ncalls), old(table)[i].tag, old(table)[i].fd) ==>
                Written(old(table)[i], |old(calls)|, Now())
      ensures regs < TAGS && old(table)[i].kind == Io && old(table)[i].func && !old(table)[i].poll ==>
                ((exists n :: |old(calls)| <= n < |calls| && calls[n].late) <==> LateAt(i, old(Here()), old(ncalls)))
      ensures regs < TAGS && old(table)[i].kind == Io && !old(table)[i].poll && old(table)[i].ready.output
              && !Touches(Performed(behave, old(ncalls), ncalls), old(table)[i].tag, old(table)[i].fd)
              && Drained(behave, old(table)[i], |old(calls)|, calls) ==>
                Off(old(table)[i], table[i], dead)
      ensures ret <= 0 ==> old(table)[i].tag in dead + {0}
      ensures old(table)[i].kind == Timeout && behave(old(ncalls)) == QUIET ==>
                if old(table)[i].func then table == old(table) && ret == 1
                else table == old(table)[i := CLEAR] && ret <= 0
    {
      hide NoOrphan, Grows, Lawful, Touches, AllRunFor, Performed, Drained, Called;
      ret := -1;
      ghost var x, p := table[i], Now();
      GrowsSelf(behave, p);
      FollowsSelf(table, clock);
      assert Performed(behave, ncalls, ncalls) == [] && Acts([], Here()) == Here() by {
        NothingDone(behave, Here(), ncalls);
      }
      assert AllRunFor(x, calls, calls) by {
        NoneRun(x, calls);
      }
      assert regs < TAGS ==> x.func && x.tag != 0;
      if sources[i].func {
        ret := Serve(i);
      }
      ghost var q := Now();
      if ret <= 0 {
        assert regs < TAGS ==> table[i].tag == x.tag && Called(x, |p.calls|, q) by {
          RegsGrow(p);
        }
        Clear(i);
        AfterClear(p, q, x);
      }
    }

    // Clearing a slot adds to the removals only, and only a source that was called.
    lemma AfterClear(p: Past, q: Past, x: Slot)
      requires Grows(behave, p, q) && q.dead <= dead && Now() == q.(dead := dead)
      requires regs < TAGS ==> dead == q.dead || (dead == q.dead + {x.tag} && Called(x, |p.calls|, q))
      ensures Grows(behave, p, Now())
      ensures forall x, n :: Handled(x, n, q) ==> Handled(x, n, Now())
      ensures forall x, n :: Written(x, n, q) ==> Written(x, n, Now())
      ensures forall x, n :: Called(x, n, q) ==> Called(x, n, Now())
    {
    }

    // ------------------------------------------------------------ one turn of the loop

    // No callback asks for anything or stops.
    ghost predicate Quiet() {
      forall n :: 0 <= n ==> behave(n) == QUIET
    }

    // The timer scan: expired timers run, and those that stay are restarted from `now`.
    method ScanTimers(now: nat)
      requires Valid() && clock >= now
      modifies this, sources
      ensures Valid() && Grows(behave, old(Now()), Now())
      ensures forall i :: 0 <= i < NSOURCES ==> Rearmed(table[i], now)
      ensures regs < TAGS ==> AllExpired(old(table), NSOURCES, now, |old(calls)|, Now())
      ensures Quiet() ==> forall i :: 0 <= i < NSOURCES ==> table[i] == Restarted(old(table)[i], now)
    {
      hide Inv, NoOrphan, Handled, Lawful, Grows, Keeps, Rearmed, Restarted;
      ghost var s, p := table, Now();
      GrowsSelf(behave, p);
      assert regs < TAGS ==> Tagged(s) by {
        InvTagged(s, regs, dead);
      }
      assert forall j :: 0 <= j < NSOURCES ==> Keeps(s[j], table[j]) by {
        KeepsSelf(s);
      }
      var i := 0;
      while i < NSOURCES
        invariant 0 <= i <= NSOURCES && Valid() && clock >= now && Grows(behave, p, Now())
        invariant forall j :: i <= j < NSOURCES ==> Keeps(s[j], table[j])
        invariant forall j :: 0 <= j < i ==> Rearmed(table[j], now)
        invariant regs < TAGS ==> AllExpired(s, i, now, |p.calls|, Now())
        invariant Quiet() ==> forall j :: 0 <= j < NSOURCES ==> table[j] == if j < i then Restarted(s[j], now) else s[j]
      {
        ghost var q, m := Now(), table;
        GrowsLonger(behave, p, q);
        ScanTimer(i, now, s[i]);
        GrowsLonger(behave, q, Now());
        GrowsOn(behave, p, q, Now());
        StillHandled(behave, s, |p.calls|, q, Now());
        forall j | i < j < NSOURCES ensures Keeps(s[j], table[j]) {
          KeepsOn(s[j], m[j], table[j]);
        }
        HandledSince(s[i], |q.calls|, |p.calls|, Now());
        i := i + 1;
      }
    }

    // One slot of the scan, which held x when the scan began.
    method ScanTimer(i: nat, now: nat, ghost x: Slot)
      requires Valid() && clock >= now && i < NSOURCES && Keeps(x, table[i])
      modifies this, sources
      ensures Valid() && clock >= now && Grows(behave, old(Now()), Now())
      ensures forall j :: 0 <= j < NSOURCES && j != i ==> Keeps(old(table)[j], table[j])
      ensures forall j :: 0 <= j < NSOURCES && j != i && Rearmed(old(table)[j], now) ==> Rearmed(table[j], now)
      ensures Rearmed(table[i], now)
      ensures regs < TAGS && x.kind == Timeout && x.t <= now && x.tag != 0 ==> Handled(x, |old(calls)|, Now())
      ensures Quiet() ==> table == old(table)[i := Restarted(old(table)[i], now)]
    {
      hide NoOrphan, Lawful, Grows, Performed, AllRunFor, Touches, Written, Inv, Handled, FollowsBut, Rearmed;
      ghost var s, p := table, Now();
      GrowsSelf(behave, p);
      KeepsSelf(s);
      assert sources[i].kind != Timeout || sources[i].t > now ==> Rearmed(table[i], now) by {
        RearmedIf(table[i], now);
      }
      if sources[i].kind == Timeout && sources[i].t <= now {
        var ret := Callback(i);
        ClockGrows(p);
        SlotsFollow(s, table, i, ret <= 0, p.clock, now, Performed(behave, |p.calls|, ncalls));
        if x.tag != 0 {
          SameTag(s[i], x, |p.calls|, Now());
        }
        if ret != 0 && sources[i].kind == Timeout {
          Rearm(i, now);
        }
        RearmedIf(table[i], now);
      } else if regs < TAGS && x.tag != 0 {
        GoneIsHandled(x, i, |p.calls|);
      }
    }

    // A slot that lost its source awaits removal.
    lemma GoneIsHandled(x: Slot, i: nat, n: nat)
      requires Valid() && regs < TAGS && i < NSOURCES && x.tag != 0 && Keeps(x, table[i])
      ensures table[i].kind == x.kind || (Handled(x, n, Now()) && Written(x, n, Now()))
    {
    }

    lemma GoneIsOff(x: Slot, i: nat)
      requires Valid() && regs < TAGS && i < NSOURCES && x.tag != 0 && Keeps(x, table[i])
      ensures table[i].kind == x.kind || Off(x, table[i], dead)
    {
    }

    lemma SameOff(x: Slot, m: Slot, y: Slot, n: nat)
      requires m.tag == x.tag && m.fd == x.fd && m.wfunc == x.wfunc
      ensures Off(m, y, dead) ==> Off(x, y, dead)
      ensures Drained(behave, x, n, calls) ==> Drained(behave, m, n, calls)
    {
    }

    // A timer that expired starts again.
    method Rearm(i: nat, now: nat)
      requires Valid() && i < NSOURCES && table[i].kind == Timeout && now <= clock
      modifies this`dead, this`orphaned, this`table, sources
      ensures Valid() && Now() == old(Now()) && table == old(table)[i := old(table)[i].(t := now + old(table)[i].delay)]
    {
      hide NoOrphan, Lawful;
      SlotIsLawful(i);
      Put(i, sources[i].(t := now + sources[i].delay));
    }

    lemma ClockGrows(p: Past)
      requires Grows(behave, p, Now())
      ensures p.clock <= clock && p.regs <= regs && |p.calls| <= |calls|
    {
    }

    // What the poll scan does to one slot: free it if it awaits removal, list it if it is a
    // descriptor, shorten the timeout if it is a timer due later.
    method PollSlot(i: nat, now: nat, fds: seq<PollFd>, lookup: seq<int>, timeout: int)
      returns (fds': seq<PollFd>, lookup': seq<int>, timeout': int)
      requires Valid() && i < NSOURCES
      modifies this`dead, this`orphaned, this`table, sources
      ensures Valid() && table == old(table)[i := Polled(old(table)[i])] && orphaned == old(orphaned)
      ensures old(dead) <= dead && (regs < TAGS ==> dead == old(dead))
      ensures timeout' == Shorter(timeout, old(table)[i], now)
      ensures fds' == fds + ListedFd(old(table)[i])
      ensures lookup' == lookup + [if old(table)[i].kind == Io then |fds| else -1]
    {
      hide Lawful;
      fds', lookup', timeout' := fds, lookup + [-1], timeout;
      var x := sources[i];
      if x.kind == Timeout {
        if x.t > now {
          var dt := x.t - now;
          if timeout < 0 || dt < timeout {
            timeout' := dt;
          }
        }
      } else if x.kind == Io {
        SlotIsLawful(i);
        Put(i, x.(ready := NONE));
        lookup' := lookup + [|fds|];
        fds' := fds + [PollFd(x.fd, x.wantOut)];
      } else if x.kind == Removed {
        Clear(i);
      }
    }

    // The poll settings.
    method BuildPoll(now: nat) returns (fds: seq<PollFd>, lookup: seq<int>, timeout: int)
      requires Valid()
      modifies this`dead, this`orphaned, this`table, sources
      ensures Valid() && orphaned == old(orphaned) && old(dead) <= dead && (regs < TAGS ==> dead == old(dead))
      ensures forall i :: 0 <= i < NSOURCES ==> table[i] == Polled(old(table)[i])
      ensures Lists(table, NSOURCES, fds, lookup)
      ensures timeout == Wait(old(table), NSOURCES, now)
    {
      hide Inv, NoOrphan, Lawful, Lists, Polled;
      fds, lookup, timeout := [], [], -1;
      ghost var s := table;
      assert Lists(s, 0, fds, lookup) by {
        ListsNone(s);
      }
      var i := 0;
      while i < NSOURCES
        invariant 0 <= i <= NSOURCES && Valid() && orphaned == old(orphaned) && old(dead) <= dead
        invariant regs < TAGS ==> dead == old(dead)
        invariant forall j :: 0 <= j < NSOURCES ==> table[j] == if j < i then Polled(s[j]) else s[j]
        invariant Lists(s, i, fds, lookup)
        invariant timeout == Wait(s, i, now)
      {
        ListsStep(s, i, fds, lookup);
        fds, lookup, timeout := PollSlot(i, now, fds, lookup, timeout);
        i := i + 1;
      }
      ListsPolled(s, table, fds, lookup);
    }

    // The I/O phase, with what poll reported for each entry of `fds`.
    method Dispatch(lookup: seq<int>, ready: seq<Ready>, ghost fds: seq<PollFd>)
      requires Valid() && Lists(table, NSOURCES, fds, lookup) && |ready| == |fds|
      modifies this, sources
      ensures Valid() && Grows(behave, old(Now()), Now())
      ensures regs < TAGS ==> forall n :: |old(calls)| <= n < |calls| ==>
                Reported(old(table), lookup, ready, calls[n])
      ensures regs < TAGS ==> AllServed(old(table), NSOURCES, lookup, ready, |old(calls)|, Now(),
                                        Performed(behave, old(ncalls), ncalls))
      ensures regs < TAGS ==> AllWritten(old(table), NSOURCES, lookup, ready, |old(calls)|, Now(),
                                         Performed(behave, old(ncalls), ncalls))
      ensures regs < TAGS ==> AllOff(behave, old(table), NSOURCES, lookup, ready, |old(calls)|, calls, dead, table,
                                     Performed(behave, old(ncalls), ncalls))
    {
      hide Inv, NoOrphan, Lawful, Grows, Handled, Written, Reported, Next, Touches, Performed, Keeps, AllOff, DistinctTags;
      ghost var s, p := table, Now();
      GrowsSelf(behave, p);
      NextSelf(s, clock, Performed(behave, ncalls, ncalls));
      assert regs < TAGS ==> Tagged(s) && DistinctTags(s) by {
        InvTagged(s, regs, dead);
        if regs < TAGS {
          InvDistinct(s, regs, dead);
        }
      }
      NoneOff(s, lookup, ready);
      var i := 0;
      while i < NSOURCES
        invariant 0 <= i <= NSOURCES && Valid() && Grows(behave, p, Now()) && ncalls >= |p.calls|
        invariant forall j :: i <= j < NSOURCES ==> Next(s[j], table[j], p.clock, Performed(behave, |p.calls|, ncalls))
        invariant regs < TAGS ==> AllServed(s, i, lookup, ready, |p.calls|, Now(), Performed(behave, |p.calls|, ncalls))
        invariant regs < TAGS ==> AllWritten(s, i, lookup, ready, |p.calls|, Now(), Performed(behave, |p.calls|, ncalls))
        invariant regs < TAGS ==> forall n :: |p.calls| <= n < |calls| ==> Reported(s, lookup, ready, calls[n])
        invariant regs < TAGS ==> forall n, j :: |p.calls| <= n < |calls| && i <= j < NSOURCES && s[j].kind == Io ==>
                    calls[n].tag != s[j].tag
        invariant regs < TAGS ==> AllOff(behave, s, i, lookup, ready, |p.calls|, calls, dead, table,
                                         Performed(behave, |p.calls|, ncalls))
      {
        ghost var q, m := Now(), table;
        GrowsLonger(behave, p, q);
        DispatchSlot(i, lookup, ready, s, p);
        GrowsLonger(behave, q, Now());
        AllLater(s, i, lookup, ready, p, q);
        if regs < TAGS {
          NextOff(s, i, lookup, ready, p, q, m);
          OneTag(s, i);
        }
        i := i + 1;
      }
    }

    lemma NoneOff(s: seq<Slot>, lookup: seq<int>, ready: seq<Ready>)
      ensures AllOff(behave, s, 0, lookup, ready, |calls|, calls, dead, table, Performed(behave, ncalls, ncalls))
    {
    }

    lemma OneTag(s: seq<Slot>, i: nat)
      requires DistinctTags(s) && Tagged(s) && i < |s|
      ensures forall j :: i < j < |s| && s[i].kind == Io && s[j].kind == Io ==> s[i].tag != s[j].tag
    {
    }

    lemma NextOff(s: seq<Slot>, i: nat, lookup: seq<int>, ready: seq<Ready>, p: Past, q: Past, m: seq<Slot>)
      requires Valid() && regs < TAGS && Grows(behave, p, q) && Grows(behave, q, Now()) && |p.calls| <= |q.calls| <= ncalls
      requires i < NSOURCES == |s| == |m| == |lookup| && DistinctTags(s) && Tagged(s)
      requires forall j :: 0 <= j < NSOURCES ==> (s[j].kind == Io <==> lookup[j] >= 0)
      requires AllOff(behave, s, i, lookup, ready, |p.calls|, q.calls, q.dead, m, Performed(behave, |p.calls|, |q.calls|))
      requires forall j :: 0 <= j < NSOURCES && j != i ==> Next(m[j], table[j], q.clock, Performed(behave, |q.calls|, ncalls))
      requires forall n :: |q.calls| <= n < |calls| ==> calls[n].tag == s[i].tag
      requires lookup[i] >= 0 && lookup[i] < |ready| && ready[lookup[i]].output && !s[i].poll
               && !Touches(Performed(behave, |p.calls|, ncalls), s[i].tag, s[i].fd)
               && Drained(behave, s[i], |p.calls|, calls) ==>
                 Off(s[i], table[i], dead)
      ensures AllOff(behave, s, i + 1, lookup, ready, |p.calls|, calls, dead, table, Performed(behave, |p.calls|, ncalls))
    {
      hide Lawful, NoOrphan, Grows, Touches, Performed, AllOff, Next, Off, Drained, DistinctTags;
      GrowsLonger(behave, q, Now());
      PerformedOn(behave, |p.calls|, |q.calls|, ncalls);
      var a, b := Performed(behave, |p.calls|, |q.calls|), Performed(behave, |q.calls|, ncalls);
      forall tag, fd | Touches(a, tag, fd) || Touches(b, tag, fd) ensures Touches(a + b, tag, fd) {
        TouchesEither(a, b, tag, fd);
      }
      AllOffOn(behave, s, i, lookup, ready, |p.calls|, q.calls, calls, q.dead, dead, m, table, q.clock, a, b);
    }

    // What was served stays so, for fewer requests to be excepted.
    lemma AllLater(s: seq<Slot>, i: nat, lookup: seq<int>, ready: seq<Ready>, p: Past, q: Past)
      requires Grows(behave, p, q) && Grows(behave, q, Now()) && |p.calls| <= |q.calls| <= ncalls == |calls|
      ensures AllServed(s, i, lookup, ready, |p.calls|, q, Performed(behave, |p.calls|, |q.calls|)) ==>
                AllServed(s, i, lookup, ready, |p.calls|, Now(), Performed(behave, |p.calls|, ncalls))
      ensures AllWritten(s, i, lookup, ready, |p.calls|, q, Performed(behave, |p.calls|, |q.calls|)) ==>
                AllWritten(s, i, lookup, ready, |p.calls|, Now(), Performed(behave, |p.calls|, ncalls))
    {
      hide Grows, Handled, Written, Touches, Performed;
      StillHandled(behave, s, |p.calls|, q, Now());
      forall tag, fd | Touches(Performed(behave, |p.calls|, |q.calls|), tag, fd)
        ensures Touches(Performed(behave, |p.calls|, ncalls), tag, fd)
      {
        FewerTouch(behave, |p.calls|, |q.calls|, ncalls, tag, fd);
      }
    }

    // One slot of the I/O phase, which began with s and p.
    method DispatchSlot(i: nat, lookup: seq<int>, ready: seq<Ready>, ghost s: seq<Slot>, ghost p: Past)
      requires Valid() && i < NSOURCES && |lookup| == |s| == NSOURCES && -1 <= lookup[i] < |ready|
      requires Grows(behave, p, Now()) && |p.calls| <= ncalls
      requires forall j :: i <= j < NSOURCES ==> Next(s[j], table[j], p.clock, Performed(behave, |p.calls|, ncalls))
      requires s[i].kind == Io <==> lookup[i] >= 0
      requires regs < TAGS ==> Tagged(s)
      requires regs < TAGS && s[i].kind == Io ==> forall n :: |p.calls| <= n < |calls| ==> calls[n].tag != s[i].tag
      modifies this, sources
      ensures Valid() && Grows(behave, p, Now()) && Grows(behave, old(Now()), Now()) && ncalls >= old(ncalls)
      ensures forall j :: i < j < NSOURCES ==> Next(s[j], table[j], p.clock, Performed(behave, |p.calls|, ncalls))
      ensures regs < TAGS ==> forall n :: |old(calls)| <= n < |calls| ==> Reported(s, lookup, ready, calls[n])
      ensures forall n :: 0 <= n < |old(calls)| ==> calls[n] == old(calls)[n]
      ensures regs < TAGS && lookup[i] >= 0
              && (ready[lookup[i]].input
                  || (ready[lookup[i]] != NONE && PolledUntouched(s[i], Performed(behave, |p.calls|, ncalls)))) ==>
                Handled(s[i], |p.calls|, Now())
      ensures regs < TAGS && lookup[i] >= 0 && ready[lookup[i]].output && Awaits(s[i])
              && !Touches(Performed(behave, |p.calls|, ncalls), s[i].tag, s[i].fd) ==>
                Written(s[i], |p.calls|, Now())
      ensures forall j :: 0 <= j < NSOURCES && j != i ==>
                Next(old(table)[j], table[j], old(clock), Performed(behave, old(ncalls), ncalls))
      ensures regs < TAGS ==> forall n :: |old(calls)| <= n < |calls| ==> s[i].kind == Io && calls[n].tag == s[i].tag
      ensures regs < TAGS && lookup[i] >= 0 && ready[lookup[i]].output && !s[i].poll
              && !Touches(Performed(behave, |p.calls|, ncalls), s[i].tag, s[i].fd)
              && Drained(behave, s[i], |p.calls|, calls) ==>
                Off(s[i], table[i], dead)
    {
      hide Inv, NoOrphan, Lawful, Grows, Handled, Written, Reported, Touches, Performed, Next, Drained, Off;
      ghost var q, m := Now(), table;
      GrowsSelf(behave, q);
      NextSelf(m, clock, Performed(behave, ncalls, ncalls));
      NextGives(s[i], m[i], p.clock, Performed(behave, |p.calls|, |q.calls|));
      if sources[i].kind == Io && lookup[i] >= 0 {
        DispatchOne(i, ready[lookup[i]]);
        GrowsLonger(behave, q, Now());
        GrowsLonger(behave, p, q);
        GrowsOn(behave, p, q, Now());
        PerformedOn(behave, |p.calls|, |q.calls|, ncalls);
        forall j | i < j < NSOURCES ensures Next(s[j], table[j], p.clock, Performed(behave, |p.calls|, ncalls)) {
          NextOn(s[j], m[j], table[j], p.clock, q.clock, Performed(behave, |p.calls|, |q.calls|), Performed(behave, |q.calls|, ncalls));
        }
        assert forall n :: 0 <= n < |q.calls| ==> calls[n] == calls[..|q.calls|][n];
        if regs < TAGS {
          SameTag(m[i], s[i], |q.calls|, Now());
          HandledSince(s[i], |q.calls|, |p.calls|, Now());
          forall n | |q.calls| <= n < |calls| ensures Reported(s, lookup, ready, calls[n]) {
            InputReported(s, i, lookup, ready, calls[n]);
          }
          if !Touches(Performed(behave, |p.calls|, ncalls), s[i].tag, s[i].fd) {
            LaterTouch(behave, |p.calls|, |q.calls|, ncalls, s[i].tag, s[i].fd);
            DrainedSince(behave, s[i], |p.calls|, |q.calls|, calls);
            SameOff(s[i], m[i], table[i], |q.calls|);
          }
        }
      } else if regs < TAGS && s[i].kind == Io {
        GoneIsHandled(s[i], i, |p.calls|);
        GoneIsOff(s[i], i);
      }
    }

    // The callback of slot i, which poll reported ready in some way.
    method DispatchOne(i: nat, r: Ready)
      requires Valid() && i < NSOURCES && table[i].kind == Io
      modifies this, sources
      ensures Valid() && Grows(behave, old(Now()), Now())
      ensures old(ncalls) <= ncalls <= old(ncalls) + 2 && calls[..|old(calls)|] == old(calls) && clock >= old(clock)
      ensures forall j :: 0 <= j < NSOURCES && j != i ==>
                Next(old(table)[j], table[j], old(clock), Performed(behave, old(ncalls), ncalls))
      ensures regs < TAGS ==> forall n :: |old(calls)| <= n < |calls| ==>
                calls[n].tag == old(table)[i].tag && calls[n].fd == old(table)[i].fd && calls[n].ready == r != NONE
      ensures regs < TAGS && (r.input || (r != NONE && old(table)[i].poll)) ==> Handled(old(table)[i], |old(calls)|, Now())
      ensures regs < TAGS && r != NONE && old(table)[i].func && !old(table)[i].poll ==>
                var w := old(Here());
                ((exists n :: |old(calls)| <= n < |calls| && calls[n].late) <==>
                  LateAt(i, w.(table := w.table[i := w.table[i].(ready := r)]), old(ncalls)))
      ensures regs < TAGS && r.output && Awaits(old(table)[i])
              && !Touches(Performed(behave, old(ncalls), ncalls), old(table)[i].tag, old(table)[i].fd) ==>
                Written(old(table)[i], |old(calls)|, Now())
      ensures regs < TAGS && !old(table)[i].poll && r.output
              && !Touches(Performed(behave, old(ncalls), ncalls), old(table)[i].tag, old(table)[i].fd)
              && Drained(behave, old(table)[i], |old(calls)|, calls) ==>
                Off(old(table)[i], table[i], dead)
    {
      hide NoOrphan, Lawful, Grows, Handled, Written, Touches, Performed, Next;
      ghost var s, p := table, Now();
      GrowsSelf(behave, p);
      NextSelf(s, clock, Performed(behave, ncalls, ncalls));
      if r != NONE {
        MarkReady(i, r);
        ghost var x, m := table[i], table;
        var _ := Callback(i);
        GrowsLonger(behave, p, Now());
        SameTag(x, s[i], |p.calls|, Now());
        if regs < TAGS {
          forall n | |p.calls| <= n < |calls|
            ensures calls[n].tag == s[i].tag && calls[n].fd == s[i].fd && calls[n].ready == r
          {
            assert RunsFor(x, calls[n]);
          }
        }
        assert forall j :: 0 <= j < NSOURCES && j != i ==> m[j] == s[j];
      }
    }

    method MarkReady(i: nat, r: Ready)
      requires Valid() && i < NSOURCES && table[i].kind == Io
      modifies this`dead, this`orphaned, this`table, sources
      ensures Valid() && Now() == old(Now()) && table == old(table)[i := old(table)[i].(ready := r)]
    {
      hide NoOrphan, Lawful;
      SlotIsLawful(i);
      Put(i, sources[i].(ready := r));
    }

    // sys_waitpid: the watchers of each reaped child run once and are cleared.
    method WaitPid(pids: seq<int>)
      requires Valid()
      modifies this, sources
      ensures Valid() && Grows(behave, old(Now()), Now())
      ensures regs < TAGS ==> forall p <- pids :: AllReaped(old(table), NSOURCES, p, dead)
    {
      hide Inv, NoOrphan, Lawful, Grows, Handled, Written, Keeps;
      ghost var s, b := table, Now();
      GrowsSelf(behave, b);
      KeepsSelf(s);
      assert regs < TAGS ==> Tagged(s) by {
        InvTagged(s, regs, dead);
      }
      for p := 0 to |pids|
        invariant Valid() && Grows(behave, b, Now())
        invariant forall j :: 0 <= j < NSOURCES ==> KeptOrDead(s[j], table[j], dead)
        invariant regs < TAGS ==> forall k :: 0 <= k < p ==> AllReaped(s, NSOURCES, pids[k], dead)
      {
        ghost var q := Now();
        GrowsLonger(behave, b, q);
        Reap(pids[p], s);
        GrowsLonger(behave, q, Now());
        GrowsOn(behave, b, q, Now());
        StillHandled(behave, s, |b.calls|, q, Now());
      }
    }

    // The inner loop, for one child.
    method Reap(pid: int, ghost s: seq<Slot>)
      requires Valid() && |s| == NSOURCES
      requires forall j :: 0 <= j < NSOURCES ==> KeptOrDead(s[j], table[j], dead)
      requires regs < TAGS ==> Tagged(s)
      modifies this, sources
      ensures Valid() && Grows(behave, old(Now()), Now())
      ensures forall j :: 0 <= j < NSOURCES ==> KeptOrDead(s[j], table[j], dead)
      ensures regs < TAGS ==> AllReaped(s, NSOURCES, pid, dead)
    {
      hide Inv, NoOrphan, Lawful, Grows, Handled, Written, KeptOrDead;
      ghost var b := Now();
      GrowsSelf(behave, b);
      for i := 0 to NSOURCES
        invariant Valid() && Grows(behave, b, Now())
        invariant forall j :: 0 <= j < NSOURCES ==> KeptOrDead(s[j], table[j], dead)
        invariant regs < TAGS ==> AllReaped(s, i, pid, dead)
      {
        ghost var q, x := Now(), table[i];
        GrowsLonger(behave, b, q);
        RemovedIsDead(i);
        if sources[i].kind == Child && sources[i].pid == pid {
          ReapOne(i, s);
          GrowsLonger(behave, q, Now());
          GrowsOn(behave, b, q, Now());
        }
        if regs < TAGS && s[i].kind == Child && s[i].pid == pid {
          ReapedIs(s[i], x, q.dead, dead);
        }
      }
    }

    lemma RemovedIsDead(i: nat)
      requires Valid() && i < NSOURCES
      ensures regs < TAGS && table[i].tag != 0 && table[i].kind == Removed ==> table[i].tag in dead
    {
    }

    // A watcher is still in its slot, and is served there, or is removed.
    lemma ReapedIs(y: Slot, x: Slot, early: set<nat>, dead: set<nat>)
      requires KeptOrDead(y, x, early) && y.kind == Child && y.tag != 0 && early <= dead
      requires x.kind == Child && x.pid == y.pid ==> x.tag in dead
      requires x.tag != 0 && x.kind == Removed ==> x.tag in early
      ensures y.tag in dead
    {
    }

    // A watcher is called, and is gone.
    method ReapOne(i: nat, ghost s: seq<Slot>)
      requires Valid() && |s| == NSOURCES && i < NSOURCES && table[i].kind == Child
      requires forall j :: 0 <= j < NSOURCES ==> KeptOrDead(s[j], table[j], dead)
      modifies this, sources
      ensures Valid() && Grows(behave, old(Now()), Now()) && table[i] == CLEAR
      ensures forall j :: 0 <= j < NSOURCES ==> KeptOrDead(s[j], table[j], dead)
      ensures regs < TAGS ==> old(table)[i].tag in dead && Called(old(table)[i], |old(calls)|, Now())
    {
      hide Inv, NoOrphan, Lawful, Grows, Performed, AllRunFor, Written, Touches, TimerFrom, HandlerKept;
      ghost var b := Now();
      assert regs < TAGS ==> table[i].tag != 0 by {
        InvTagged(table, regs, dead);
      }
      var _ := Callback(i);
      GrowsLonger(behave, b, Now());
      assert regs < TAGS ==> table[i].tag == 0 || table[i].tag == old(table)[i].tag by {
        ClockGrows(b);
      }
      ghost var q := Now();
      Clear(i);
      AfterClear(b, q, old(table)[i]);
    }

    // The timer scan and the poll settings.
    method Prepare(now: nat) returns (fds: seq<PollFd>, lookup: seq<int>, timeout: int)
      requires Valid() && clock >= now
      modifies this, sources
      ensures Valid() && clock >= now && Grows(behave, old(Now()), Now())
      ensures Lists(table, NSOURCES, fds, lookup) && timeout == Wait(table, NSOURCES, now)
      ensures forall i :: 0 <= i < NSOURCES ==> Rearmed(table[i], now)
      ensures regs < TAGS ==> AllExpired(old(table), NSOURCES, now, |old(calls)|, Now())
      ensures Quiet() ==> forall i :: 0 <= i < NSOURCES ==> table[i] == Polled(Restarted(old(table)[i], now))
    {
      hide Inv, NoOrphan, Lawful, Grows, Handled, Written, Lists, Restarted;
      ghost var p := Now();
      ScanTimers(now);
      ghost var scanned, q := table, Now();
      GrowsLonger(behave, p, q);
      fds, lookup, timeout := BuildPoll(now);
      PolledKeepsWait(scanned, table, NSOURCES, now);
      AfterClear(p, q, CLEAR);
    }

    // The I/O phase, when poll returned `status`.
    method ServePolled(status: int, poll: nat -> Ready, lookup: seq<int>, ghost fds: seq<PollFd>, n: nat)
      requires Valid() && Lists(table, NSOURCES, fds, lookup) && n == |fds|
      modifies this, sources
      ensures Valid() && Grows(behave, old(Now()), Now()) && ncalls >= old(ncalls)
      ensures regs < TAGS ==> forall k :: |old(calls)| <= k < |calls| ==>
                Reported(old(table), lookup, Reports(poll, n), calls[k])
      ensures regs < TAGS && status > 0 ==>
                && AllServed(old(table), NSOURCES, lookup, Reports(poll, n), |old(calls)|, Now(),
                             Performed(behave, old(ncalls), ncalls))
                && AllWritten(old(table), NSOURCES, lookup, Reports(poll, n), |old(calls)|, Now(),
                              Performed(behave, old(ncalls), ncalls))
                && AllOff(behave, old(table), NSOURCES, lookup, Reports(poll, n), |old(calls)|, calls, dead, table,
                          Performed(behave, old(ncalls), ncalls))
    {
      hide Inv, NoOrphan, Lawful, Grows, Lists;
      ghost var p := Now();
      GrowsSelf(behave, p);
      if status > 0 {
        Dispatch(lookup, Reports(poll, n), fds);
      }
      GrowsLonger(behave, p, Now());
    }

    // One turn of sys_run. `poll` says what poll reports for the n-th descriptor; `status` is its
    // result; `arg` is the timeout it is given. The ghost results are the moments when poll is
    // called, and when children are reaped.
    method Turn(dt: nat, status: int, poll: nat -> Ready, pids: seq<int>)
      returns (arg: int, now: nat, ghost atPoll: Moment, ghost atWait: Moment)
      requires Valid()
      modifies this, sources
      ensures Valid() && Grows(behave, old(Now()), Now()) && now == old(clock) + dt <= atPoll.clock
      ensures Lists(atPoll.table, NSOURCES, atPoll.fds, atPoll.entries) && |atPoll.table| == NSOURCES
      ensures arg == PollArg(Wait(atPoll.table, NSOURCES, now))
      ensures DelaysWithin(done, 1, 0x7FFF_FFFF - (atPoll.clock - now)) ==>
                Exact(atPoll.table, now, arg) && Wakes(atPoll.table, atPoll.clock, arg, atPoll.clock - now)
      ensures |old(calls)| <= atPoll.called <= atWait.called <= |calls|
      ensures orphaned <==> old(orphaned) || Strays(behave, worlds, old(ncalls), ncalls)
      ensures regs < TAGS ==> AllExpired(old(table), NSOURCES, now, |old(calls)|, Now())
      ensures regs < TAGS && status > 0 ==>
                && AllServed(atPoll.table, NSOURCES, atPoll.entries, Reports(poll, |atPoll.fds|), atPoll.called, Now(),
                             Performed(behave, atPoll.called, atWait.called))
                && AllWritten(atPoll.table, NSOURCES, atPoll.entries, Reports(poll, |atPoll.fds|), atPoll.called, Now(),
                              Performed(behave, atPoll.called, atWait.called))
                && AllOff(behave, atPoll.table, NSOURCES, atPoll.entries, Reports(poll, |atPoll.fds|), atPoll.called,
                          calls[..atWait.called], dead, atWait.table, Performed(behave, atPoll.called, atWait.called))
      ensures regs < TAGS ==> forall k :: atPoll.called <= k < atWait.called ==>
                Reported(atPoll.table, atPoll.entries, Reports(poll, |atPoll.fds|), calls[k])
      ensures regs < TAGS ==> forall p <- pids :: AllReaped(atWait.table, NSOURCES, p, dead)
      ensures Quiet() ==> forall i :: 0 <= i < NSOURCES ==> atPoll.table[i] == Polled(Restarted(old(table)[i], now))
    {
      hide Inv, NoOrphan, Lawful, Handled, Written, Lists, Exact, Wakes, Grows, Touches, Reported, Polled, Restarted, DelaysWithin, AllOff;
      ghost var s, p0 := table, Now();
      var fds, lookup;
      fds, lookup, arg, now := GoToPoll(dt);
      ghost var p2 := Now();
      atPoll := Moment(table, clock, fds, lookup, |calls|);
      ServePolled(status, poll, lookup, fds, |fds|);
      ghost var p3 := Now();
      atWait := Moment(table, clock, [], [], |calls|);
      WaitPid(pids);
      GrowsLonger(behave, p2, p3);
      GrowsLonger(behave, p3, Now());
      GrowsOn(behave, p2, p3, Now());
      GrowsOn(behave, p0, p2, Now());
      GrowsLonger(behave, p0, p2);
      StillHandled(behave, s, |p0.calls|, p2, Now());
      StillHandled(behave, atPoll.table, atPoll.called, p3, Now());
      NoneLate(p0);
      assert forall k :: 0 <= k < |p3.calls| ==> calls[k] == calls[..|p3.calls|][k];
      if regs < TAGS && status > 0 {
        AllOffLater(behave, atPoll.table, NSOURCES, lookup, Reports(poll, |fds|), atPoll.called, p3.calls, p3.dead, dead,
                    atWait.table, Performed(behave, atPoll.called, atWait.called));
      }
      if DelaysWithin(done, 1, 0x7FFF_FFFF - (atPoll.clock - now)) {
        DelaysBefore(behave, p2, Now(), 1, 0x7FFF_FFFF - (atPoll.clock - now));
      }
    }

    // A turn up to the call of poll.
    method GoToPoll(dt: nat) returns (fds: seq<PollFd>, lookup: seq<int>, arg: int, now: nat)
      requires Valid()
      modifies this, sources
      ensures Valid() && Grows(behave, old(Now()), Now()) && now == old(clock) + dt <= clock
      ensures Lists(table, NSOURCES, fds, lookup) && arg == PollArg(Wait(table, NSOURCES, now))
      ensures DelaysWithin(done, 1, 0x7FFF_FFFF - (clock - now)) ==>
                Exact(table, now, arg) && Wakes(table, clock, arg, clock - now)
      ensures regs < TAGS ==> AllExpired(old(table), NSOURCES, now, |old(calls)|, Now())
      ensures Quiet() ==> forall i :: 0 <= i < NSOURCES ==> table[i] == Polled(Restarted(old(table)[i], now))
    {
      hide Inv, NoOrphan, Lawful, Handled, Lists, Exact, Wakes, Grows, Rearmed, Polled, Restarted, DelaysWithin, AllExpired;
      ghost var p0 := Now();
      PassTime(dt);
      now := clock;
      ghost var p1 := Now();
      var timeout;
      fds, lookup, timeout := Prepare(now);
      arg := PollArg(timeout);
      if DelaysWithin(done, 1, 0x7FFF_FFFF - (clock - now)) {
        WakesNow(now, arg);
      }
      GrowsOn(behave, p0, p1, Now());
    }

    // sys_now is read.
    method PassTime(dt: nat)
      requires Valid()
      modifies this`clock
      ensures Valid() && clock == old(clock) + dt && Grows(behave, old(Now()), Now())
    {
      hide Inv, NoOrphan, Lawful;
      LawfulLater(table, done, [], bound, bound, orphaned, clock, clock + dt);
      assert done + [] == done;
      GrowsSelf(behave, Now());
      clock := clock + dt;
    }

    lemma WakesNow(now: nat, arg: int)
      requires Valid() && now <= clock && arg == PollArg(Wait(table, NSOURCES, now))
      requires forall i :: 0 <= i < NSOURCES ==> Rearmed(table[i], now)
      requires DelaysWithin(done, 1, 0x7FFF_FFFF - (clock - now))
      ensures Exact(table, now, arg) && Wakes(table, clock, arg, clock - now)
    {
      PollWakes(table, done, now, clock, arg);
    }

    // sys_run, for any inputs of each turn. With delays of 1 ms to 2^31 less the time spent in timer
    // callbacks, every wait given to poll ends exactly that much time after the earliest deadline.
    // No removed source is ever called unless a write handler was orphaned, and one is exactly when
    // a request removed by descriptor a source that had one, or set one on a removed source, in the
    // world it was made in. It is not when no handler is set; nor when sources given handlers are
    // never removed by descriptor and no handler is set on a tag removed before.
    method Run(inputs: seq<(nat, int, nat -> Ready, seq<int>)>) returns (ghost polls: seq<Sleep>)
      requires Valid()
      modifies this, sources
      ensures Valid() && Grows(behave, old(Now()), Now())
      ensures forall p <- polls :: p.now <= p.at.clock
      ensures forall p <- polls :: DelaysWithin(done, 1, 0x7FFF_FFFF - (p.at.clock - p.now)) ==>
                Exact(p.at.table, p.now, p.arg) && Wakes(p.at.table, p.at.clock, p.arg, p.at.clock - p.now)
      ensures orphaned <==> old(orphaned) || Strays(behave, worlds, old(ncalls), ncalls)
      ensures regs < TAGS && !orphaned ==> forall c <- calls :: !c.late
      ensures Careful(done, bound) || Harmless(behave, old(ncalls), old(done), bound) ==> !orphaned
    {
      hide Inv, NoOrphan, Lawful, Grows, Exact, Wakes, DelaysWithin;
      ghost var b := Now();
      GrowsSelf(behave, b);
      polls := [];
      var k := 0;
      while k < |inputs| && !quit
        invariant 0 <= k <= |inputs| && Valid() && Grows(behave, b, Now())
        invariant forall p <- polls :: p.now <= p.at.clock
        invariant forall p <- polls :: DelaysWithin(done, 1, 0x7FFF_FFFF - (p.at.clock - p.now)) ==>
                    Exact(p.at.table, p.now, p.arg) && Wakes(p.at.table, p.at.clock, p.arg, p.at.clock - p.now)
      {
        ghost var q := Now();
        var arg, now;
        ghost var atPoll, atWait;
        arg, now, atPoll, atWait := Turn(inputs[k].0, inputs[k].1, inputs[k].2, inputs[k].3);
        GrowsOn(behave, b, q, Now());
        forall p <- polls | DelaysWithin(done, 1, 0x7FFF_FFFF - (p.at.clock - p.now))
          ensures DelaysWithin(q.done, 1, 0x7FFF_FFFF - (p.at.clock - p.now))
        {
          DelaysBefore(behave, q, Now(), 1, 0x7FFF_FFFF - (p.at.clock - p.now));
        }
        polls := polls + [Sleep(atPoll, now, arg)];
        k := k + 1;
      }
      NoneLate(b);
      if Harmless(behave, |b.calls|, b.done, bound) {
        HarmlessIsCareful(behave, |b.calls|, ncalls, b.done, bound);
      }
    }

    lemma NoneLate(b: Past)
      requires Valid() && Grows(behave, b, Now())
      ensures (regs < TAGS && !orphaned ==> forall c <- calls :: !c.late) && (Careful(done, bound) ==> !orphaned)
      ensures |b.calls| <= ncalls == |calls| && done == b.done + Performed(behave, |b.calls|, ncalls)
      ensures orphaned <==> b.orphaned || Strays(behave, worlds, |b.calls|, ncalls)
    {
    }
  }

  // A timer without delay whose callback goes on is due again at once, is not counted, and the
  // loop sleeps for ever.
  method ZeroDelayStalls() returns (arg: int, now: nat, ghost at: Moment)
    ensures arg == -1 && |at.table| > 0 && at.table[0].kind == Timeout && at.table[0].t <= now
  {
    hide Loop.Valid, Grows, Lists, Exact, Wakes, Wait, AllExpired, AllServed, AllWritten, AllReaped, DelaysWithin;
    arg, now, at := OneTimer(0, 0);
    WaitBounds(at.table, NSOURCES, now);
  }

  // So it does when the only timer is due in 2^32 - 1 ms: poll is given -1.
  method LongDelayStalls() returns (arg: int, now: nat, ghost at: Moment)
    ensures arg == -1 && |at.table| > 0 && at.table[0].kind == Timeout && at.table[0].t == now + 0xFFFF_FFFF
  {
    hide Loop.Valid, Grows, Lists, Exact, Wakes, Wait, AllExpired, AllServed, AllWritten, AllReaped, DelaysWithin;
    arg, now, at := OneTimer(0xFFFF_FFFF, 0);
    WaitBounds(at.table, NSOURCES, now);
  }

  // One turn of a loop with one timer, begun `dt` milliseconds after it was set: it is due its delay
  // after that, or after the turn began if it was due then.
  method OneTimer(delay: nat, dt: nat) returns (arg: int, now: nat, ghost at: Moment)
    ensures |at.table| == NSOURCES && arg == PollArg(Wait(at.table, NSOURCES, now))
    ensures now == dt && at.table[0].kind == Timeout && at.table[0].t == if delay <= dt then now + delay else delay
    ensures forall i :: 0 < i < NSOURCES ==> at.table[i].kind != Timeout
  {
    hide Grows, Lists, Exact, Wakes, Wait, AllExpired, AllServed, AllWritten, AllReaped, DelaysWithin, Loop.Valid, Reported;
    var loop := new Loop(n => QUIET);
    ghost var w := loop.Here();
    loop.SysTimeout(delay, 0);
    assert FirstTag(w.table, 0) == 0;
    ghost var atWait;
    arg, now, at, atWait := loop.Turn(dt, 0, n => NONE, []);
  }

  // From an empty table: a source is watched and given a write handler; when its descriptor is
  // ready both ways, its read callback removes it by descriptor and goes on, and the write handler
  // runs for a removed source.
  method LateByDescriptor() returns (loop: Loop)
    ensures loop.Valid() && loop.orphaned && exists c <- loop.calls :: c.late
  {
    loop := Late([RemoveFd(3)]);
  }

  // So it does when the callback removes its source by tag and then sets the handler again.
  method LateByTag() returns (loop: Loop)
    ensures loop.Valid() && loop.orphaned && exists c <- loop.calls :: c.late
  {
    loop := Late([Remove(1), WriteHandler(1, true)]);
  }

  // A callback with these requests, run for source 1, which watches descriptor 3.
  method Late(acts: seq<Action>) returns (loop: Loop)
    requires acts == [RemoveFd(3)] || acts == [Remove(1), WriteHandler(1, true)]
    ensures loop.Valid() && loop.orphaned && exists c <- loop.calls :: c.late
  {
    hide Loop.Valid, Grows, Next, Written, Handled, Touches;
    loop := new Loop(n => Script(acts, 1));
    loop.SysIoWatch(3);
    loop.SysIoWriteHandler(1, true);
    ghost var w := loop.Here();
    assert w.table[0] == CLEAR.(kind := Io, tag := 1, func := true, fd := 3, wantOut := true, wfunc := true);
    ghost var p := loop.Now();
    loop.DispatchOne(0, Ready(true, true));
    loop.RegsGrow(p);
    loop.NoneLate(p);
    FewAsked(loop.behave, acts, loop.ncalls);
    ghost var m := w.(table := w.table[0 := w.table[0].(ready := Ready(true, true))]);
    LeftOrphaned(acts, m);
    assert loop.LateAt(0, m, 0);
    assert exists n :: 0 <= n < |loop.calls| && loop.calls[n].late;
  }

  lemma FewAsked(behave: nat -> Script, acts: seq<Action>, n: nat)
    requires n <= 2 && |acts| <= 2 && forall k :: 0 <= k < n ==> behave(k).acts == acts
    ensures |Performed(behave, 0, n)| <= 4
  {
    assert n > 0 ==> Performed(behave, 0, n) == Performed(behave, 0, n - 1) + acts;
    assert n > 1 ==> Performed(behave, 0, 1) == Performed(behave, 0, 0) + acts;
  }

  lemma LeftOrphaned(acts: seq<Action>, w: World)
    requires acts == [RemoveFd(3)] || acts == [Remove(1), WriteHandler(1, true)]
    requires w.table != [] && w.table[0].kind == Io && w.table[0].tag == 1 && w.table[0].fd == 3 && w.table[0].wfunc
    ensures var s := Acts(acts, w).table; |s| == |w.table| && s[0] == w.table[0].(kind := Removed, func := false, wantOut := s[0].wantOut)
  {
    assert |acts| == 2 ==> Acts(acts, w) == Acts(acts, Act(acts[0], w), 1) == Act(acts[1], Act(acts[0], w));
    assert |acts| == 1 ==> Acts(acts, w) == Act(acts[0], w);
  }
}
