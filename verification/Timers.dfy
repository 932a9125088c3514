// The timer classes timer-on, timer-off and timer-pulse (classes/*/main.c) over whole runs: what
// the output says about the history of the input.
module Timers {
  import Logic

  // ---------------------------------------------------------------- the history of an input

  datatype Input = Input(t: nat, on: bool)

  predicate Ordered(h: seq<Input>, now: nat) {
    && (forall i, j :: 0 <= i < j < |h| ==> h[i].t <= h[j].t)
    && (forall i :: 0 <= i < |h| ==> h[i].t <= now)
  }

  // The level after the first n inputs; before any, it is off.
  predicate Was(h: seq<Input>, n: nat)
    requires n <= |h|
  {
    n > 0 && h[n - 1].on
  }

  // Input k changes the level, to on or to off.
  predicate Edge(h: seq<Input>, k: nat, on: bool)
    requires k < |h|
  {
    h[k].on == on && Was(h, k) != on
  }

  // The position after the last edge to `on` or to off; 0 when there is none.
  function LastEdge(h: seq<Input>, on: bool): (p: nat)
    ensures p <= |h| && (p > 0 ==> Edge(h, p - 1, on))
    ensures forall k :: p <= k < |h| ==> !Edge(h, k, on)
  {
    if h == [] then 0
    else if Edge(h, |h| - 1, on) then |h|
    else
      var p := LastEdge(h[..|h| - 1], on);
      assert forall k :: 0 <= k < |h| - 1 ==> (Edge(h, k, on) <==> Edge(h[..|h| - 1], k, on));
      p
  }

  // The level of the input at time t: that of the last input no later than t.
  function Level(h: seq<Input>, t: nat): bool {
    if h == [] then false else if h[|h| - 1].t <= t then h[|h| - 1].on else Level(h[..|h| - 1], t)
  }

  // Since the last edge to its present level, the input has kept it.
  lemma {:induction false} KeptSince(h: seq<Input>, t: nat)
    requires var p := LastEdge(h, Was(h, |h|)); p > 0 ==> EdgeTime(h, p) <= t
    ensures Level(h, t) == Was(h, |h|)
    decreases |h|
  {
    hide LastEdge, EdgeTime;
    if h != [] && h[|h| - 1].t > t {
      var g, x := h[..|h| - 1], h[|h| - 1];
      assert g + [x] == h;
      NextEdge(g, x, x.on);
      KeptSince(g, t);
    }
  }

  lemma NextEdge(h: seq<Input>, x: Input, on: bool)
    ensures LastEdge(h + [x], on) == if x.on == on && Was(h, |h|) != on then |h| + 1 else LastEdge(h, on)
    ensures Was(h + [x], |h| + 1) == x.on && EdgeTime(h + [x], |h| + 1) == x.t
    ensures LastEdge(h, on) > 0 ==> EdgeTime(h + [x], LastEdge(h, on)) == EdgeTime(h, LastEdge(h, on))
  {
    assert (h + [x])[..|h|] == h;
    assert |h| > 0 ==> (h + [x])[|h| - 1] == h[|h| - 1];
  }

  lemma OrderedNext(h: seq<Input>, now: nat, x: Input)
    requires Ordered(h, now) && now <= x.t
    ensures Ordered(h + [x], x.t)
  {
  }

  lemma OrderedLater(h: seq<Input>, now: nat, t: nat)
    requires Ordered(h, now) && now <= t
    ensures Ordered(h, t) && forall p :: 0 < p <= |h| ==> EdgeTime(h, p) <= now
  {
  }

  // The moment of an edge found by LastEdge.
  function EdgeTime(h: seq<Input>, p: nat): nat
    requires 0 < p <= |h|
  {
    h[p - 1].t
  }

  datatype Timeout = Idle | Due(t: nat)

  // No timeout is overdue at t: the event loop has run the callbacks it owed.
  predicate Prompt(x: Timeout, t: nat) {
    x == Idle || t < x.t
  }

  // ---------------------------------------------------------------- timer-on

  class TimerOn {
    const delay: nat
    const inv: bool
    var input: bool
    var output: bool
    var timeout: Timeout
    var shown: string          // the value of the output pad
    ghost var h: seq<Input>
    ghost var now: nat         // the time of the last event

    ghost predicate Valid()
      reads this
    {
      && Ordered(h, now) && input == Was(h, |h|) && shown == Logic.Fmt(output != inv)
      && (timeout == Idle <==> !(input && !output))
      && (output ==> input)
      && (input ==>
            var p := LastEdge(h, true);
            && p > 0
            && (timeout != Idle ==> timeout == Due(EdgeTime(h, p) + delay))
            && (output ==> EdgeTime(h, p) + delay <= now))
    }

    // _new and _start
    constructor (delay: nat, inv: bool)
      ensures Valid() && this.delay == delay && this.inv == inv && h == [] && now == 0
    {
      this.delay := delay;
      this.inv := inv;
      input, output, timeout := false, false, Idle;
      h, now := [], 0;
      shown := Logic.Fmt(inv);
    }

    method SetOutput()
      modifies this`shown
      ensures shown == Logic.Fmt(output != inv) == if output != inv then "1" else "0"
    {
      shown := Logic.Fmt(output != inv);
    }

    // timeout: the event loop calls it once, no earlier than it is due
    method Expire(t: nat)
      requires Valid() && timeout != Idle && timeout.t <= t && now <= t
      modifies this`output, this`timeout, this`shown, this`now
      ensures Valid() && now == t && timeout == Idle && output
    {
      timeout := Idle;
      output := true;
      SetOutput();
      now := t;
    }

    // _input at time t
    method Update(t: nat, value: string)
      requires Valid() && now <= t
      modifies this`input, this`output, this`timeout, this`shown, this`h, this`now
      ensures Valid() && now == t && h == old(h) + [Input(t, Logic.Truth(value))] && output == (old(output) && Logic.Truth(value))
    {
      hide Ordered, Was, LastEdge, LastSelected, EdgeTime, Logic.Truth, Logic.Fmt, Edge;
      ghost var x := Input(t, Logic.Truth(value));
      NextEdge(h, x, true);
      OrderedNext(h, now, x);
      var state0 := input;
      input := Logic.Truth(value);
      if input {
        if !state0 {
          timeout := Due(t + delay);
        }
      } else {
        if timeout != Idle {
          timeout := Idle;
        }
        if output {
          output := false;
          SetOutput();
        }
      }
      h, now := h + [x], t;
    }

    // While the output is on, the input has been on for at least the delay.
    lemma OnMeansHeld(t: nat)
      requires Valid() && output && now <= t + delay
      ensures now >= delay && Level(h, t)
    {
      KeptSince(h, t);
    }

    // When no callback is owed, the output is on exactly when the last rising edge is that old and
    // no falling edge came since.
    lemma Exact(t: nat)
      requires Valid() && now <= t && Prompt(timeout, t)
      ensures output <==> input && EdgeTime(h, LastEdge(h, true)) + delay <= t
      ensures timeout != Idle <==> input && t < EdgeTime(h, LastEdge(h, true)) + delay
    {
    }
  }

  // ---------------------------------------------------------------- timer-off

  class TimerOff {
    const delay: nat
    const inv: bool
    var input: bool
    var output: bool
    var timeout: Timeout
    var shown: string
    ghost var h: seq<Input>
    ghost var now: nat

    ghost predicate Valid()
      reads this
    {
      && Ordered(h, now) && input == Was(h, |h|) && shown == Logic.Fmt(output != inv)
      && (timeout == Idle <==> !(!input && output))
      && (input ==> output)
      && (!input ==>
            var p := LastEdge(h, false);
            if p == 0 then !output
            else if output then timeout == Due(EdgeTime(h, p) + delay)
            else EdgeTime(h, p) + delay <= now)
    }

    constructor (delay: nat, inv: bool)
      ensures Valid() && this.delay == delay && this.inv == inv && h == [] && now == 0
    {
      this.delay := delay;
      this.inv := inv;
      input, output, timeout := false, false, Idle;
      h, now := [], 0;
      shown := Logic.Fmt(inv);
    }

    method SetOutput()
      modifies this`shown
      ensures shown == Logic.Fmt(output != inv) == if output != inv then "1" else "0"
    {
      shown := Logic.Fmt(output != inv);
    }

    method Expire(t: nat)
      requires Valid() && timeout != Idle && timeout.t <= t && now <= t
      modifies this`output, this`timeout, this`shown, this`now
      ensures Valid() && now == t && timeout == Idle && !output
    {
      timeout := Idle;
      output := false;
      SetOutput();
      now := t;
    }

    method Update(t: nat, value: string)
      requires Valid() && now <= t
      modifies this`input, this`output, this`timeout, this`shown, this`h, this`now
      ensures Valid() && now == t && h == old(h) + [Input(t, Logic.Truth(value))] && output == (old(output) || Logic.Truth(value))
    {
      hide Ordered, Was, LastEdge, LastSelected, EdgeTime, Logic.Truth, Logic.Fmt, Edge;
      ghost var x := Input(t, Logic.Truth(value));
      NextEdge(h, x, false);
      OrderedNext(h, now, x);
      var state0 := input;
      input := Logic.Truth(value);
      if input {
        if timeout != Idle {
          timeout := Idle;
        }
        if !output {
          output := true;
          SetOutput();
        }
      } else {
        if state0 {
          timeout := Due(t + delay);
        }
      }
      h, now := h + [x], t;
    }

    // While the output is off, the input has been off for at least the delay, or was never on.
    lemma OffMeansReleased(t: nat)
      requires Valid() && !output && (LastEdge(h, false) > 0 ==> now <= t + delay)
      ensures !Level(h, t)
    {
      KeptSince(h, t);
    }

    // When no callback is owed, the output is on exactly when the input is, or was until less
    // than the delay ago.
    lemma Exact(t: nat)
      requires Valid() && now <= t && Prompt(timeout, t)
      ensures var p := LastEdge(h, false);
              && (output <==> input || (p > 0 && t < EdgeTime(h, p) + delay))
              && (timeout != Idle <==> !input && p > 0 && t < EdgeTime(h, p) + delay)
    {
    }
  }

  // ---------------------------------------------------------------- timer-pulse

  datatype Sense = Raising | Falling | Both

  predicate Selected(edge: Sense, before: bool, after: bool) {
    (edge != Falling && !before && after) || (edge != Raising && before && !after)
  }

  // The position after the last selected edge; 0 when there is none.
  function LastSelected(h: seq<Input>, edge: Sense): (p: nat)
    ensures p <= |h| && (p > 0 ==> Selected(edge, Was(h, p - 1), Was(h, p)))
    ensures forall k :: p < k <= |h| ==> !Selected(edge, Was(h, k - 1), Was(h, k))
  {
    if h == [] then 0
    else if Selected(edge, Was(h, |h| - 1), Was(h, |h|)) then |h|
    else
      var g := h[..|h| - 1];
      assert forall k :: 0 <= k < |h| ==> Was(g, k) == Was(h, k);
      LastSelected(g, edge)
  }

  lemma NextWas(h: seq<Input>, x: Input)
    ensures Was(h + [x], |h| + 1) == x.on
  {
  }

  lemma NextSelected(h: seq<Input>, x: Input, edge: Sense)
    ensures LastSelected(h + [x], edge) ==
            if Selected(edge, Was(h, |h|), x.on) then |h| + 1 else LastSelected(h, edge)
    ensures Was(h + [x], |h| + 1) == x.on && EdgeTime(h + [x], |h| + 1) == x.t
    ensures LastSelected(h, edge) > 0 ==> EdgeTime(h + [x], LastSelected(h, edge)) == EdgeTime(h, LastSelected(h, edge))
  {
    assert (h + [x])[..|h|] == h;
    assert |h| > 0 ==> (h + [x])[|h| - 1] == h[|h| - 1];
  }

  // The position after the last edge that begins a pulse, when pulses are not prolonged: a selected
  // edge that comes no earlier than the delay after the one before. 0 when there is none.
  function Accepted(h: seq<Input>, edge: Sense, delay: nat): (p: nat)
    ensures p <= |h|
  {
    if h == [] then 0
    else
      var g := h[..|h| - 1];
      var p := Accepted(g, edge, delay);
      if Selected(edge, Was(h, |g|), Was(h, |h|)) && (p == 0 || EdgeTime(h, p) + delay <= h[|g|].t) then |h| else p
  }

  lemma NextAccepted(h: seq<Input>, x: Input, edge: Sense, delay: nat)
    ensures var p := Accepted(h, edge, delay);
            && Accepted(h + [x], edge, delay) ==
               (if Selected(edge, Was(h, |h|), x.on) && (p == 0 || EdgeTime(h, p) + delay <= x.t) then |h| + 1 else p)
            && (p > 0 ==> EdgeTime(h + [x], p) == EdgeTime(h, p))
  {
    var g := h + [x];
    assert g[..|h|] == h;
    assert |h| > 0 ==> g[|h| - 1] == h[|h| - 1];
    assert g[|h|] == x;
    var p := Accepted(h, edge, delay);
    assert p > 0 ==> g[p - 1] == h[p - 1];
  }

  // A pulse that is over: when it began, the last edge that counted for it, when it ended.
  datatype Pulse = Pulse(begin: nat, last: nat, end: nat)

  // A pulse lasts at least the delay after the last edge that counted; unless the timer is
  // retriggered, that is the edge that began it.
  predicate LongEnough(pulses: seq<Pulse>, delay: nat, retrigger: bool, now: nat) {
    forall k :: 0 <= k < |pulses| ==>
      && pulses[k].begin <= pulses[k].last && pulses[k].last + delay <= pulses[k].end <= now
      && (!retrigger ==> pulses[k].last == pulses[k].begin)
  }

  lemma LongEnoughLater(pulses: seq<Pulse>, delay: nat, retrigger: bool, now: nat, t: nat)
    requires LongEnough(pulses, delay, retrigger, now) && now <= t
    ensures LongEnough(pulses, delay, retrigger, t)
  {
  }

  // The output, the timeout, and the present pulse: when it began, the last edge that counted.
  datatype Phase = Phase(output: bool, timeout: Timeout, begin: nat, last: nat)

  // A timer is pending exactly during a pulse, which ends the delay after the last edge that
  // counted: the last selected one if the timer is retriggered, else the one that began the pulse.
  // Between pulses, the last selected edge is part of the last one.
  predicate InPhase(h: seq<Input>, edge: Sense, retrigger: bool, delay: nat, p: Phase, pulses: seq<Pulse>, now: nat) {
    var q := LastSelected(h, edge);
    && (p.timeout == Idle <==> !p.output)
    && (p.output ==>
          && p.timeout == Due(p.last + delay) && p.begin <= p.last <= now && q > 0 && p.last <= EdgeTime(h, q)
          && (if retrigger then p.last == EdgeTime(h, q) else p.last == p.begin))
    && (!p.output && q > 0 ==>
          && pulses != [] && pulses[|pulses| - 1].last <= EdgeTime(h, q) <= pulses[|pulses| - 1].end
          && (retrigger ==> EdgeTime(h, q) == pulses[|pulses| - 1].last))
  }

  // What an input at time t does.
  function Stepped(p: Phase, selected: bool, retrigger: bool, delay: nat, t: nat): Phase {
    if selected && (!p.output || retrigger) then Phase(true, Due(t + delay), if p.output then p.begin else t, t) else p
  }

  lemma SteppedIs(p: Phase, selected: bool, retrigger: bool, delay: nat, t: nat)
    ensures var q := Stepped(p, selected, retrigger, delay, t);
            && q.output == (p.output || selected)
            && q.begin == (if !p.output && selected then t else p.begin)
            && (!selected ==> q == p)
  {
  }

  lemma StartIs(p: Phase, selected: bool, retrigger: bool, delay: nat, t: nat)
    ensures !p.output && selected ==> Stepped(p, selected, retrigger, delay, t).timeout == Due(t + delay)
  {
  }

  lemma SelectedIs(edge: Sense, before: bool, after: bool)
    ensures Selected(edge, before, after) == ((edge != Falling && !before && after) || (edge != Raising && before && !after))
  {
  }

  lemma PhaseIs(h: seq<Input>, edge: Sense, retrigger: bool, delay: nat, p: Phase, pulses: seq<Pulse>, now: nat)
    requires InPhase(h, edge, retrigger, delay, p, pulses, now)
    ensures p.output ==> p.timeout == Due(p.last + delay) && (!retrigger ==> p.last == p.begin)
  {
  }

  lemma InPhaseNext(h: seq<Input>, edge: Sense, retrigger: bool, delay: nat, p: Phase, pulses: seq<Pulse>, now: nat, x: Input)
    requires InPhase(h, edge, retrigger, delay, p, pulses, now) && now <= x.t
    ensures InPhase(h + [x], edge, retrigger, delay, Stepped(p, Selected(edge, Was(h, |h|), x.on), retrigger, delay, x.t),
                    pulses, x.t)
  {
    hide Was, LastSelected, EdgeTime, Selected;
    NextSelected(h, x, edge);
    assert LastSelected(h, edge) > 0 && Ordered(h, now) ==> EdgeTime(h, LastSelected(h, edge)) <= now by {
      if Ordered(h, now) {
        OrderedLater(h, now, now);
      }
    }
  }

  // The present pulse is that of the last accepted edge; else that one is over.
  predicate Single(h: seq<Input>, edge: Sense, delay: nat, output: bool, begin: nat, now: nat) {
    var p := Accepted(h, edge, delay);
    if output then p > 0 && EdgeTime(h, p) == begin else p > 0 ==> EdgeTime(h, p) + delay <= now
  }

  // One more input, with no callback owed.
  lemma SingleNext(h: seq<Input>, edge: Sense, delay: nat, output: bool, begin: nat, now: nat, x: Input)
    requires Single(h, edge, delay, output, begin, now) && now <= x.t && (output ==> x.t < begin + delay)
    ensures var starts := !output && Selected(edge, Was(h, |h|), x.on);
            Single(h + [x], edge, delay, output || starts, if starts then x.t else begin, x.t)
  {
    hide Was;
    NextAccepted(h, x, edge, delay);
    assert (h + [x])[|h|] == x;
  }

  predicate PulseOk(h: seq<Input>, edge: Sense, retrigger: bool, delay: nat, p: Phase, pulses: seq<Pulse>, now: nat,
                    prompt: bool)
  {
    && Ordered(h, now) && LongEnough(pulses, delay, retrigger, now)
    && InPhase(h, edge, retrigger, delay, p, pulses, now)
    && (!retrigger && prompt ==> Single(h, edge, delay, p.output, p.begin, now))
  }

  lemma PulseOkNext(h: seq<Input>, edge: Sense, retrigger: bool, delay: nat, p: Phase, pulses: seq<Pulse>, now: nat,
                    prompt: bool, x: Input)
    requires PulseOk(h, edge, retrigger, delay, p, pulses, now, prompt) && now <= x.t
    ensures PulseOk(h + [x], edge, retrigger, delay, Stepped(p, Selected(edge, Was(h, |h|), x.on), retrigger, delay, x.t),
                    pulses, x.t, prompt && Prompt(p.timeout, x.t))
  {
    hide Ordered, Was, InPhase, Single, LongEnough, Selected;
    InPhaseNext(h, edge, retrigger, delay, p, pulses, now, x);
    LongEnoughLater(pulses, delay, retrigger, now, x.t);
    OrderedNext(h, now, x);
    PhaseIs(h, edge, retrigger, delay, p, pulses, now);
    if !retrigger && prompt && Prompt(p.timeout, x.t) {
      SingleNext(h, edge, delay, p.output, p.begin, now, x);
    }
  }

  lemma PulseOkEnds(h: seq<Input>, edge: Sense, retrigger: bool, delay: nat, p: Phase, pulses: seq<Pulse>, now: nat,
                    prompt: bool, t: nat)
    requires PulseOk(h, edge, retrigger, delay, p, pulses, now, prompt)
    requires p.timeout != Idle && p.timeout.t <= t && now <= t
    ensures PulseOk(h, edge, retrigger, delay, p.(output := false, timeout := Idle), pulses + [Pulse(p.begin, p.last, t)], t, prompt)
  {
    hide Ordered, LastSelected, EdgeTime, Accepted;
    OrderedLater(h, now, t);
  }

  class TimerPulse {
    const edge: Sense
    const retrigger: bool
    const delay: nat
    const inv: bool
    var input: bool
    var output: bool
    var timeout: Timeout
    var shown: string
    ghost var h: seq<Input>
    ghost var now: nat
    ghost var begin: nat             // of the present pulse
    ghost var last: nat              // the last edge that counted for it
    ghost var pulses: seq<Pulse>
    ghost var prompt: bool           // no input came while a callback was owed

    ghost function State(): Phase
      reads this
    {
      Phase(output, timeout, begin, last)
    }

    ghost predicate Valid()
      reads this
    {
      && input == Was(h, |h|) && shown == Logic.Fmt(output != inv)
      && PulseOk(h, edge, retrigger, delay, State(), pulses, now, prompt)
    }

    constructor (edge: Sense, retrigger: bool, delay: nat, inv: bool)
      ensures Valid() && this.edge == edge && this.retrigger == retrigger && this.delay == delay && this.inv == inv
      ensures h == [] && now == 0 && pulses == [] && prompt
    {
      this.edge := edge;
      this.retrigger := retrigger;
      this.delay := delay;
      this.inv := inv;
      input, output, timeout := false, false, Idle;
      h, now, pulses, prompt := [], 0, [], true;
      shown := Logic.Fmt(inv);
    }

    method SetOutput()
      modifies this`shown
      ensures shown == Logic.Fmt(output != inv) == if output != inv then "1" else "0"
    {
      shown := Logic.Fmt(output != inv);
    }

    method Expire(t: nat)
      requires Valid() && timeout != Idle && timeout.t <= t && now <= t
      modifies this`output, this`timeout, this`shown, this`now, this`pulses
      ensures Valid() && now == t && timeout == Idle && !output
      ensures pulses == old(pulses) + [Pulse(old(begin), old(last), t)]
    {
      hide PulseOk, Was, Logic.Fmt;
      PulseOkEnds(h, edge, retrigger, delay, State(), pulses, now, prompt, t);
      timeout := Idle;
      output := false;
      SetOutput();
      pulses := pulses + [Pulse(begin, last, t)];
      now := t;
    }

    // A selected edge starts a pulse, or prolongs the present one if the timer is retriggered.
    method Update(t: nat, value: string)
      requires Valid() && now <= t
      modifies this`input, this`output, this`timeout, this`shown, this`h, this`now, this`begin, this`last, this`prompt
      ensures Valid() && now == t && h == old(h) + [Input(t, Logic.Truth(value))]
      ensures State() == Stepped(old(State()), Selected(edge, old(input), Logic.Truth(value)), retrigger, delay, t)
      ensures prompt == (old(prompt) && Prompt(old(timeout), t))
      ensures !old(output) ==>
                (output <==> match edge
                             case Raising => !old(input) && input
                             case Falling => old(input) && !input
                             case Both => input != old(input))
      ensures !old(output) && output ==> timeout == Due(t + delay)
    {
      hide PulseOk, Was, Stepped, Selected, Logic.Truth, Logic.Fmt;
      ghost var x, p := Input(t, Logic.Truth(value)), State();
      ghost var sel := Selected(edge, input, x.on);
      SteppedIs(p, sel, retrigger, delay, t);
      PulseOkNext(h, edge, retrigger, delay, p, pulses, now, prompt, x);
      NextWas(h, x);
      prompt := prompt && Prompt(timeout, t);
      var state0 := input;
      input := Logic.Truth(value);
      assert sel == ((edge != Falling && !state0 && input) || (edge != Raising && state0 && !input)) by {
        SelectedIs(edge, state0, input);
      }
      if (edge != Falling && !state0 && input) || (edge != Raising && state0 && !input) {
        Trigger(t);
      }
      assert State() == Stepped(p, sel, retrigger, delay, t);
      StartIs(p, sel, retrigger, delay, t);
      h, now := h + [x], t;
    }

    // What a selected edge does.
    method Trigger(t: nat)
      requires shown == Logic.Fmt(output != inv)
      modifies this`output, this`timeout, this`shown, this`begin, this`last
      ensures State() == Stepped(old(State()), true, retrigger, delay, t) && shown == Logic.Fmt(output != inv)
    {
      if !output || retrigger {
        timeout := Due(t + delay);
        last := t;
        if !output {
          begin := t;
          output := true;
          SetOutput();
        }
      }
    }

    // A retriggered timer, when no callback is owed, is on exactly when the last selected edge is
    // less than the delay ago.
    lemma Exact(t: nat)
      requires Valid() && retrigger && now <= t && Prompt(timeout, t)
      ensures var p := LastSelected(h, edge);
              output <==> p > 0 && t < EdgeTime(h, p) + delay
    {
    }

    // One that is not retriggered, when every callback owed was run before the next input, is on
    // exactly when the edge that began the last pulse is less than the delay ago.
    lemma ExactOnce(t: nat)
      requires Valid() && !retrigger && prompt && now <= t && Prompt(timeout, t)
      ensures var p := Accepted(h, edge, delay);
              output <==> p > 0 && t < EdgeTime(h, p) + delay
    {
    }
  }
}
