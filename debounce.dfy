/** The trailing-edge `debounce` helper on a virtual clock. The closure
    keeps a timer handle and the arguments of the latest call; every call
    cancels the pending timer and schedules a new one `wait` later, and the
    timer, when it runs, clears the handle and calls the wrapped function
    with the stored arguments. Timers are modelled by deadlines that a
    clock tick at or after the deadline makes due. */
module Debounce {

  import opened Optional

  /** The closure state: the pending timer's deadline (None for the cleared
      handle 0 or the initial undefined one) and the latest arguments. */
  datatype Timer<A> = Timer(deadline: Option<int>, args: Option<A>)

  /** What the debounced function is given: a call, or the clock reaching a time. */
  datatype Input<A> = CallAt(time: int, arg: A) | TickAt(time: int)

  /** The wrapped function ran at `time` with `arg`. */
  datatype Firing<A> = Firing(time: int, arg: A)

  /** A call replaces any pending timer by one due `wait` after now. */
  function OnCall<A>(t: Timer<A>, wait: nat, now: int, a: A): Timer<A> {
    Timer(Some(now + wait), Some(a))
  }

  /** A due timer runs once: the handle is cleared and the stored arguments
      are passed on; otherwise nothing happens. */
  function OnTick<A>(t: Timer<A>, now: int): (Timer<A>, Option<A>) {
    if t.deadline.Some? && t.deadline.value <= now then (Timer(None, t.args), t.args)
    else (t, None)
  }

  function Step<A>(t: Timer<A>, wait: nat, i: Input<A>): (Timer<A>, Option<Firing<A>>) {
    match i
    case CallAt(now, a) => (OnCall(t, wait, now, a), None)
    case TickAt(now) =>
      var r := OnTick(t, now);
      (r.0, if r.1.Some? then Some(Firing(now, r.1.value)) else None)
  }

  /** The state after the first n inputs, from a fresh closure, and the
      firings they caused in order. */
  function Run<A>(wait: nat, s: seq<Input<A>>, n: nat): (Timer<A>, seq<Firing<A>>)
    requires n <= |s|
  {
    if n == 0 then (Timer(None, None), [])
    else
      var before := Run(wait, s, n - 1);
      var r := Step(before.0, wait, s[n - 1]);
      (r.0, before.1 + Fired(r.1))
  }

  function Fired<A>(f: Option<Firing<A>>): seq<Firing<A>> {
    if f.Some? then [f.value] else []
  }

  /** An input that runs nothing only moves the state. */
  lemma QuietStep<A>(wait: nat, s: seq<Input<A>>, n: nat)
    requires 0 < n <= |s|
    requires Step(Run(wait, s, n - 1).0, wait, s[n - 1]).1.None?
    ensures Run(wait, s, n) == (Step(Run(wait, s, n - 1).0, wait, s[n - 1]).0, Run(wait, s, n - 1).1)
  {
    var before := Run(wait, s, n - 1);
    assert before.1 + [] == before.1;
  }

  predicate TimeOrdered<A>(s: seq<Input<A>>) {
    forall i, j :: 0 <= i < j < |s| ==> s[i].time <= s[j].time
  }

  /** The position of the latest call among the first n inputs, if any. */
  function LastCall<A>(s: seq<Input<A>>, n: nat): (k: Option<nat>)
    requires n <= |s|
    ensures k.Some? ==> k.value < n && s[k.value].CallAt?
                        && forall j :: k.value < j < n ==> !s[j].CallAt?
    ensures k.None? ==> forall j :: 0 <= j < n ==> !s[j].CallAt?
  {
    if n == 0 then None
    else if s[n - 1].CallAt? then Some(n - 1)
    else LastCall(s, n - 1)
  }

  /** Each call comes less than `wait` after the call before it: a burst. */
  ghost predicate Burst<A>(s: seq<Input<A>>, wait: nat) {
    forall j {:trigger LastCall(s, j)} :: 0 <= j < |s| && s[j].CallAt? && LastCall(s, j).Some? ==>
      s[j].time < s[LastCall(s, j).value].time + wait
  }

  /** The first tick among positions from..n-1 whose time has reached `due`. */
  function FirstDue<A>(s: seq<Input<A>>, from: nat, due: int, n: nat): (r: Option<nat>)
    requires n <= |s|
    ensures r.Some? ==> from <= r.value < n && s[r.value].TickAt? && due <= s[r.value].time
    ensures r.Some? ==> forall j :: from <= j < r.value ==> !(s[j].TickAt? && due <= s[j].time)
    ensures r.None? ==> forall j :: from <= j < n ==> !(s[j].TickAt? && due <= s[j].time)
  {
    if n <= from then None
    else
      var earlier := FirstDue(s, from, due, n - 1);
      if earlier.Some? then earlier
      else if s[n - 1].TickAt? && due <= s[n - 1].time then Some(n - 1)
      else None
  }

  /** The reference outcome of the first n inputs of a burst: nothing runs
      before the last call; the first tick at least `wait` after the last
      call runs the function once with that call's arguments and clears the
      handle; until such a tick the timer stays pending. */
  function Expected<A>(wait: nat, s: seq<Input<A>>, n: nat): (Timer<A>, seq<Firing<A>>)
    requires n <= |s|
  {
    match LastCall(s, n)
    case None => (Timer(None, None), [])
    case Some(l) =>
      match FirstDue(s, l + 1, s[l].time + wait, n)
      case None => (Timer(Some(s[l].time + wait), Some(s[l].arg)), [])
      case Some(j) => (Timer(None, Some(s[l].arg)), [Firing(s[j].time, s[l].arg)])
  }

  /** A call after a burst prefix leaves nothing run and the timer pending
      for the new call. */
  lemma CallExtends<A>(wait: nat, s: seq<Input<A>>, n: nat)
    requires 0 < n <= |s| && s[n - 1].CallAt? && TimeOrdered(s) && Burst(s, wait)
    requires Run(wait, s, n - 1) == Expected(wait, s, n - 1)
    ensures Run(wait, s, n) == Expected(wait, s, n)
  {
    var before := Run(wait, s, n - 1);
    assert before.1 == [] by {
      match LastCall(s, n - 1)
      case None =>
      case Some(l) =>
        var due := s[l].time + wait;
        assert s[n - 1].time < due;
        assert FirstDue(s, l + 1, due, n - 1).None? by {
          forall j | l + 1 <= j < n - 1 ensures !(s[j].TickAt? && due <= s[j].time) {
            assert s[j].time <= s[n - 1].time;
          }
        }
    }
    QuietStep(wait, s, n);
    assert LastCall(s, n) == Some(n - 1);
    assert FirstDue(s, n, s[n - 1].time + wait, n).None?;
  }

  /** A tick runs the pending timer exactly when it is the first tick to
      reach the deadline. */
  lemma TickExtends<A>(wait: nat, s: seq<Input<A>>, n: nat)
    requires 0 < n <= |s| && s[n - 1].TickAt?
    requires Run(wait, s, n - 1) == Expected(wait, s, n - 1)
    ensures Run(wait, s, n) == Expected(wait, s, n)
  {
    var before := Run(wait, s, n - 1);
    assert LastCall(s, n) == LastCall(s, n - 1);
    match LastCall(s, n - 1)
    case None =>
      assert Step(before.0, wait, s[n - 1]) == (Timer(None, None), None);
      QuietStep(wait, s, n);
    case Some(l) =>
      var due := s[l].time + wait;
      match FirstDue(s, l + 1, due, n - 1)
      case Some(j) =>
        assert Step(before.0, wait, s[n - 1]) == (before.0, None);
        QuietStep(wait, s, n);
        assert FirstDue(s, l + 1, due, n) == Some(j);
      case None =>
        if due <= s[n - 1].time {
          assert FirstDue(s, l + 1, due, n) == Some(n - 1);
          var f := Firing(s[n - 1].time, s[l].arg);
          assert Run(wait, s, n) == (Timer(None, Some(s[l].arg)), [] + [f]);
          assert [] + [f] == [f];
        } else {
          assert Step(before.0, wait, s[n - 1]) == (before.0, None);
          QuietStep(wait, s, n);
          assert FirstDue(s, l + 1, due, n).None?;
        }
  }

  /** A burst of calls, spaced less than `wait` apart, with the clock
      running forward, has exactly the reference outcome after every prefix. */
  lemma {:induction false} BurstOutcome<A>(wait: nat, s: seq<Input<A>>, n: nat)
    requires n <= |s| && TimeOrdered(s) && Burst(s, wait)
    ensures Run(wait, s, n) == Expected(wait, s, n)
  {
    if n == 0 {
      assert Expected(wait, s, 0) == (Timer(None, None), []);
    } else {
      BurstOutcome(wait, s, n - 1);
      Extends(wait, s, n);
    }
  }

  /** One more input keeps the run on the reference outcome. */
  lemma Extends<A>(wait: nat, s: seq<Input<A>>, n: nat)
    requires 0 < n <= |s| && TimeOrdered(s) && Burst(s, wait)
    requires Run(wait, s, n - 1) == Expected(wait, s, n - 1)
    ensures Run(wait, s, n) == Expected(wait, s, n)
  {
    if s[n - 1].CallAt? {
      CallExtends(wait, s, n);
    } else {
      TickExtends(wait, s, n);
    }
  }

  /** When the clock reaches exactly `wait` after the last call of a burst,
      the wrapped function has run exactly once, at that time, with the
      last call's arguments, and the handle is cleared. */
  lemma FiresOnceAfterQuiet<A>(wait: nat, s: seq<Input<A>>, l: nat, t: nat)
    requires TimeOrdered(s) && Burst(s, wait)
    requires l < t < |s| && s[l].CallAt? && forall j :: l < j < |s| ==> !s[j].CallAt?
    requires s[t] == TickAt(s[l].time + wait)
    ensures Run(wait, s, |s|) == (Timer(None, Some(s[l].arg)), [Firing(s[l].time + wait, s[l].arg)])
  {
    var due := s[l].time + wait;
    assert LastCall(s, |s|) == Some(l);
    var first := FirstDue(s, l + 1, due, |s|);
    assert first.Some?;
    var f := first.value;
    assert f <= t;
    assert s[f].time <= s[t].time;
    BurstOutcome(wait, s, |s|);
  }

  /** Before the clock reaches `wait` after the last call nothing has run
      and the timer is still pending for the last call's arguments. */
  lemma QuietUntilDue<A>(wait: nat, s: seq<Input<A>>, l: nat)
    requires TimeOrdered(s) && Burst(s, wait)
    requires l < |s| && s[l].CallAt? && forall j :: l < j < |s| ==> !s[j].CallAt?
    requires s[|s| - 1].time < s[l].time + wait
    ensures Run(wait, s, |s|) == (Timer(Some(s[l].time + wait), Some(s[l].arg)), [])
  {
    var due := s[l].time + wait;
    assert LastCall(s, |s|) == Some(l);
    assert FirstDue(s, l + 1, due, |s|).None? by {
      forall j | l + 1 <= j < |s| ensures !(s[j].TickAt? && due <= s[j].time) {
        assert s[j].time <= s[|s| - 1].time;
      }
    }
    BurstOutcome(wait, s, |s|);
  }

  /** The closure created by `debounce(func, wait)`. */
  class Debouncer<A> {
    const wait: nat
    var deadline: Option<int>
    var args: Option<A>

    function State(): Timer<A>
      reads this
    {
      Timer(deadline, args)
    }

    constructor(wait: nat)
      ensures this.wait == wait && State() == Timer(None, None)
    {
      this.wait := wait;
      deadline := None;
      args := None;
    }

    /** The debounced function: keep the arguments, cancel the pending
        timer, schedule a new one. */
    method Call(now: int, a: A)
      modifies this
      ensures State() == OnCall(old(State()), wait, now, a)
    {
      args := Some(a);
      if deadline.Some? {
        deadline := None;
      }
      deadline := Some(now + wait);
    }

    /** The clock reaches `now`: a due timer runs `later`, which clears the
        handle and hands back the stored arguments for the wrapped call. */
    method Tick(now: int) returns (fired: Option<A>)
      modifies this
      ensures (State(), fired) == OnTick(old(State()), now)
    {
      if deadline.Some? && deadline.value <= now {
        deadline := None;
        fired := args;
      } else {
        fired := None;
      }
    }
  }
}
