/**
 * The named mutex of appcd-util: `mutex(name, fn)` runs `fn` for the first
 * caller of a name and makes every caller that arrives while that run is in
 * flight wait for its outcome. The module-level `pendingMutexes` dictionary
 * maps each name with a run in flight to the callers waiting on it.
 *
 * Promises become explicit events: a call of `mutex` is `Call`, and a promise
 * returned by `fn` settling later is `Complete`. A caller's promise is
 * identified by a `Waiter` number; a `Notice` records one call of that
 * caller's `resolve` or `reject`.
 */
module AppcdMutex {
  import opened JsValue

  type Waiter = nat

  /** The `name` argument: a string, or some other JavaScript value. */
  datatype NameArg = NameStr(name: string) | NotAString

  /** The `fn` argument, and what calling it does. */
  datatype FnArg =
    | NotAFunction
    | ReturnsValue(value: Json)  // fn() returns something that is not a Promise
    | Throws(error: Json)        // fn() throws synchronously
    | ReturnsPromise             // fn() returns a Promise; it settles in a later Complete event

  /** How a promise returned by `fn` settles. */
  datatype FnOutcome = Fulfilled(value: Json) | Failed(error: Json)

  datatype Failure = TypeError(message: string) | Raised(error: Json)

  datatype Settlement = Resolve(value: Json) | Reject(failure: Failure)

  datatype Notice = Notice(waiter: Waiter, settlement: Settlement)

  /** The contents of `pendingMutexes`. */
  type Pending = map<string, seq<Waiter>>

  /** The result of one event: the new registry, the notices in order, and whether `fn` was called. */
  datatype Step = Step(pending: Pending, notices: seq<Notice>, invoked: bool)

  const NameError := "Expected name to be a non-empty string"
  const FnError := "Expected fn to be a function"

  /** Every entry is under a non-empty name and holds at least one caller. */
  predicate WellFormed(p: Pending) {
    forall n :: n in p ==> n != "" && |p[n]| > 0
  }

  predicate ValidName(name: NameArg) {
    name.NameStr? && name.name != ""
  }

  /** The same settlement delivered to each of `waiters`, in order. */
  function Fanout(waiters: seq<Waiter>, s: Settlement): (notices: seq<Notice>)
    ensures |notices| == |waiters|
  {
    if waiters == [] then [] else [Notice(waiters[0], s)] + Fanout(waiters[1..], s)
  }

  lemma {:induction false} FanoutSnoc(waiters: seq<Waiter>, w: Waiter, s: Settlement)
    ensures Fanout(waiters + [w], s) == Fanout(waiters, s) + [Notice(w, s)]
  {
    if waiters != [] {
      assert (waiters + [w])[1..] == waiters[1..] + [w];
      FanoutSnoc(waiters[1..], w, s);
    }
  }

  /** The i-th notice of a fan-out goes to the i-th waiter and carries the one settlement. */
  lemma {:induction false} FanoutAt(waiters: seq<Waiter>, s: Settlement, i: nat)
    requires i < |waiters|
    ensures Fanout(waiters, s)[i] == Notice(waiters[i], s)
  {
    if i > 0 {
      FanoutAt(waiters[1..], s, i - 1);
    }
  }

  /**
   * `dispatchSuccess` / `dispatchError`: the entry is deleted first, then the
   * first caller is settled directly and every waiter of the entry (the first
   * caller again among them) is settled with the same outcome.
   */
  function Dispatch(p: Pending, name: string, s: Settlement): Step
    requires name in p && |p[name]| > 0
  {
    Step(p - {name}, [Notice(p[name][0], s)] + Fanout(p[name], s), false)
  }

  /** Dispatching notifies the first caller of the entry and then each of its waiters, the first caller again among them. */
  lemma DispatchNotices(p: Pending, name: string, s: Settlement)
    requires name in p && |p[name]| > 0
    ensures Dispatch(p, name, s).notices == Fanout([p[name][0]] + p[name], s)
    ensures |Dispatch(p, name, s).notices| == |p[name]| + 1
  {
    assert ([p[name][0]] + p[name])[1..] == p[name];
  }

  function SettlementOf(o: FnOutcome): Settlement {
    match o
    case Fulfilled(v) => Resolve(v)
    case Failed(e) => Reject(Raised(e))
  }

  /** One call `mutex(name, fn)` from the caller `w`, run to the point where it yields to the event loop. */
  function Call(p: Pending, name: NameArg, fn: FnArg, w: Waiter): (r: Step)
  {
    if !ValidName(name) then Step(p, [Notice(w, Reject(TypeError(NameError)))], false)
    else if fn.NotAFunction? then Step(p, [Notice(w, Reject(TypeError(FnError)))], false)
    else if name.name in p then Step(p[name.name := p[name.name] + [w]], [], false)
    else
      var started := p[name.name := [w]];
      if fn.ReturnsPromise? then Step(started, [], true)
      else
        var r := Dispatch(started, name.name, SettlementOf(SyncOutcome(fn)));
        assert r.pending == p;
        r.(invoked := true)
  }

  /** What one call does, case by case, in the order the source checks its arguments. */
  lemma CallSemantics(p: Pending, name: NameArg, fn: FnArg, w: Waiter)
    // a bad argument is rejected with a TypeError and changes nothing
    ensures !ValidName(name) ==>
              Call(p, name, fn, w) == Step(p, [Notice(w, Reject(TypeError(NameError)))], false)
    ensures ValidName(name) && fn.NotAFunction? ==>
              Call(p, name, fn, w) == Step(p, [Notice(w, Reject(TypeError(FnError)))], false)
    // a name with a run in flight only queues the caller
    ensures ValidName(name) && !fn.NotAFunction? && name.name in p ==>
              Call(p, name, fn, w) == Step(p[name.name := p[name.name] + [w]], [], false)
    // otherwise fn is called, once, for this caller
    ensures Call(p, name, fn, w).invoked <==> ValidName(name) && !fn.NotAFunction? && name.name !in p
    ensures ValidName(name) && fn.ReturnsPromise? && name.name !in p ==>
              Call(p, name, fn, w) == Step(p[name.name := [w]], [], true)
    // and when it returns or throws without a promise, the caller is settled twice and no entry is left
    ensures ValidName(name) && (fn.ReturnsValue? || fn.Throws?) && name.name !in p ==>
              var s := SettlementOf(SyncOutcome(fn));
              Call(p, name, fn, w) == Step(p, [Notice(w, s), Notice(w, s)], true)
  {
    if ValidName(name) && (fn.ReturnsValue? || fn.Throws?) && name.name !in p {
      var s := SettlementOf(SyncOutcome(fn));
      var started := p[name.name := [w]];
      assert Dispatch(started, name.name, s).notices == [Notice(w, s), Notice(w, s)];
    }
  }

  /** The outcome of an `fn` that returns or throws without a promise. */
  function SyncOutcome(fn: FnArg): FnOutcome
    requires fn.ReturnsValue? || fn.Throws?
  {
    if fn.ReturnsValue? then Fulfilled(fn.value) else Failed(fn.error)
  }

  /** The promise returned by the run in flight for `name` settles. */
  function Complete(p: Pending, name: string, outcome: FnOutcome): Step
    requires name in p && |p[name]| > 0
  {
    Dispatch(p, name, SettlementOf(outcome))
  }

  /** A call keeps every entry non-empty and under a non-empty name. */
  lemma CallKeepsWellFormed(p: Pending, name: NameArg, fn: FnArg, w: Waiter)
    requires WellFormed(p)
    ensures WellFormed(Call(p, name, fn, w).pending)
  {
    CallSemantics(p, name, fn, w);
  }

  /**
   * The head of an entry is the caller that created it: a call never
   * changes the head of an existing entry, and an entry it creates holds
   * only its own caller.
   */
  lemma CallKeepsHeads(p: Pending, name: NameArg, fn: FnArg, w: Waiter)
    requires WellFormed(p)
    ensures var q := Call(p, name, fn, w).pending;
            (forall n :: n in p && n in q ==> |q[n]| > 0 && q[n][0] == p[n][0]) &&
            (forall n :: n !in p && n in q ==> q[n] == [w])
  {
    CallSemantics(p, name, fn, w);
  }

  /** Completion removes exactly the settled entry and leaves every other entry as it was. */
  lemma CompleteKeepsOthers(p: Pending, name: string, outcome: FnOutcome)
    requires name in p && |p[name]| > 0
    ensures var q := Complete(p, name, outcome).pending;
            name !in q && forall n :: n in q ==> n in p && q[n] == p[n]
  {
  }

  lemma CompleteKeepsWellFormed(p: Pending, name: string, outcome: FnOutcome)
    requires WellFormed(p) && name in p
    ensures WellFormed(Complete(p, name, outcome).pending)
  {
  }

  /** The entry is deleted before anyone is notified, so a call made after completion starts a fresh run. */
  lemma FreshRunAfterCompletion(p: Pending, name: string, outcome: FnOutcome, fn: FnArg, w: Waiter)
    requires name in p && name != "" && |p[name]| > 0 && !fn.NotAFunction?
    ensures var after := Complete(p, name, outcome).pending;
            Call(after, NameStr(name), fn, w).invoked
  {
  }

  // ---------------------------------------------------------------------
  // Sequences of events

  datatype Event = CallEvent(name: NameArg, fn: FnArg, waiter: Waiter) | CompleteEvent(key: string, outcome: FnOutcome)

  /**
   * What a sequence of events does: the final registry, every notice in
   * order, the names whose `fn` was called, and the names whose entry was
   * dispatched. A promise can only settle for a run in flight, so a
   * `CompleteEvent` for a name without an entry does not occur; `Run` skips it.
   */
  datatype Trace = Trace(pending: Pending, notices: seq<Notice>, started: seq<string>, finished: seq<string>)

  function Apply(p: Pending, e: Event): (r: Trace)
  {
    match e
    case CallEvent(name, fn, w) =>
      var st := Call(p, name, fn, w);
      var dispatched := st.invoked && !fn.ReturnsPromise?;
      Trace(st.pending, st.notices,
            if st.invoked then [name.name] else [],
            if dispatched then [name.name] else [])
    case CompleteEvent(key, outcome) =>
      if key in p && |p[key]| > 0 then
        var st := Complete(p, key, outcome);
        Trace(st.pending, st.notices, [], [key])
      else Trace(p, [], [], [])
  }

  /** The events applied one at a time by `step`, their notices and names collected in order. */
  function Fold(step: (Pending, Event) -> Trace, p: Pending, events: seq<Event>): (t: Trace)
    decreases |events|
  {
    if events == [] then Trace(p, [], [], [])
    else
      var first := step(p, events[0]);
      var rest := Fold(step, first.pending, events[1..]);
      Trace(rest.pending, first.notices + rest.notices, first.started + rest.started, first.finished + rest.finished)
  }

  function Run(p: Pending, events: seq<Event>): (t: Trace)
  {
    Fold(Apply, p, events)
  }

  function Count(names: seq<string>, n: string): nat {
    if names == [] then 0 else (if names[0] == n then 1 else 0) + Count(names[1..], n)
  }

  lemma {:induction false} CountAppend(a: seq<string>, b: seq<string>, n: string)
    ensures Count(a + b, n) == Count(a, n) + Count(b, n)
  {
    if a != [] {
      assert (a + b)[1..] == a[1..] + b;
      CountAppend(a[1..], b, n);
    } else {
      assert a + b == b;
    }
  }

  /** The balance of `OneRunInFlight`, for one event. */
  lemma {:induction false} StepBalance(p: Pending, e: Event, n: string)
    ensures var t := Apply(p, e);
            Count(t.started, n) + (if n in p then 1 else 0) == Count(t.finished, n) + (if n in t.pending then 1 else 0)
  {
    match e
    case CallEvent(name, fn, w) =>
      CallSemantics(p, name, fn, w);
    case CompleteEvent(key, outcome) =>
  }

  /**
   * At most one run per name is in flight: the runs started for `n` plus
   * one if `n` had an entry before equal the runs finished plus one if `n`
   * has an entry after. As every prefix of a trace is a trace, the number
   * of runs of `n` in flight is never more than one.
   */
  lemma {:induction false} OneRunInFlight(p: Pending, events: seq<Event>, n: string)
    ensures var t := Run(p, events);
            Count(t.started, n) + (if n in p then 1 else 0) == Count(t.finished, n) + (if n in t.pending then 1 else 0)
    decreases |events|
  {
    if events != [] {
      var first := Apply(p, events[0]);
      var rest := Run(first.pending, events[1..]);
      StepBalance(p, events[0], n);
      OneRunInFlight(first.pending, events[1..], n);
      CountAppend(first.started, rest.started, n);
      CountAppend(first.finished, rest.finished, n);
    }
  }

  /** Folding two sequences of events one after the other, whatever the step. */
  lemma {:induction false} FoldAppend(step: (Pending, Event) -> Trace, p: Pending, a: seq<Event>, b: seq<Event>)
    ensures var mid := Fold(step, p, a).pending;
            Fold(step, p, a + b) ==
            Trace(Fold(step, mid, b).pending,
                  Fold(step, p, a).notices + Fold(step, mid, b).notices,
                  Fold(step, p, a).started + Fold(step, mid, b).started,
                  Fold(step, p, a).finished + Fold(step, mid, b).finished)
    decreases |a|
  {
    if a != [] {
      assert (a + b)[0] == a[0];
      assert (a + b)[1..] == a[1..] + b;
      var first := step(p, a[0]);
      var ra := Fold(step, first.pending, a[1..]);
      var tb := Fold(step, ra.pending, b);
      FoldAppend(step, first.pending, a[1..], b);
      assert first.notices + (ra.notices + tb.notices) == (first.notices + ra.notices) + tb.notices;
      assert first.started + (ra.started + tb.started) == (first.started + ra.started) + tb.started;
      assert first.finished + (ra.finished + tb.finished) == (first.finished + ra.finished) + tb.finished;
    } else {
      assert a + b == b;
    }
  }

  /** Running two sequences of events one after the other. */
  lemma RunAppend(p: Pending, a: seq<Event>, b: seq<Event>)
    ensures var mid := Run(p, a).pending;
            Run(p, a + b) ==
            Trace(Run(mid, b).pending,
                  Run(p, a).notices + Run(mid, b).notices,
                  Run(p, a).started + Run(mid, b).started,
                  Run(p, a).finished + Run(mid, b).finished)
  {
    FoldAppend(Apply, p, a, b);
  }

  /** Calls of `name` from `waiters`, each with the matching `fns` argument. */
  function Calls(name: string, fns: seq<FnArg>, waiters: seq<Waiter>): (events: seq<Event>)
    requires |fns| == |waiters|
    ensures |events| == |waiters|
  {
    if waiters == [] then [] else [CallEvent(NameStr(name), fns[0], waiters[0])] + Calls(name, fns[1..], waiters[1..])
  }

  /** An event that only changes the registry leaves the rest of a trace to the events after it. */
  lemma SilentStep(p: Pending, events: seq<Event>, q: Pending)
    requires |events| > 0 && Apply(p, events[0]) == Trace(q, [], [], [])
    ensures Run(p, events) == Run(q, events[1..])
  {
  }

  /** While `name` has a run in flight, further calls only join its waiter list and never call `fn`. */
  lemma {:induction false} LaterCallsOnlyQueue(p: Pending, name: string, fns: seq<FnArg>, waiters: seq<Waiter>)
    requires name in p && name != "" && |fns| == |waiters|
    requires forall i :: 0 <= i < |fns| ==> !fns[i].NotAFunction?
    ensures Run(p, Calls(name, fns, waiters)) == Trace(p[name := p[name] + waiters], [], [], [])
    decreases |waiters|
  {
    var events := Calls(name, fns, waiters);
    if waiters == [] {
      assert events == [];
      assert p[name] + waiters == p[name];
    } else {
      var next := p[name := p[name] + [waiters[0]]];
      var target := p[name := p[name] + waiters];
      assert Run(p, events) == Run(next, events[1..]) by {
        QueuedCall(p, name, fns[0], waiters[0]);
        SilentStep(p, events, next);
      }
      assert Run(next, events[1..]) == Trace(target, [], [], []) by {
        assert events[1..] == Calls(name, fns[1..], waiters[1..]);
        LaterCallsOnlyQueue(next, name, fns[1..], waiters[1..]);
        assert next[name] + waiters[1..] == p[name] + waiters by {
          assert waiters == [waiters[0]] + waiters[1..];
        }
        assert next[name := next[name] + waiters[1..]] == target;
      }
    }
  }

  /** One queued call, as an event. */
  lemma QueuedCall(p: Pending, name: string, fn: FnArg, w: Waiter)
    requires name in p && name != "" && !fn.NotAFunction?
    ensures Apply(p, CallEvent(NameStr(name), fn, w)) == Trace(p[name := p[name] + [w]], [], [], [])
  {
    CallSemantics(p, NameStr(name), fn, w);
  }

  /**
   * Concurrent callers share one run: when `first` finds no entry and its
   * `fn` returns a promise, every later caller of the same name queues, and
   * when that promise settles the entry is gone, `fn` has run once, and the
   * first caller (twice: directly and as its own waiter) and then each later
   * caller in arrival order get the same outcome.
   */
  lemma SharedOutcome(p: Pending, name: string, first: Waiter, fns: seq<FnArg>, later: seq<Waiter>, outcome: FnOutcome)
    requires name != "" && name !in p && |fns| == |later|
    requires forall i :: 0 <= i < |fns| ==> !fns[i].NotAFunction?
    ensures var events := [CallEvent(NameStr(name), ReturnsPromise, first)] + Calls(name, fns, later) + [CompleteEvent(name, outcome)];
            var t := Run(p, events);
            t.pending == p && t.started == [name] && t.finished == [name] &&
            t.notices == Fanout([first, first] + later, SettlementOf(outcome))
  {
    var start := [CallEvent(NameStr(name), ReturnsPromise, first)] + Calls(name, fns, later);
    var done := [CompleteEvent(name, outcome)];
    var s := SettlementOf(outcome);
    var p2 := p[name := [first] + later];
    RunAppend(p, start, done);
    RunToCompletion(p, name, first, fns, later);
    assert Run(p2, done) == Trace(p, [Notice(first, s)] + Fanout([first] + later, s), [], [name]) by {
      CompletionDispatches(p, name, [first] + later, outcome);
      RunSingle(p2, CompleteEvent(name, outcome));
    }
    assert ([first, first] + later)[1..] == [first] + later;
  }

  /** The events of `SharedOutcome` before the promise settles: one run starts and the later callers queue behind it. */
  lemma RunToCompletion(p: Pending, name: string, first: Waiter, fns: seq<FnArg>, later: seq<Waiter>)
    requires name != "" && name !in p && |fns| == |later|
    requires forall i :: 0 <= i < |fns| ==> !fns[i].NotAFunction?
    ensures Run(p, [CallEvent(NameStr(name), ReturnsPromise, first)] + Calls(name, fns, later)) ==
            Trace(p[name := [first] + later], [], [name], [])
  {
    var start := [CallEvent(NameStr(name), ReturnsPromise, first)];
    var queue := Calls(name, fns, later);
    var p1 := p[name := [first]];
    RunAppend(p, start, queue);
    FirstCallStarts(p, name, first);
    LaterCallsOnlyQueue(p1, name, fns, later);
    assert p1[name := p1[name] + later] == p[name := [first] + later];
  }

  lemma FirstCallStarts(p: Pending, name: string, first: Waiter)
    requires name != "" && name !in p
    ensures Run(p, [CallEvent(NameStr(name), ReturnsPromise, first)]) == Trace(p[name := [first]], [], [name], [])
  {
    var e := CallEvent(NameStr(name), ReturnsPromise, first);
    RunSingle(p, e);
    CallSemantics(p, NameStr(name), ReturnsPromise, first);
    assert Apply(p, e) == Trace(p[name := [first]], [], [name], []);
  }

  lemma CompletionDispatches(p: Pending, name: string, waiters: seq<Waiter>, outcome: FnOutcome)
    requires name !in p && |waiters| > 0
    ensures var s := SettlementOf(outcome);
            Apply(p[name := waiters], CompleteEvent(name, outcome)) ==
            Trace(p, [Notice(waiters[0], s)] + Fanout(waiters, s), [], [name])
  {
    assert p[name := waiters] - {name} == p;
  }

  /** A trace of one event is that event's step. */
  lemma RunSingle(p: Pending, e: Event)
    ensures Run(p, [e]) == Apply(p, e)
  {
    var t := Apply(p, e);
    assert [e][0] == e && [e][1..] == [];
    assert Fold(Apply, t.pending, []) == Trace(t.pending, [], [], []);
    assert Fold(Apply, p, [e]) == Trace(t.pending, t.notices + [], t.started + [], t.finished + []);
    assert t.notices + [] == t.notices && t.started + [] == t.started && t.finished + [] == t.finished;
  }

  // ---------------------------------------------------------------------
  // The registry as the module-level state it is in the source

  class MutexRegistry {
    /** `pendingMutexes` */
    var pending: Pending
    /** The names whose `fn` has been called, in order. */
    var invocations: seq<string>

    ghost predicate Valid()
      reads this
    {
      WellFormed(pending)
    }

    constructor ()
      ensures Valid() && pending == map[] && invocations == []
    {
      pending := map[];
      invocations := [];
    }

    /** `mutex(name, fn)` called by `w`, up to the point where it yields. */
    method Mutex(name: NameArg, fn: FnArg, w: Waiter) returns (notices: seq<Notice>)
      requires Valid()
      modifies this
      ensures Valid()
      ensures var st := Call(old(pending), name, fn, w);
              pending == st.pending && notices == st.notices &&
              invocations == old(invocations) + (if st.invoked then [name.name] else [])
    {
      CallSemantics(pending, name, fn, w);
      if !ValidName(name) {
        return [Notice(w, Reject(TypeError(NameError)))];
      }
      if fn.NotAFunction? {
        return [Notice(w, Reject(TypeError(FnError)))];
      }
      var key := name.name;
      if key in pending {
        pending := pending[key := pending[key] + [w]];
        return [];
      }
      pending := pending[key := [w]];
      invocations := invocations + [key];
      match fn
      case ReturnsValue(v) =>
        notices := DispatchEntry(key, Resolve(v));
      case Throws(e) =>
        notices := DispatchEntry(key, Reject(Raised(e)));
      case ReturnsPromise =>
        notices := [];
    }

    /** The promise returned by the run in flight for `key` settles. */
    method Settle(key: string, outcome: FnOutcome) returns (notices: seq<Notice>)
      requires Valid() && key in pending
      modifies this
      ensures Valid()
      ensures var st := Complete(old(pending), key, outcome);
              pending == st.pending && notices == st.notices && invocations == old(invocations)
    {
      notices := DispatchEntry(key, SettlementOf(outcome));
    }

    /** Deletes the entry, settles the first caller, then loops over the waiters. */
    method DispatchEntry(key: string, s: Settlement) returns (notices: seq<Notice>)
      requires Valid() && key in pending
      modifies this`pending
      ensures Valid()
      ensures var st := Dispatch(old(pending), key, s);
              pending == st.pending && notices == st.notices
    {
      var before := pending;
      var waiters := pending[key];
      pending := pending - {key};
      notices := [Notice(waiters[0], s)];
      var i := 0;
      while i < |waiters|
        invariant 0 <= i <= |waiters|
        invariant notices == [Notice(waiters[0], s)] + Fanout(waiters[..i], s)
        invariant pending == before - {key}
      {
        assert waiters[..i + 1] == waiters[..i] + [waiters[i]];
        FanoutSnoc(waiters[..i], waiters[i], s);
        notices := notices + [Notice(waiters[i], s)];
        i := i + 1;
      }
      assert waiters[..i] == waiters;
      DispatchNotices(before, key, s);
    }
  }
}
