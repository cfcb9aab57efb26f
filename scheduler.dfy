/** The synchronous scheduler runner used by the service tests.

    It keeps a heap of pending events plus an index from event id to the
    event record, and a virtual clock: the base monotonic reading plus an
    `offset` that `JumpAhead` advances so tests can make time pass. Times are
    integer ticks of one millisecond, so the default 0.1 s is 100 ticks.
    The base monotonic reading is a parameter of each operation that reads
    the clock; successive readings never decrease.
 */
module Scheduler {
  import opened EventQueue

  /** The runner states of the framework (only `Started` matters here). */
  datatype Status = Created | Configuring | Configured | Starting | Started
                  | Stopping | Stopped | Error

  datatype Failure = ModuleNotInitialized | AttributeError | ValueError

  /** What a caller passes as `delta`: a timedelta of some ticks, or any
      other object. */
  datatype Delta = TimeDelta(ticks: int) | NotTimeDelta

  datatype Result<T> = Ok(value: T) | Err(failure: Failure)

  datatype Outcome = Done | Raised(failure: Failure)

  /** Default minimum repeat period and polling resolution: 0.1 s. */
  const DefaultMinDelta: int := 100
  const DefaultResolution: int := 100

  function Min(a: int, b: int): int
  {
    if a <= b then a else b
  }

  /** The first delay of a task: a repeating task is never scheduled sooner
      than the minimum period; a one-shot task keeps its delay. */
  function FirstDelay(delta: int, repeatable: bool, minDelta: int): int
  {
    if repeatable && delta < minDelta then minDelta else delta
  }

  /** The repeat period recorded in the event; 0 marks a one-shot task. */
  function Period(delta: int, repeatable: bool, minDelta: int): int
  {
    if repeatable then FirstDelay(delta, repeatable, minDelta) else 0
  }

  /** The event record `ScheduleTask` creates at virtual time `now`. */
  function NewEvent(target: Target, delta: int, repeatable: bool, args: seq<string>,
                    kwargs: map<string, string>, now: int, minDelta: int, id: Id): Event
  {
    Event(now + FirstDelay(delta, repeatable, minDelta), id, target,
          Period(delta, repeatable, minDelta), args, kwargs)
  }

  /** The clamping rule: a repeating task fires no more often than the
      minimum period and keeps any longer delay; a one-shot task keeps its
      delay, however small, and does not repeat. */
  lemma DelayRules(delta: int, repeatable: bool, minDelta: int)
    ensures repeatable ==> Period(delta, repeatable, minDelta) >= minDelta
    ensures repeatable ==> FirstDelay(delta, repeatable, minDelta) == Period(delta, repeatable, minDelta)
    ensures repeatable && delta >= minDelta ==> Period(delta, repeatable, minDelta) == delta
    ensures !repeatable ==> FirstDelay(delta, repeatable, minDelta) == delta && Period(delta, repeatable, minDelta) == 0
  {
  }

  /** An event after it has fired `c` times. */
  function Advance(e: Event, c: nat): Event
  {
    e.(time := e.time + c * e.frequency)
  }

  /** How many of the events in `pass` carry id `k`. */
  function Fired(pass: seq<Event>, k: Id): nat
  {
    if pass == [] then 0
    else Fired(pass[..|pass| - 1], k) + (if pass[|pass| - 1].id == k then 1 else 0)
  }

  lemma FiredSnoc(pass: seq<Event>, e: Event, k: Id)
    ensures Fired(pass + [e], k) == Fired(pass, k) + (if e.id == k then 1 else 0)
  {
    assert (pass + [e])[..|pass|] == pass;
  }

  lemma {:induction false} FiredConcat(a: seq<Event>, b: seq<Event>, k: Id)
    ensures Fired(a + b, k) == Fired(a, k) + Fired(b, k)
    decreases |b|
  {
    if b == [] {
      assert a + b == a;
    } else {
      var b' := b[..|b| - 1];
      var e := b[|b| - 1];
      assert b == b' + [e];
      assert a + b == (a + b') + [e];
      FiredSnoc(a + b', e, k);
      FiredSnoc(b', e, k);
      FiredConcat(a, b', k);
    }
  }

  /** Every event record is stored under its own id and has a period that
      is not negative. */
  ghost predicate Keyed(ev: map<Id, Event>)
  {
    forall k :: k in ev ==> ev[k].id == k && ev[k].frequency >= 0
  }

  /** The queue and the index agree: the queue is a heap, every queued event
      is the indexed record of its id, and every indexed record is queued
      exactly once. */
  ghost predicate Represents(q: seq<Event>, ev: map<Id, Event>)
  {
    && IsHeap(q)
    && Keyed(ev)
    && (forall x :: x in q ==> x.id in ev && ev[x.id] == x)
    && (forall k :: k in ev ==> multiset(q)[ev[k]] == 1)
  }

  lemma RepresentsByMultiset(q1: seq<Event>, q2: seq<Event>, ev: map<Id, Event>)
    requires Represents(q1, ev) && IsHeap(q2) && multiset(q1) == multiset(q2)
    ensures Represents(q2, ev)
  {
    forall x | x in q2
      ensures x.id in ev && ev[x.id] == x
    {
      assert x in multiset(q2);
    }
  }

  /** With distinct ids, the least queued event is the root of the heap. */
  lemma LeastIsRoot(q: seq<Event>, ev: map<Id, Event>, e: Event)
    requires Represents(q, ev) && e in q
    requires forall x :: x in q ==> NotAfter(e, x)
    ensures q[0] == e
  {
    var i :| 0 <= i < |q| && q[i] == e;
    HeapRootIsLeast(q, i);
    assert NotAfter(e, q[0]);
  }

  /** What a drain pass promises, for the index `e0s` at its start, the
      index `ev` and the firings `pass` so far, at virtual time `now`.
      `cancels` gives the ids each callback cancels. */
  ghost predicate PassSoFar(e0s: map<Id, Event>, ev: map<Id, Event>, pass: seq<Event>,
                            now: int, cancels: Callbacks)
  {
    && ev.Keys <= e0s.Keys
    // only tasks that were scheduled fire, each on time, with its own call
    && (forall i :: 0 <= i < |pass| ==>
          && pass[i].id in e0s && pass[i].time <= now
          && pass[i].target == e0s[pass[i].id].target
          && pass[i].args == e0s[pass[i].id].args
          && pass[i].kwargs == e0s[pass[i].id].kwargs)
    // in order of due time, ties by id
    && (forall i, j :: 0 <= i < j < |pass| ==> NotAfter(pass[i], pass[j]))
    // a surviving task has moved on by one period per firing
    && (forall k :: k in ev ==> ev[k] == Advance(e0s[k], Fired(pass, k)))
    // a one-shot task still pending has not fired
    && (forall k :: k in ev && e0s[k].frequency == 0 ==> Fired(pass, k) == 0)
    // the last firing of each task was due
    && (forall k :: k in e0s && Fired(pass, k) > 0 ==>
          e0s[k].time + (Fired(pass, k) - 1) * e0s[k].frequency <= now)
    // a task that no callback of the pass named leaves only as a due one-shot, fired once
    && (forall k :: k in e0s && k !in ev && k !in Cancelled(cancels, pass) ==>
          e0s[k].frequency == 0 && Fired(pass, k) == 1 && e0s[k].time <= now)
  }

  /** What a completed drain pass leaves: nothing queued or indexed is due. */
  ghost predicate Drained(e0s: map<Id, Event>, q: seq<Event>, ev: map<Id, Event>,
                          pass: seq<Event>, now: int, cancels: Callbacks)
  {
    && PassSoFar(e0s, ev, pass, now, cancels)
    && (forall x :: x in q ==> now < x.time)
    && (forall k :: k in ev ==> now < ev[k].time)
  }

  /** Everything queued comes no earlier than the last firing of the pass. */
  ghost predicate QueueAfter(pass: seq<Event>, q: seq<Event>)
  {
    |pass| > 0 ==> forall x :: x in q ==> NotAfter(pass[|pass| - 1], x)
  }

  /** The effect of the callbacks that the scheduler observes: the call of
      event `e` unschedules the ids `CancelsOf(cancels, e)`, in order; a
      call not listed cancels nothing. */
  type Callbacks = map<Event, seq<Id>>

  function CancelsOf(cancels: Callbacks, e: Event): seq<Id>
  {
    if e in cancels then cancels[e] else []
  }

  /** No callback cancels any task. */
  ghost predicate Quiet(cancels: Callbacks)
  {
    forall e :: e in cancels ==> cancels[e] == []
  }

  /** The ids listed in `cs`. */
  ghost function Named(cs: seq<Id>): set<Id>
  {
    if cs == [] then {} else Named(cs[..|cs| - 1]) + {cs[|cs| - 1]}
  }

  /** The ids the callbacks of the calls in `pass` cancel. */
  ghost function Cancelled(cancels: Callbacks, pass: seq<Event>): set<Id>
  {
    if pass == [] then {}
    else Cancelled(cancels, pass[..|pass| - 1]) + Named(CancelsOf(cancels, pass[|pass| - 1]))
  }

  /** One more call adds the ids its callback cancels. */
  lemma CancelledSnoc(cancels: Callbacks, pass: seq<Event>, e: Event)
    ensures Cancelled(cancels, pass + [e]) == Cancelled(cancels, pass) + Named(CancelsOf(cancels, e))
  {
    assert (pass + [e])[..|pass|] == pass;
  }

  /** When no callback cancels anything, no pass cancels anything. */
  lemma {:induction false} CancelledQuiet(cancels: Callbacks, pass: seq<Event>)
    requires Quiet(cancels)
    ensures Cancelled(cancels, pass) == {}
    decreases |pass|
  {
    if pass != [] {
      CancelledQuiet(cancels, pass[..|pass| - 1]);
      assert CancelsOf(cancels, pass[|pass| - 1]) == [];
    }
  }

  /** How overdue an event is at `now`; 0 when it is not due. */
  ghost function Weight(e: Event, now: int): nat
  {
    if e.time <= now then now - e.time + 1 else 0
  }

  /** Total overdueness of the index: it drops with every firing. */
  ghost function Pot(ev: map<Id, Event>, now: int): nat
    decreases ev.Keys
  {
    if ev == map[] then 0
    else
      var k :| k in ev;
      Weight(ev[k], now) + Pot(ev - {k}, now)
  }

  lemma {:induction false} PotRemove(ev: map<Id, Event>, k: Id, now: int)
    requires k in ev
    ensures Pot(ev, now) == Weight(ev[k], now) + Pot(ev - {k}, now)
    decreases ev.Keys
  {
    var j :| j in ev && Pot(ev, now) == Weight(ev[j], now) + Pot(ev - {j}, now);
    if j != k {
      PotRemove(ev - {j}, k, now);
      PotRemove(ev - {k}, j, now);
      assert ev - {j} - {k} == ev - {k} - {j};
    }
  }

  /** `SynchronousSchedulerRunner`. */
  class Runner {
    var status: Status
    var minDelta: int
    var resolution: int
    var queue: seq<Event>
    var events: map<Id, Event>
    var offset: int
    /** The last base clock reading. */
    ghost var lastMono: int
    /** Every id handed out so far: uuid4 draws do not repeat. */
    ghost var issued: set<Id>

    ghost predicate Valid()
      reads this
    {
      && Represents(queue, events)
      && minDelta >= 0
      && events.Keys <= issued
    }

    /** `_get_time`: the base clock reading shifted by the jumps so far. */
    function GetTime(mono: int): int
      reads this
    {
      mono + offset
    }

    constructor ()
      ensures Valid()
      ensures status == Created && minDelta == DefaultMinDelta && resolution == DefaultResolution
      ensures queue == [] && events == map[] && offset == 0
      ensures issued == {} && lastMono == 0
    {
      status := Created;
      minDelta := DefaultMinDelta;
      resolution := DefaultResolution;
      queue := [];
      events := map[];
      offset := 0;
      lastMono := 0;
      issued := {};
    }

    /** The framework's `Runner` moves the status as the service starts
        and stops the scheduler module. */
    method SetStatus(s: Status)
      modifies this`status
      ensures status == s
    {
      status := s;
    }

    /** `configure` and `_reset_scheduler`: drop every task, reset the
        clock offset and take the minimum period and resolution. */
    method Configure(minInterval: int, res: int)
      requires minInterval >= 0
      modifies this
      ensures Valid()
      ensures queue == [] && events == map[] && offset == 0
      ensures minDelta == minInterval && resolution == res
      ensures status == old(status) && issued == old(issued)
      ensures lastMono == old(lastMono)
    {
      queue := [];
      events := map[];
      offset := 0;
      minDelta := minInterval;
      resolution := res;
    }

    /** `schedule_task`: queue a new task under the fresh id `newId`. */
    method ScheduleTask(target: Target, delta: Delta, repeatable: bool, args: seq<string>,
                        kwargs: map<string, string>, mono: int, newId: Id) returns (r: Result<Id>)
      requires Valid() && mono >= lastMono && newId !in issued
      modifies this`lastMono, this`queue, this`events, this`issued
      ensures Valid()
      ensures old(status) != Started ==> r == Err(ModuleNotInitialized)
      ensures old(status) == Started && delta.NotTimeDelta? ==> r == Err(AttributeError)
      ensures r.Err? ==> unchanged(this)
      ensures old(status) == Started && delta.TimeDelta? ==>
        && r == Ok(newId)
        && var e := NewEvent(target, delta.ticks, repeatable, args, kwargs, mono + old(offset), minDelta, newId);
        && events == old(events)[newId := e]
        && multiset(queue) == multiset(old(queue)) + multiset{e}
        && issued == old(issued) + {newId} && lastMono == mono
        && offset == old(offset) && status == old(status)
        && minDelta == old(minDelta) && resolution == old(resolution)
    {
      if status != Started {
        return Err(ModuleNotInitialized);
      }
      if delta.NotTimeDelta? {
        return Err(AttributeError);
      }
      lastMono := mono;
      var e := NewEvent(target, delta.ticks, repeatable, args, kwargs, GetTime(mono), minDelta, newId);
      var q := HeapPush(queue, e);
      PushRepresents(queue, q, events, e);
      queue := q;
      events := events[newId := e];
      issued := issued + {newId};
      r := Ok(newId);
    }

    /** Removes task `k` from the index, and its event from the queue when
        it is there. The ids in `held` are indexed but not queued: their
        event has been popped for firing. */
    method Cancel(k: Id, ghost held: set<Id>) returns (found: bool)
      requires Keyed(events) && Represents(queue, events - held)
      modifies this`queue, this`events
      ensures minDelta == old(minDelta) && issued == old(issued)
      ensures Keyed(events) && Represents(queue, events - held)
      ensures found == (k in old(events))
      ensures events == old(events) - {k}
      ensures k in old(events) && k !in held ==>
                multiset(queue) == multiset(old(queue)) - multiset{old(events)[k]}
      ensures k !in old(events) || k in held ==> queue == old(queue)
      ensures forall x :: x in queue ==> x in old(queue)
    {
      if k in events {
        var e := events[k];
        events := events - {k};
        if e in queue {
          var q := RemoveFirst(queue, e);
          q := Heapify(q);
          forall x | x in q
            ensures x.id in events - held && (events - held)[x.id] == x
          {
            assert x in multiset(q);
            assert x in multiset(queue);
          }
          forall j | j in events - held
            ensures multiset(q)[(events - held)[j]] == 1
          {
            assert (events - held)[j] == (old(events) - held)[j];
          }
          queue := q;
        } else {
          assert events - held == old(events) - held;
        }
        found := true;
      } else {
        assert events - {k} == events;
        found := false;
      }
    }

    /** `unschedule`: true when task `k` was scheduled; it is gone after. */
    method Unschedule(k: Id) returns (found: bool)
      requires Valid()
      modifies this`queue, this`events
      ensures Valid()
      ensures found == (k in old(events))
      ensures events == old(events) - {k}
      ensures found ==> multiset(queue) == multiset(old(queue)) - multiset{old(events)[k]}
      ensures !found ==> queue == old(queue)
    {
      assert events - {} == events;
      found := Cancel(k, {});
      assert events - {} == events;
    }

    /** Runs the user callback of `e`: the tasks it cancels are unscheduled
        while `e` itself is popped. */
    method RunCallback(e: Event, cancels: Callbacks, ghost now: int)
      requires Keyed(events) && Represents(queue, events - {e.id})
      requires e.id in events ==> events[e.id] == e
      requires forall x :: x in queue ==> NotAfter(e, x)
      modifies this`queue, this`events
      ensures minDelta == old(minDelta) && issued == old(issued)
      ensures Keyed(events) && Represents(queue, events - {e.id})
      ensures e.id in events ==> events[e.id] == e
      ensures events == old(events) - Named(CancelsOf(cancels, e))
      ensures forall j :: j in events ==> j in old(events) && events[j] == old(events)[j]
      ensures events.Keys <= old(events).Keys
      ensures forall x :: x in queue ==> NotAfter(e, x)
      ensures CancelsOf(cancels, e) == [] ==> events == old(events) && queue == old(queue)
      ensures Pot(events, now) + (if e.id in events then 0 else Weight(e, now))
                <= Pot(old(events), now) + (if e.id in old(events) then 0 else Weight(e, now))
    {
      var cs := CancelsOf(cancels, e);
      if cs == [] {
        assert events - Named(cs) == events;
        return;
      }
      CancelAll(e, cs, now);
    }

    /** The loop of the callback: cancels each listed id in turn. */
    method CancelAll(e: Event, cs: seq<Id>, ghost now: int)
      requires Keyed(events) && Represents(queue, events - {e.id})
      requires e.id in events ==> events[e.id] == e
      requires forall x :: x in queue ==> NotAfter(e, x)
      modifies this`queue, this`events
      ensures minDelta == old(minDelta) && issued == old(issued)
      ensures Keyed(events) && Represents(queue, events - {e.id})
      ensures e.id in events ==> events[e.id] == e
      ensures events == old(events) - Named(cs)
      ensures forall x :: x in queue ==> NotAfter(e, x)
      ensures Pot(events, now) + (if e.id in events then 0 else Weight(e, now))
                <= Pot(old(events), now) + (if e.id in old(events) then 0 else Weight(e, now))
    {
      ghost var ev0 := events;
      assert events == ev0 - Named(cs[..0]);
      var i := 0;
      while i < |cs|
        invariant 0 <= i <= |cs|
        invariant Keyed(events) && Represents(queue, events - {e.id})
        invariant e.id in events ==> events[e.id] == e
        invariant events == ev0 - Named(cs[..i])
        invariant forall x :: x in queue ==> NotAfter(e, x)
        invariant Pot(events, now) + (if e.id in events then 0 else Weight(e, now))
                    <= Pot(ev0, now) + (if e.id in ev0 then 0 else Weight(e, now))
      {
        CancelOne(e, cs, i, ev0, now);
        i := i + 1;
      }
      assert cs[..|cs|] == cs;
    }

    /** One pass of the loop of the callback: cancels the `i`th listed id. */
    method CancelOne(e: Event, cs: seq<Id>, i: int, ghost ev0: map<Id, Event>, ghost now: int)
      requires 0 <= i < |cs|
      requires Keyed(events) && Represents(queue, events - {e.id})
      requires e.id in events ==> events[e.id] == e
      requires events == ev0 - Named(cs[..i])
      requires forall x :: x in queue ==> NotAfter(e, x)
      requires Pot(events, now) + (if e.id in events then 0 else Weight(e, now))
                 <= Pot(ev0, now) + (if e.id in ev0 then 0 else Weight(e, now))
      modifies this`queue, this`events
      ensures minDelta == old(minDelta) && issued == old(issued)
      ensures Keyed(events) && Represents(queue, events - {e.id})
      ensures e.id in events ==> events[e.id] == e
      ensures events == ev0 - Named(cs[..i + 1])
      ensures forall x :: x in queue ==> NotAfter(e, x)
      ensures Pot(events, now) + (if e.id in events then 0 else Weight(e, now))
                <= Pot(ev0, now) + (if e.id in ev0 then 0 else Weight(e, now))
    {
      var c := cs[i];
      ghost var before := events;
      if c in events {
        PotRemove(events, c, now);
      } else {
        assert before - {c} == before;
      }
      var _ := Cancel(c, {e.id});
      NamedSnoc(ev0, cs, i);
    }

    /** After the callback: a task still scheduled is queued again one
        period later, or dropped when it is one-shot. */
    method Requeue(e: Event, ghost now: int)
      requires Keyed(events) && Represents(queue, events - {e.id})
      requires e.id in events ==> events[e.id] == e
      requires e.time <= now && e.frequency >= 0
      requires forall x :: x in queue ==> NotAfter(e, x)
      modifies this`queue, this`events
      ensures minDelta == old(minDelta) && issued == old(issued)
      ensures Represents(queue, events)
      ensures events.Keys <= old(events).Keys
      ensures forall x :: x in queue ==> NotAfter(e, x)
      ensures e.id in old(events) && e.frequency != 0 ==>
                events == old(events)[e.id := e.(time := e.time + e.frequency)]
                && multiset(queue) == multiset(old(queue)) + multiset{e.(time := e.time + e.frequency)}
      ensures e.id in old(events) && e.frequency == 0 ==>
                events == old(events) - {e.id} && queue == old(queue)
      ensures e.id !in old(events) ==> events == old(events) && queue == old(queue)
      ensures e.id in old(events) ==> Pot(events, now) < Pot(old(events), now)
    {
      if e.id in events {
        PotRemove(events, e.id, now);
        if e.frequency != 0 {
          var next := e.(time := e.time + e.frequency);
          assert next !in queue;
          var q := HeapPush(queue, next);
          var ev' := events[e.id := next];
          PushRepresents(queue, q, events - {e.id}, next);
          assert (events - {e.id})[e.id := next] == ev';
          PushAfter(queue, q, e, next);
          queue := q;
          events := ev';
          assert events - {e.id} == old(events) - {e.id};
          PotRemove(events, e.id, now);
        } else {
          events := events - {e.id};
        }
      } else {
        assert events - {e.id} == events;
      }
    }

    /** One round of the drain loop: pop the least event, and either put it
        back and stop when it is not due, or call it, which extends the calls
        `pass` of this drain to `pass'`. */
    method DrainStep(now: int, cancels: Callbacks, ghost e0s: map<Id, Event>, pass: seq<Event>)
      returns (done: bool, wait: int, pass': seq<Event>)
      requires Represents(queue, events)
      requires PassSoFar(e0s, events, pass, now, cancels)
      requires QueueAfter(pass, queue)
      modifies this`queue, this`events
      ensures minDelta == old(minDelta) && issued == old(issued)
      ensures Represents(queue, events)
      ensures done ==> pass' == pass
      ensures PassSoFar(e0s, events, pass', now, cancels)
      ensures QueueAfter(pass', queue)
      ensures done ==> forall x :: x in queue ==> now < x.time
      ensures done && queue == [] ==> wait == resolution
      ensures done && queue != [] ==> wait == Min(queue[0].time - now, resolution)
      ensures !done ==> Pot(events, now) < old(Pot(events, now))
    {
      if queue == [] {
        return true, resolution, pass;
      }
      ghost var q0 := queue;
      var e, rest := HeapPop(queue);
      if now < e.time {
        var q := HeapPush(rest, e);
        NotDue(q0, q, events, e, now, pass);
        queue := q;
        return true, Min(e.time - now, resolution), pass;
      }
      FirePopped(e, rest, now, cancels, e0s, pass);
      done, wait, pass' := false, 0, pass + [e];
    }

    /** The due least event `e` has been popped, leaving `rest`: the queue
        becomes `rest` and `e` is fired. */
    method FirePopped(e: Event, rest: seq<Event>, now: int, cancels: Callbacks,
                      ghost e0s: map<Id, Event>, ghost pass: seq<Event>)
      requires Represents(queue, events)
      requires PassSoFar(e0s, events, pass, now, cancels)
      requires QueueAfter(pass, queue)
      requires |queue| > 0 && e == queue[0] && e.time <= now
      requires forall x :: x in queue ==> NotAfter(e, x)
      requires IsHeap(rest) && multiset(rest) + multiset{e} == multiset(queue)
      modifies this`queue, this`events
      ensures minDelta == old(minDelta) && issued == old(issued)
      ensures Represents(queue, events)
      ensures PassSoFar(e0s, events, pass + [e], now, cancels)
      ensures QueueAfter(pass + [e], queue)
      ensures Pot(events, now) < old(Pot(events, now))
    {
      ghost var q0 := queue;
      assert e in q0;
      PopRepresents(q0, rest, events, e);
      RestAfter(q0, rest, e);
      queue := rest;
      FireEvent(e, now, cancels, e0s, pass);
    }

    /** Fires the popped event `e`: runs the callback and requeues or
        retires the task. */
    method FireEvent(e: Event, now: int, cancels: Callbacks, ghost e0s: map<Id, Event>, ghost pass: seq<Event>)
      requires Keyed(events) && Represents(queue, events - {e.id})
      requires e.id in events && events[e.id] == e && e.time <= now
      requires PassSoFar(e0s, events, pass, now, cancels)
      requires |pass| > 0 ==> NotAfter(pass[|pass| - 1], e)
      requires forall x :: x in queue ==> NotAfter(e, x)
      modifies this`queue, this`events
      ensures minDelta == old(minDelta) && issued == old(issued)
      ensures Represents(queue, events) && events.Keys <= old(events).Keys
      ensures PassSoFar(e0s, events, pass + [e], now, cancels)
      ensures QueueAfter(pass + [e], queue)
      ensures Pot(events, now) < old(Pot(events, now))
    {
      ghost var ev := events;
      RunCallback(e, cancels, now);
      ghost var ev1 := events;
      Requeue(e, now);
      PassStep(e0s, ev, ev1, events, pass, e, now, cancels);
      QueueAfterSnoc(pass, e, queue);
      FireDecreases(Pot(ev, now), Pot(ev1, now), Pot(events, now), Weight(e, now), e.id in ev1);
    }

    /** `_execute_pending_tasks`: calls every due task in (time, id) order,
        with the virtual time read once for the pass, and reports how long
        to wait before the next pass. `pass` lists the calls made, in order. */
    method ExecutePending(mono: int, cancels: Callbacks) returns (wait: int, pass: seq<Event>)
      requires Valid() && mono >= lastMono
      modifies this`queue, this`events, this`lastMono
      ensures Valid()
      ensures lastMono == mono
      ensures Drained(old(events), queue, events, pass, mono + offset, cancels)
      ensures queue == [] ==> wait == resolution
      ensures queue != [] ==> wait == Min(queue[0].time - (mono + offset), resolution)
    {
      lastMono := mono;
      var now := GetTime(mono);
      wait, pass := Drain(now, cancels);
    }

    /** The loop of `_execute_pending_tasks` at virtual time `now`. */
    method Drain(now: int, cancels: Callbacks) returns (wait: int, pass: seq<Event>)
      requires Valid()
      modifies this`queue, this`events
      ensures Valid()
      ensures Drained(old(events), queue, events, pass, now, cancels)
      ensures queue == [] ==> wait == resolution
      ensures queue != [] ==> wait == Min(queue[0].time - now, resolution)
    {
      ghost var e0s, iss := events, issued;
      pass := [];
      while true
        invariant Represents(queue, events)
        invariant minDelta == old(minDelta) && issued == iss
        invariant PassSoFar(e0s, events, pass, now, cancels)
        invariant QueueAfter(pass, queue)
        decreases Pot(events, now)
      {
        var done;
        done, wait, pass := DrainStep(now, cancels, e0s, pass);
        if done {
          IndexedLater(queue, events, now);
          SubsetTrans(events.Keys, e0s.Keys, iss);
          return;
        }
      }
    }

    /** `jump_ahead`: move the virtual clock forward, then drain what is due. */
    method JumpAhead(ticks: int, mono: int, cancels: Callbacks) returns (r: Outcome, pass: seq<Event>)
      requires Valid() && mono >= lastMono
      modifies this
      ensures Valid()
      ensures ticks < 0 ==> r == Raised(ValueError) && unchanged(this)
      ensures ticks >= 0 ==>
        && r == Done
        && offset == old(offset) + ticks && lastMono == mono
        && Drained(old(events), queue, events, pass, mono + offset, cancels)
        && status == old(status) && issued == old(issued)
        && minDelta == old(minDelta) && resolution == old(resolution)
    {
      if ticks < 0 {
        return Raised(ValueError), [];
      }
      offset := offset + ticks;
      var _, p := ExecutePending(mono, cancels);
      r, pass := Done, p;
    }
  }

  /** When nothing queued is due, nothing indexed is due. */
  lemma IndexedLater(q: seq<Event>, ev: map<Id, Event>, now: int)
    requires Represents(q, ev) && forall x :: x in q ==> now < x.time
    ensures forall k :: k in ev ==> now < ev[k].time
  {
    forall k | k in ev
      ensures now < ev[k].time
    {
      assert ev[k] in multiset(q);
    }
  }

  /** Queueing an event under an id not indexed yet: the queue represents
      the index with that event added. */
  lemma PushRepresents(q0: seq<Event>, q: seq<Event>, ev: map<Id, Event>, e: Event)
    requires Represents(q0, ev) && e.id !in ev && e.frequency >= 0
    requires IsHeap(q) && multiset(q) == multiset(q0) + multiset{e}
    ensures Represents(q, ev[e.id := e])
  {
    assert e !in q0;
    var ev' := ev[e.id := e];
    forall x | x in q
      ensures x.id in ev' && ev'[x.id] == x
    {
      assert x in multiset(q);
      if x != e {
        assert x in multiset(q0);
      }
    }
    forall k | k in ev'
      ensures multiset(q)[ev'[k]] == 1
    {
      if k != e.id {
        assert ev'[k] == ev[k] && ev[k] != e;
      }
    }
  }

  /** What is left after popping the least event comes after it. */
  lemma RestAfter(q0: seq<Event>, rest: seq<Event>, e: Event)
    requires forall x :: x in q0 ==> NotAfter(e, x)
    requires multiset(rest) + multiset{e} == multiset(q0)
    ensures forall x :: x in rest ==> NotAfter(e, x)
  {
    forall x | x in rest
      ensures NotAfter(e, x)
    {
      assert x in multiset(rest);
      assert x in multiset(q0);
    }
  }

  /** Requeueing `e` one period later keeps everything queued after it. */
  lemma PushAfter(q0: seq<Event>, q: seq<Event>, e: Event, next: Event)
    requires forall x :: x in q0 ==> NotAfter(e, x)
    requires NotAfter(e, next)
    requires multiset(q) == multiset(q0) + multiset{next}
    ensures forall x :: x in q ==> NotAfter(e, x)
  {
    forall x | x in q
      ensures NotAfter(e, x)
    {
      assert x in multiset(q);
      if x != next {
        assert x in multiset(q0);
      }
    }
  }

  /** Cancelling one more listed id removes one more key. */
  lemma NamedSnoc(m: map<Id, Event>, cs: seq<Id>, i: int)
    requires 0 <= i < |cs|
    ensures (m - Named(cs[..i])) - {cs[i]} == m - Named(cs[..i + 1])
  {
    assert cs[..i + 1][..i] == cs[..i];
  }

  /** A call that comes before everything left queued ends the pass so far. */
  lemma QueueAfterSnoc(pass: seq<Event>, e: Event, q: seq<Event>)
    requires forall x :: x in q ==> NotAfter(e, x)
    ensures QueueAfter(pass + [e], q)
  {
    assert (pass + [e])[|pass|] == e;
  }

  /** The potential drops across one firing: the callback does not raise
      it, counting the fired task as gone, and requeueing or retiring the
      task lowers it. */
  lemma FireDecreases(p0: int, p1: int, p2: int, w: int, kept: bool)
    requires w > 0
    requires p1 + (if kept then 0 else w) <= p0
    requires kept ==> p2 < p1
    requires !kept ==> p2 == p1
    ensures p2 < p0
  {
  }

  lemma SubsetTrans(a: set<Id>, b: set<Id>, c: set<Id>)
    requires a <= b && b <= c
    ensures a <= c
  {
  }

  /** The least event put back when it is not due: the queue still
      represents the index, with that event at its root, and nothing in
      it is due. */
  lemma NotDue(q0: seq<Event>, q: seq<Event>, ev: map<Id, Event>, e: Event, now: int, pass: seq<Event>)
    requires Represents(q0, ev) && |q0| > 0 && e == q0[0]
    requires QueueAfter(pass, q0)
    requires forall x :: x in q0 ==> NotAfter(e, x)
    requires IsHeap(q) && multiset(q) == multiset(q0)
    requires now < e.time
    ensures Represents(q, ev) && q[0] == e
    ensures forall x :: x in q ==> now < x.time
    ensures QueueAfter(pass, q)
  {
    RepresentsByMultiset(q0, q, ev);
    forall x | x in q
      ensures x in q0
    {
      assert x in multiset(q);
    }
    assert e in multiset(q0);
    LeastIsRoot(q, ev, e);
  }

  /** Popping the least event leaves the rest of the queue representing the
      index with that event held out. */
  lemma PopRepresents(q0: seq<Event>, rest: seq<Event>, ev: map<Id, Event>, e: Event)
    requires Represents(q0, ev) && e in q0
    requires IsHeap(rest) && multiset(rest) + multiset{e} == multiset(q0)
    ensures Keyed(ev) && Represents(rest, ev - {e.id})
    ensures e.id in ev && ev[e.id] == e
  {
    forall x | x in rest
      ensures x.id in ev - {e.id} && (ev - {e.id})[x.id] == x
    {
      assert x in multiset(rest);
      assert multiset(rest)[e] == 0;
      assert x != e;
      assert x in multiset(q0);
    }
  }

  /** One firing extends the pass: ids, due times and calls, and order. */
  lemma PassStepLog(e0s: map<Id, Event>, ev: map<Id, Event>, pass: seq<Event>, e: Event,
                    now: int, cancels: Callbacks)
    requires PassSoFar(e0s, ev, pass, now, cancels)
    requires e.id in ev && ev[e.id] == e && e.time <= now
    requires |pass| > 0 ==> NotAfter(pass[|pass| - 1], e)
    ensures forall i :: 0 <= i < |pass + [e]| ==>
          && (pass + [e])[i].id in e0s && (pass + [e])[i].time <= now
          && (pass + [e])[i].target == e0s[(pass + [e])[i].id].target
          && (pass + [e])[i].args == e0s[(pass + [e])[i].id].args
          && (pass + [e])[i].kwargs == e0s[(pass + [e])[i].id].kwargs
    ensures forall i, j :: 0 <= i < j < |pass + [e]| ==> NotAfter((pass + [e])[i], (pass + [e])[j])
  {
    var pass' := pass + [e];
    var e0 := e0s[e.id];
    assert e == Advance(e0, Fired(pass, e.id));
    forall i | 0 <= i < |pass'|
      ensures pass'[i].id in e0s && pass'[i].time <= now
      ensures pass'[i].target == e0s[pass'[i].id].target
      ensures pass'[i].args == e0s[pass'[i].id].args
      ensures pass'[i].kwargs == e0s[pass'[i].id].kwargs
    {
      if i < |pass| {
        assert pass'[i] == pass[i];
      }
    }
    forall i, j | 0 <= i < j < |pass'|
      ensures NotAfter(pass'[i], pass'[j])
    {
      if j < |pass| {
        assert pass'[i] == pass[i] && pass'[j] == pass[j];
      } else {
        assert pass'[i] == pass[i];
        if i < |pass| - 1 {
          assert NotAfter(pass[i], pass[|pass| - 1]);
        }
      }
    }
  }

  /** After a firing, the surviving tasks have moved on by their firings. */
  lemma PassStepIndex(e0s: map<Id, Event>, ev: map<Id, Event>, ev1: map<Id, Event>,
                      ev2: map<Id, Event>, pass: seq<Event>, e: Event, now: int, cancels: Callbacks)
    requires PassSoFar(e0s, ev, pass, now, cancels)
    requires e.id in ev && ev[e.id] == e && e.time <= now
    requires forall j :: j in ev1 ==> j in ev && ev1[j] == ev[j]
    requires e.id in ev1 && e.frequency != 0 ==> ev2 == ev1[e.id := e.(time := e.time + e.frequency)]
    requires e.id in ev1 && e.frequency == 0 ==> ev2 == ev1 - {e.id}
    requires e.id !in ev1 ==> ev2 == ev1
    ensures forall j :: j in ev2 ==> ev2[j] == Advance(e0s[j], Fired(pass + [e], j))
    ensures forall j :: j in ev2 && e0s[j].frequency == 0 ==> Fired(pass + [e], j) == 0
  {
    forall j | j in ev2
      ensures ev2[j] == Advance(e0s[j], Fired(pass + [e], j))
      ensures e0s[j].frequency == 0 ==> Fired(pass + [e], j) == 0
    {
      assert j in ev;
      PassStepIndexAt(e0s, ev, ev1, ev2, pass, e, j);
    }
  }

  /** PassStepIndex for the task `j`, from what the pass so far promises
      about `j` and about the fired task. */
  lemma PassStepIndexAt(e0s: map<Id, Event>, ev: map<Id, Event>, ev1: map<Id, Event>,
                        ev2: map<Id, Event>, pass: seq<Event>, e: Event, j: Id)
    requires j in ev && j in e0s && ev[j] == Advance(e0s[j], Fired(pass, j))
    requires e0s[j].frequency == 0 ==> Fired(pass, j) == 0
    requires e.id in ev && ev[e.id] == e
    requires j in ev1 ==> ev1[j] == ev[j]
    requires e.id in ev1 && e.frequency != 0 ==> ev2 == ev1[e.id := e.(time := e.time + e.frequency)]
    requires e.id in ev1 && e.frequency == 0 ==> ev2 == ev1 - {e.id}
    requires e.id !in ev1 ==> ev2 == ev1
    requires j in ev2
    ensures ev2[j] == Advance(e0s[j], Fired(pass + [e], j))
    ensures e0s[j].frequency == 0 ==> Fired(pass + [e], j) == 0
  {
    FiredSnoc(pass, e, j);
    if j == e.id {
      AdvanceNext(e0s[j], Fired(pass, j));
    }
  }

  /** One more period on an advanced event. */
  lemma AdvanceNext(e0: Event, c: nat)
    ensures var e := Advance(e0, c); e.(time := e.time + e.frequency) == Advance(e0, c + 1)
  {
    assert (c + 1) * e0.frequency == c * e0.frequency + e0.frequency;
  }

  /** After a firing, the last firing of every task was due. */
  lemma PassStepDue(e0s: map<Id, Event>, ev: map<Id, Event>, pass: seq<Event>, e: Event,
                    now: int, cancels: Callbacks)
    requires PassSoFar(e0s, ev, pass, now, cancels)
    requires e.id in ev && ev[e.id] == e && e.time <= now
    ensures forall j :: j in e0s && Fired(pass + [e], j) > 0 ==>
              e0s[j].time + (Fired(pass + [e], j) - 1) * e0s[j].frequency <= now
  {
    assert e == Advance(e0s[e.id], Fired(pass, e.id));
    forall j | j in e0s && Fired(pass + [e], j) > 0
      ensures e0s[j].time + (Fired(pass + [e], j) - 1) * e0s[j].frequency <= now
    {
      FiredSnoc(pass, e, j);
    }
  }

  /** A task no callback named leaves only as a due one-shot fired once. */
  lemma PassStepLeaves(e0s: map<Id, Event>, ev: map<Id, Event>, ev1: map<Id, Event>,
                       ev2: map<Id, Event>, pass: seq<Event>, e: Event, now: int,
                       cancels: Callbacks)
    requires PassSoFar(e0s, ev, pass, now, cancels)
    requires e.id in ev && ev[e.id] == e && e.time <= now
    requires forall j :: j in ev1 ==> j in ev && ev1[j] == ev[j]
    requires e.id in ev1 && e.frequency != 0 ==> ev2 == ev1[e.id := e.(time := e.time + e.frequency)]
    requires e.id in ev1 && e.frequency == 0 ==> ev2 == ev1 - {e.id}
    requires e.id !in ev1 ==> ev2 == ev1
    requires ev1 == ev - Named(CancelsOf(cancels, e))
    ensures forall j :: j in e0s && j !in ev2 && j !in Cancelled(cancels, pass + [e]) ==>
              e0s[j].frequency == 0 && Fired(pass + [e], j) == 1 && e0s[j].time <= now
  {
    assert e == Advance(e0s[e.id], Fired(pass, e.id));
    CancelledSnoc(cancels, pass, e);
    forall j | j in e0s && j !in ev2 && j !in Cancelled(cancels, pass + [e])
      ensures e0s[j].frequency == 0 && Fired(pass + [e], j) == 1 && e0s[j].time <= now
    {
      FiredSnoc(pass, e, j);
      if j in ev {
        assert j in ev1;
      }
    }
  }

  /** One firing keeps the pass promise, with the next index `ev2`. */
  lemma PassStep(e0s: map<Id, Event>, ev: map<Id, Event>, ev1: map<Id, Event>,
                 ev2: map<Id, Event>, pass: seq<Event>, e: Event, now: int,
                 cancels: Callbacks)
    requires PassSoFar(e0s, ev, pass, now, cancels)
    requires e.id in ev && ev[e.id] == e && e.time <= now
    requires forall j :: j in ev1 ==> j in ev && ev1[j] == ev[j]
    requires e.id in ev1 && e.frequency != 0 ==> ev2 == ev1[e.id := e.(time := e.time + e.frequency)]
    requires e.id in ev1 && e.frequency == 0 ==> ev2 == ev1 - {e.id}
    requires e.id !in ev1 ==> ev2 == ev1
    requires |pass| > 0 ==> NotAfter(pass[|pass| - 1], e)
    requires ev1 == ev - Named(CancelsOf(cancels, e))
    ensures PassSoFar(e0s, ev2, pass + [e], now, cancels)
  {
    PassStepLog(e0s, ev, pass, e, now, cancels);
    PassStepIndex(e0s, ev, ev1, ev2, pass, e, now, cancels);
    PassStepDue(e0s, ev, pass, e, now, cancels);
    PassStepLeaves(e0s, ev, ev1, ev2, pass, e, now, cancels);
  }


  /** A task that was not indexed when the pass began did not fire in it. */
  lemma FiredUnknown(e0s: map<Id, Event>, ev: map<Id, Event>, pass: seq<Event>, now: int,
                     cancels: Callbacks, k: Id)
    requires PassSoFar(e0s, ev, pass, now, cancels) && k !in e0s
    ensures Fired(pass, k) == 0
  {
    assert forall i :: 0 <= i < |pass| ==> pass[i].id != k;
    FiredNone(pass, k);
  }

  /** A task with no event in `pass` has not fired in it. */
  lemma {:induction false} FiredNone(pass: seq<Event>, k: Id)
    requires forall i :: 0 <= i < |pass| ==> pass[i].id != k
    ensures Fired(pass, k) == 0
    decreases |pass|
  {
    if pass != [] {
      FiredNone(pass[..|pass| - 1], k);
    }
  }

  /** A product with a positive factor grows with the other factor. */
  lemma MulMono(a: int, b: int, f: int)
    requires f > 0
    ensures a <= b ==> a * f <= b * f
  {
    if a <= b {
      MulNonNeg(b - a, f);
      assert (b - a) * f == b * f - a * f;
    }
  }

  lemma {:induction false} MulNonNeg(n: nat, f: int)
    requires f > 0
    ensures n * f >= 0
  {
    if n > 0 {
      MulNonNeg(n - 1, f);
      assert n * f == (n - 1) * f + f;
    }
  }

  /** `m` is the quotient of `d` by `f` when `d` lies in [m * f, (m + 1) * f). */
  lemma DivUnique(d: int, f: int, m: int)
    requires f > 0 && m * f <= d < (m + 1) * f
    ensures d / f == m
  {
    var r := d / f;
    assert r * f <= d < r * f + f;
    MulMono(m + 1, r, f);
    MulMono(r + 1, m, f);
    assert (m + 1) * f == m * f + f;
    assert (r + 1) * f == r * f + f;
  }

  /** How many due times an event reaches by `now`: none before its due
      time; a one-shot event one; an event repeating every `f` ticks one
      plus one per whole period after its due time. */
  function DueCount(e: Event, now: int): nat
  {
    if now < e.time then 0
    else if e.frequency <= 0 then 1
    else (now - e.time) / e.frequency + 1
  }

  /** After a pass at virtual time `now`, every task that no callback of
      the pass cancelled has fired once per due time it reached. */
  lemma FiringCount(e0s: map<Id, Event>, q: seq<Event>, ev: map<Id, Event>, pass: seq<Event>,
                    now: int, cancels: Callbacks, k: Id)
    requires Drained(e0s, q, ev, pass, now, cancels) && Keyed(e0s) && k in e0s
    requires k !in Cancelled(cancels, pass)
    ensures Fired(pass, k) == DueCount(e0s[k], now)
  {
    var alive := k in ev;
    CountOfFacts(e0s[k], Fired(pass, k), now, alive, if alive then ev[k] else e0s[k]);
  }

  /** The arithmetic behind `FiringCount`, on the facts a drained pass
      gives about one task. */
  lemma CountOfFacts(e0: Event, c: nat, now: int, alive: bool, ek: Event)
    requires e0.frequency >= 0
    requires c > 0 ==> e0.time + (c - 1) * e0.frequency <= now
    requires alive ==> ek == Advance(e0, c) && now < ek.time
    requires alive && e0.frequency == 0 ==> c == 0
    requires !alive ==> e0.frequency == 0 && c == 1 && e0.time <= now
    ensures c == DueCount(e0, now)
  {
    if c > 0 && e0.frequency > 0 {
      MulNonNeg(c - 1, e0.frequency);
    }
    if e0.time <= now && e0.frequency > 0 {
      assert ek.time == e0.time + c * e0.frequency;
      DivUnique(now - e0.time, e0.frequency, c - 1);
    }
  }

  /** A repeating event due by `t` has reached its last due time and not
      the next one. */
  lemma DueCountBounds(e: Event, t: int)
    requires e.frequency > 0 && e.time <= t
    ensures var c, f := DueCount(e, t), e.frequency;
      c >= 1 && (c - 1) * f <= t - e.time < c * f
  {
    var d, f := t - e.time, e.frequency;
    var q := d / f;
    assert q * f <= d < q * f + f;
    assert (q + 1) * f == q * f + f;
  }

  /** Time jumped in two steps fires a repeating task as often as the same
      time jumped at once: the second step starts from the event as the
      first step left it. */
  lemma DueCountSplit(e: Event, t1: int, t2: int)
    requires e.frequency > 0 && t1 <= t2
    ensures DueCount(e, t1) + DueCount(Advance(e, DueCount(e, t1)), t2) == DueCount(e, t2)
  {
    var c1 := DueCount(e, t1);
    var e1 := Advance(e, c1);
    if e.time <= t1 {
      DueCountBounds(e, t1);
      if t2 < e1.time {
        DueCountSplitIdle(e, t1, t2);
      } else {
        DueCountSplitMore(e, t1, t2);
      }
    } else {
      assert e1 == e;
    }
  }

  /** The second step reaches no new due time. */
  lemma DueCountSplitIdle(e: Event, t1: int, t2: int)
    requires e.frequency > 0 && e.time <= t1 <= t2
    requires var c1, f := DueCount(e, t1), e.frequency; (c1 - 1) * f <= t1 - e.time && t2 < e.time + c1 * f
    ensures DueCount(e, t2) == DueCount(e, t1)
  {
    var c1, f := DueCount(e, t1), e.frequency;
    DivUnique(t2 - e.time, f, c1 - 1);
    assert (c1 - 1 + 1) * f == c1 * f;
  }

  /** The second step reaches new due times: they add up. */
  lemma DueCountSplitMore(e: Event, t1: int, t2: int)
    requires e.frequency > 0 && e.time <= t1 <= t2
    requires var c1 := DueCount(e, t1); c1 >= 1 && Advance(e, c1).time <= t2
    ensures DueCount(e, t1) + DueCount(Advance(e, DueCount(e, t1)), t2) == DueCount(e, t2)
  {
    var c1, f := DueCount(e, t1), e.frequency;
    var e1 := Advance(e, c1);
    assert e1.frequency == f && e1.time == e.time + c1 * f;
    DueCountBounds(e1, t2);
    var c2 := DueCount(e1, t2);
    assert (c2 - 1) * f <= t2 - e1.time < c2 * f;
    assert (c1 + c2 - 1) * f == c1 * f + (c2 - 1) * f;
    assert (c1 + c2 - 1 + 1) * f == c1 * f + c2 * f;
    DivUnique(t2 - e.time, f, c1 + c2 - 1);
  }

  /** After a pass, a repeating task, and a one-shot task that is not yet
      due, are still scheduled, moved on by their firings, unless a
      callback of the pass cancelled them. */
  lemma Survivor(e0s: map<Id, Event>, q: seq<Event>, ev: map<Id, Event>, pass: seq<Event>,
                 now: int, cancels: Callbacks, k: Id)
    requires Drained(e0s, q, ev, pass, now, cancels) && k in e0s
    requires k !in Cancelled(cancels, pass)
    requires e0s[k].frequency != 0 || now < e0s[k].time
    ensures k in ev && ev[k] == Advance(e0s[k], Fired(pass, k))
  {
  }
}
