/** `Sleep`: holds each batch of signals for an interval, then notifies
    it; the pending batches are persisted with their emit times. Times and
    intervals are integer ticks; every clock reading is a parameter. */
module SleepBlock {
  import opened Signals
  import opened Buckets

  /** A stored batch: when it is due, and its signals. */
  type Entry = (int, seq<Signal>)

  /** `_trim_old_signals`: the entries not yet due before `now`, in
      order. */
  function Trim(now: int, entries: seq<Entry>): seq<Entry>
  {
    if entries == [] then []
    else (if now <= entries[0].0 then [entries[0]] else []) + Trim(now, entries[1..])
  }

  /** Trimming keeps exactly the entries due at `now` or later. */
  lemma {:induction false} TrimKeeps(now: int, entries: seq<Entry>)
    ensures forall e :: e in Trim(now, entries) <==> e in entries && now <= e.0
    decreases |entries|
  {
    if entries != [] {
      TrimKeeps(now, entries[1..]);
      assert entries == [entries[0]] + entries[1..];
    }
  }

  /** Trimming works entry by entry. */
  lemma {:induction false} TrimAppend(now: int, a: seq<Entry>, b: seq<Entry>)
    ensures Trim(now, a + b) == Trim(now, a) + Trim(now, b)
    decreases |a|
  {
    if a != [] {
      assert (a + b)[0] == a[0] && (a + b)[1..] == a[1..] + b;
      TrimAppend(now, a[1..], b);
      var head := if now <= a[0].0 then [a[0]] else [];
      assert Trim(now, a + b) == head + (Trim(now, a[1..]) + Trim(now, b));
    } else {
      assert a + b == b;
    }
  }

  /** Trimming again, at the same time or later, is trimming once at the
      later time. */
  lemma {:induction false} TrimTwice(t1: int, t2: int, entries: seq<Entry>)
    requires t1 <= t2
    ensures Trim(t2, Trim(t1, entries)) == Trim(t2, entries)
    decreases |entries|
  {
    if entries != [] {
      TrimTwice(t1, t2, entries[1..]);
      TrimAppend(t2, if t1 <= entries[0].0 then [entries[0]] else [], Trim(t1, entries[1..]));
    }
  }

  /** Storing after a trim at the same time is storing, then trimming. */
  lemma StoreAfterTrim(now: int, a: seq<Entry>, b: seq<Entry>)
    ensures Trim(now, Trim(now, a) + b) == Trim(now, a + b)
  {
    TrimAppend(now, Trim(now, a), b);
    TrimTwice(now, now, a);
    TrimTwice(now, now, b);
    TrimAppend(now, a, b);
  }

  /** One more store, after stores of `added` onto `base` (none yet when
      `added` is empty), is all of them stored onto `base` at once. */
  lemma StoreStep(now: int, base: seq<Entry>, added: seq<Entry>, e: Entry, before: seq<Entry>)
    requires before == if added == [] then base else Trim(now, base + added)
    ensures Trim(now, before + [e]) == Trim(now, base + (added + [e]))
  {
    if added == [] {
      assert [] + [e] == [e];
    } else {
      StoreAfterTrim(now, base + added, [e]);
      assert base + added + [e] == base + (added + [e]);
    }
  }

  /** The entry `_store_signals` adds: none for an empty batch. */
  function Added(notifyTime: int, signals: seq<Signal>): seq<Entry>
  {
    if signals != [] then [(notifyTime, signals)] else []
  }

  /** `emit_time or now + duration`: an emit time of 0 is falsy too. */
  function EmitTime(emitTime: Option<int>, now: int, duration: int): int
  {
    if emitTime.Some? && emitTime.value != 0 then emitTime.value else now + duration
  }

  /** The interval of a signal whose interval evaluated. */
  function IntervalKey(interval: Signal -> Eval<int>): (k: Signal -> int)
    ensures forall s :: interval(s).Val? ==> k(s) == interval(s).value
  {
    s => if interval(s).Val? then interval(s).value else 0
  }

  /** The batches of `process_signals`, each due its interval after
      `now`. */
  function Stamped(now: int, d: seq<(int, seq<Signal>)>): (r: seq<Entry>)
    ensures |r| == |d| && forall i :: 0 <= i < |d| ==> r[i] == (now + d[i].0, d[i].1)
  {
    if d == [] then [] else [(now + d[0].0, d[0].1)] + Stamped(now, d[1..])
  }

  /** The loaded entries that `_schedule_persistence_emits` brings back:
      still in the future at `now`, with signals. */
  function Reloaded(now: int, loaded: seq<Entry>): seq<Entry>
  {
    if loaded == [] then []
    else (if loaded[0].0 - now > 0 && loaded[0].1 != [] then [loaded[0]] else []) + Reloaded(now, loaded[1..])
  }

  /** The emit jobs of those entries: the time still to wait, and the
      signals. */
  function Delays(now: int, entries: seq<Entry>): (r: seq<(int, seq<Signal>)>)
    ensures |r| == |entries| && forall i :: 0 <= i < |r| ==> r[i] == (entries[i].0 - now, entries[i].1)
  {
    if entries == [] then [] else [(entries[0].0 - now, entries[0].1)] + Delays(now, entries[1..])
  }

  /** A reloaded entry is one of the loaded ones, due after `now`, with
      signals, and trimming at `now` keeps them all. */
  lemma {:induction false} ReloadedKeeps(now: int, loaded: seq<Entry>)
    ensures forall e :: e in Reloaded(now, loaded) <==> e in loaded && e.0 > now && e.1 != []
    ensures Trim(now, Reloaded(now, loaded)) == Reloaded(now, loaded)
    decreases |loaded|
  {
    if loaded != [] {
      ReloadedKeeps(now, loaded[1..]);
      assert loaded == [loaded[0]] + loaded[1..];
      var head := if loaded[0].0 - now > 0 && loaded[0].1 != [] then [loaded[0]] else [];
      TrimAppend(now, head, Reloaded(now, loaded[1..]));
    }
  }

  class Sleep {
    /** `interval`, per signal. */
    const interval: Signal -> Eval<int>
    /** `_signals`: the persisted pending batches. */
    var stored: seq<Entry>
    /** `_load_signals`: the batches loaded before `configure`. */
    var loaded: seq<Entry>
    /** The emit jobs created so far: their delay and their signals. */
    var jobs: seq<(int, seq<Signal>)>

    constructor (interval: Signal -> Eval<int>)
      ensures this.interval == interval && stored == [] && loaded == [] && jobs == []
    {
      this.interval := interval;
      stored := [];
      loaded := [];
      jobs := [];
    }

    /** `configure`: what persistence loaded is set aside for `start`, and
        nothing is pending. */
    method Configure()
      modifies this`stored, this`loaded
      ensures loaded == old(stored) && stored == []
    {
      loaded := stored;
      stored := [];
    }

    /** `_store_signals`: adds a non-empty batch, then drops what is due
        before `now`. */
    method StoreSignals(notifyTime: int, signals: seq<Signal>, now: int)
      modifies this`stored
      ensures stored == Trim(now, old(stored) + Added(notifyTime, signals))
    {
      if signals != [] {
        stored := stored + [(notifyTime, signals)];
      } else {
        assert old(stored) + [] == old(stored);
      }
      stored := Trim(now, stored);
    }

    /** `_emit_signals_after_duration`: one emit job, and the batch stored
        with its emit time. */
    method EmitAfter(signals: seq<Signal>, duration: int, emitTime: Option<int>, now: int)
      modifies this`stored, this`jobs
      ensures jobs == old(jobs) + [(duration, signals)]
      ensures stored == Trim(now, old(stored) + Added(EmitTime(emitTime, now, duration), signals))
    {
      jobs := jobs + [(duration, signals)];
      var t := EmitTime(emitTime, now, duration);
      StoreSignals(t, signals, now);
    }

    /** `_group_signals_by_interval`: the signals of each interval, in
        order; the first interval that fails to evaluate fails it. */
    method GroupSignalsByInterval(signals: seq<Signal>) returns (r: Eval<seq<(int, seq<Signal>)>>)
      ensures (exists i :: 0 <= i < |signals| && interval(signals[i]).Fails?) <==> r.Fails?
      ensures r.Val? ==> r.value == GroupBy(signals, IntervalKey(interval))
    {
      var d := [];
      var i := 0;
      while i < |signals|
        invariant 0 <= i <= |signals|
        invariant forall j :: 0 <= j < i ==> interval(signals[j]).Val?
        invariant d == GroupBy(signals[..i], IntervalKey(interval))
      {
        var v := interval(signals[i]);
        if v.Fails? {
          return Fails;
        }
        GroupByStep(signals, IntervalKey(interval), i);
        d := AppendTo(d, v.value, signals[i]);
        i := i + 1;
      }
      assert signals[..i] == signals;
      r := Val(d);
    }

    /** `process_signals`: one emit job per distinct interval, delayed by
        that interval and holding the signals with that interval, and each
        batch stored to be emitted then. A failing interval raises before
        anything is scheduled. */
    method ProcessSignals(signals: seq<Signal>, now: int) returns (ok: bool)
      modifies this`stored, this`jobs
      ensures ok <==> forall i :: 0 <= i < |signals| ==> interval(signals[i]).Val?
      ensures !ok ==> stored == old(stored) && jobs == old(jobs)
      ensures ok ==>
        var d := GroupBy(signals, IntervalKey(interval));
        && jobs == old(jobs) + d
        && stored == if d == [] then old(stored) else Trim(now, old(stored) + Stamped(now, d))
    {
      var g := GroupSignalsByInterval(signals);
      if g.Fails? {
        return false;
      }
      GroupByWellFormed(signals, IntervalKey(interval));
      EmitBuckets(g.value, now);
      ok := true;
    }

    /** The loop of `process_signals`: one emit job per bucket, each
        bucket stored to be emitted its interval after `now`. */
    method EmitBuckets(d: seq<(int, seq<Signal>)>, now: int)
      requires forall i :: 0 <= i < |d| ==> d[i].1 != []
      modifies this`stored, this`jobs
      ensures jobs == old(jobs) + d
      ensures stored == if d == [] then old(stored) else Trim(now, old(stored) + Stamped(now, d))
    {
      ghost var stored0 := stored;
      ghost var jobs0 := jobs;
      ghost var added: seq<Entry> := [];
      var i := 0;
      while i < |d|
        invariant 0 <= i <= |d|
        invariant jobs == jobs0 + d[..i]
        invariant added == Stamped(now, d[..i])
        invariant stored == if added == [] then stored0 else Trim(now, stored0 + added)
      {
        ghost var e := (now + d[i].0, d[i].1);
        StoreStep(now, stored0, added, e, stored);
        EmitAfter(d[i].1, d[i].0, None, now);
        assert d[..i + 1] == d[..i] + [d[i]];
        StampedSnoc(now, d[..i], d[i]);
        added := added + [e];
        i := i + 1;
      }
      assert d[..i] == d;
    }

    /** `_schedule_persistence_emits`: every loaded batch still in the
        future at `now` gets an emit job for the time left and is stored
        again with its own emit time; the others are dropped. */
    method SchedulePersistenceEmits(now: int)
      modifies this`stored, this`jobs
      ensures jobs == old(jobs) + Delays(now, Reloaded(now, loaded))
      ensures stored == if Reloaded(now, loaded) == [] then old(stored)
                        else Trim(now, old(stored) + Reloaded(now, loaded))
    {
      ghost var stored0 := stored;
      ghost var jobs0 := jobs;
      ghost var added: seq<Entry> := [];
      var i := 0;
      while i < |loaded|
        invariant 0 <= i <= |loaded|
        invariant added == Reloaded(now, loaded[..i])
        invariant jobs == jobs0 + Delays(now, added)
        invariant stored == if added == [] then stored0 else Trim(now, stored0 + added)
      {
        ReloadedSnoc(now, loaded, i);
        added := ReloadOne(now, loaded[i], stored0, jobs0, added);
        i := i + 1;
      }
      assert loaded[..i] == loaded;
    }

    /** One pass of the loop of `_schedule_persistence_emits`, over the
        loaded batch `e`: it is reloaded when still in the future and not
        empty. */
    method ReloadOne(now: int, e: Entry, ghost stored0: seq<Entry>, ghost jobs0: seq<(int, seq<Signal>)>,
                     ghost added: seq<Entry>) returns (ghost added': seq<Entry>)
      requires jobs == jobs0 + Delays(now, added)
      requires stored == if added == [] then stored0 else Trim(now, stored0 + added)
      modifies this`stored, this`jobs
      ensures added' == added + (if e.0 - now > 0 && e.1 != [] then [e] else [])
      ensures jobs == jobs0 + Delays(now, added')
      ensures stored == if added' == [] then stored0 else Trim(now, stored0 + added')
    {
      var (emitTime, signals) := e;
      var duration := emitTime - now;
      if duration > 0 && signals != [] {
        ghost var before := stored;
        ghost var jobs1 := jobs;
        EmitAfter(signals, duration, Some(emitTime), now);
        ReloadStored(now, stored0, added, e, before, stored);
        ReloadJobs(now, jobs0, added, e, jobs1, jobs);
        added' := added + [e];
        assert added' != [] && stored == Trim(now, stored0 + added');
      } else {
        added' := added;
        assert stored == if added' == [] then stored0 else Trim(now, stored0 + added');
        assert added' == added + [];
      }
    }

    /** `stop`: what is pending is trimmed at `now`, to be persisted. */
    method Stop(now: int)
      modifies this`stored
      ensures stored == Trim(now, old(stored))
    {
      StoreSignals(now, [], now);
      assert old(stored) + [] == old(stored);
    }
  }

  /** What `ReloadOne` stores when it reloads `e`. */
  lemma ReloadStored(now: int, base: seq<Entry>, added: seq<Entry>, e: Entry, before: seq<Entry>, after: seq<Entry>)
    requires before == if added == [] then base else Trim(now, base + added)
    requires e.0 - now > 0 && e.1 != []
    requires after == Trim(now, before + Added(EmitTime(Some(e.0), now, e.0 - now), e.1))
    ensures after == Trim(now, base + (added + [e]))
  {
    assert Added(EmitTime(Some(e.0), now, e.0 - now), e.1) == [e];
    StoreStep(now, base, added, e, before);
  }

  /** The emit job `ReloadOne` adds when it reloads `e`. */
  lemma ReloadJobs(now: int, jobs0: seq<(int, seq<Signal>)>, added: seq<Entry>, e: Entry,
                   before: seq<(int, seq<Signal>)>, after: seq<(int, seq<Signal>)>)
    requires before == jobs0 + Delays(now, added)
    requires after == before + [(e.0 - now, e.1)]
    ensures after == jobs0 + Delays(now, added + [e])
  {
    DelaysSnoc(now, added, e);
  }

  lemma ReloadedSnoc(now: int, loaded: seq<Entry>, i: nat)
    requires i < |loaded|
    ensures Reloaded(now, loaded[..i + 1]) == Reloaded(now, loaded[..i])
      + (if loaded[i].0 - now > 0 && loaded[i].1 != [] then [loaded[i]] else [])
  {
    ReloadedAppend(now, loaded[..i], [loaded[i]]);
    assert loaded[..i + 1] == loaded[..i] + [loaded[i]];
  }

  lemma {:induction false} ReloadedAppend(now: int, a: seq<Entry>, b: seq<Entry>)
    ensures Reloaded(now, a + b) == Reloaded(now, a) + Reloaded(now, b)
    decreases |a|
  {
    if a != [] {
      assert (a + b)[0] == a[0] && (a + b)[1..] == a[1..] + b;
      ReloadedAppend(now, a[1..], b);
      var head := if a[0].0 - now > 0 && a[0].1 != [] then [a[0]] else [];
      assert Reloaded(now, a + b) == head + (Reloaded(now, a[1..]) + Reloaded(now, b));
    } else {
      assert a + b == b;
    }
  }

  lemma StampedSnoc(now: int, d: seq<(int, seq<Signal>)>, x: (int, seq<Signal>))
    ensures Stamped(now, d + [x]) == Stamped(now, d) + [(now + x.0, x.1)]
  {
  }

  lemma DelaysSnoc(now: int, a: seq<Entry>, e: Entry)
    ensures Delays(now, a + [e]) == Delays(now, a) + [(e.0 - now, e.1)]
  {
  }
}
