/** The persistence tests of the sleep block, as call sequences. */
module SleepScenarios {
  import opened Signals
  import opened Buckets
  import opened SleepBlock

  /** The interval of every signal: ten seconds. */
  function TenSeconds(s: Signal): Eval<int>
  {
    Val(10000)
  }

  /** With one interval for all, a batch is one bucket. */
  lemma {:induction false} OneBucket(xs: seq<Signal>)
    requires xs != []
    ensures GroupBy(xs, IntervalKey(TenSeconds)) == [(10000, xs)]
    decreases |xs|
  {
    var key := IntervalKey(TenSeconds);
    assert key(xs[|xs| - 1]) == 10000;
    var init := xs[..|xs| - 1];
    if init == [] {
      assert xs == [xs[0]];
    } else {
      OneBucket(init);
      assert init + [xs[|xs| - 1]] == xs;
    }
  }

  /** Two batches held for ten seconds and a stop before either is due:
      both are pending, each with its two signals, the later batch due
      later. */
  method PersistSave(a: seq<Signal>, b: seq<Signal>, t1: int, t2: int, t3: int)
      returns (pending: seq<Entry>)
    requires |a| == 2 && |b| == 2 && t1 < t2 <= t3 < t1 + 10000
    ensures |pending| == 2 && |pending[0].1| == 2 && |pending[1].1| == 2
    ensures pending[0].0 < pending[1].0
  {
    var blk := new Sleep(TenSeconds);
    var okA := blk.ProcessSignals(a, t1);
    OneBucket(a);
    assert blk.stored == [(t1 + 10000, a)];
    var okB := blk.ProcessSignals(b, t2);
    OneBucket(b);
    ghost var both := [(t1 + 10000, a), (t2 + 10000, b)];
    assert [(t1 + 10000, a)] + Stamped(t2, [(10000, b)]) == both;
    assert Trim(t2, both[1..]) == [both[1]];
    assert blk.stored == both;
    blk.Stop(t3);
    assert Trim(t3, both[1..]) == [both[1]];
    pending := blk.stored;
  }

  /** Batches loaded from persistence, one due now and one due in a
      second: only the later one is scheduled again, with the second still
      to wait, and once it is past nothing is left to persist. */
  method PersistLoad(s1: seq<Signal>, s2: seq<Signal>, now: int, later: int)
      returns (loaded: seq<Entry>, pending: seq<Entry>, jobs: seq<(int, seq<Signal>)>, atStop: seq<Entry>)
    requires s1 != [] && s2 != [] && later > now + 1000
    ensures loaded == [(now, s1), (now + 1000, s2)]
    ensures pending == [(now + 1000, s2)] && jobs == [(1000, s2)]
    ensures atStop == []
  {
    var blk := new Sleep(TenSeconds);
    blk.stored := [(now, s1), (now + 1000, s2)];
    blk.Configure();
    blk.SchedulePersistenceEmits(now);
    ghost var l := blk.loaded;
    assert Reloaded(now, l[1..]) == [l[1]];
    assert Reloaded(now, l) == [(now + 1000, s2)];
    loaded, pending, jobs := blk.loaded, blk.stored, blk.jobs;
    blk.Stop(later);
    atStop := blk.stored;
  }
}
