/** The dynamic-publisher tests, as call sequences on one block whose topic
    is `topic.<sig>`, with the default time-to-live of 600 s (600000
    ticks) unless a test sets another. */
module DynamicPublisherScenarios {
  import opened Signals
  import opened Buckets
  import opened DynamicPublisherBlock

  function Sig(v: string, n: int): Signal
  {
    map["sig" := VStr(v), "val" := VInt(n)]
  }

  /** `topic.{{ $sig }}`: fails when the signal has no string `sig`. */
  function SigTopic(x: Signal): Eval<string>
  {
    if "sig" in x && x["sig"].VStr? then Val("topic." + x["sig"].s) else Fails
  }

  /** Pickling, as an opaque value. */
  function Pickled(signals: seq<Signal>): Eval<Value>
  {
    Val(VOther("pickled"))
  }

  const DefaultTtl := 600000

  /** The topic of `Sig(v, n)`. */
  lemma SigTopicOf(v: string, n: int)
    ensures SigTopic(Sig(v, n)) == Val("topic." + v)
    ensures TopicKey(SigTopic, false, None)(Sig(v, n)) == "topic." + v
  {
    assert Sig(v, n)["sig"] == VStr(v);
  }

  /** Sending on a topic not cached, with a close job. */
  lemma DeliverNew(s: Sys, t: string, payload: seq<Signal>, ttl: int)
    requires t !in s.cache.entries && ttl >= 0
    ensures Deliver(s, t, payload, ttl) ==
      Sys(Cache(s.cache.order + [t], s.cache.entries[t := Entry(|s.log.created|, Some(|s.log.scheduled|))]),
          s.log.(created := s.log.created + [t], sent := s.log.sent + [(|s.log.created|, payload)],
                 scheduled := s.log.scheduled + [(t, ttl)]))
  {
  }

  /** Sending on a cached topic, with a close job. */
  lemma DeliverCached(s: Sys, t: string, payload: seq<Signal>, ttl: int)
    requires t in s.cache.entries && ttl >= 0
    ensures var e := s.cache.entries[t];
      Deliver(s, t, payload, ttl) ==
      Sys(Cache(s.cache.order, s.cache.entries[t := Entry(e.pub, Some(|s.log.scheduled|))]),
          s.log.(sent := s.log.sent + [(e.pub, payload)],
                 scheduled := s.log.scheduled + [(t, ttl)],
                 cancelled := if e.job.Some? then s.log.cancelled + [e.job.value] else s.log.cancelled))
  {
  }

  /** One signal with a topic through a non-local block: one send of it
      on that topic. */
  method PublishOne(blk: DynamicPublisher, x: Signal)
    requires !blk.isLocal && blk.topic == SigTopic && SigTopic(x).Val?
    modifies blk`cache, blk`log
    ensures blk.Now() == Deliver(old(blk.Now()), SigTopic(x).value, [x], blk.ttl)
  {
    var t := SigTopic(x).value;
    var key := TopicKey(SigTopic, false, blk.localId);
    assert [x][..0] == [];
    assert Kept(SigTopic, [x]) == [x];
    assert GroupBy([x], key) == [(t, [x])];
    assert Payloads(false, Pickled, [(t, [x])]) == [(t, [x])];
    assert [(t, [x])][..0] == [];
    blk.ProcessSignals([x], Pickled);
  }

  /** One signal makes one publisher for its topic and one send; stopping
      closes that publisher. */
  method CreatingAPublisher() returns (created: seq<string>, sent: seq<(PubRef, seq<Signal>)>, closed: seq<PubRef>)
    ensures created == ["topic.foo"]
    ensures sent == [(0, [Sig("foo", 1)])]
    ensures closed == [0]
  {
    var blk := new DynamicPublisher(SigTopic, DefaultTtl);
    var x := Sig("foo", 1);
    SigTopicOf("foo", 1);
    assert "topic." + "foo" == "topic.foo";
    PublishOne(blk, x);
    DeliverNew(Idle, "topic.foo", [x], DefaultTtl);
    assert blk.cache == Cache(["topic.foo"], map["topic.foo" := Entry(0, Some(0))]);
    created, sent := blk.log.created, blk.log.sent;
    blk.Stop();
    assert PubsOf(map["topic.foo" := Entry(0, Some(0))], ["topic.foo"]) == [0];
    closed := blk.log.closed;
  }

  /** Two sends on two new topics from the idle state. */
  lemma DeliverTwoNew(x: Signal, y: Signal)
    ensures var e := map["topic.foo" := Entry(0, Some(0)), "topic.bar" := Entry(1, Some(1))];
      Deliver(Deliver(Idle, "topic.foo", [x], DefaultTtl), "topic.bar", [y], DefaultTtl) ==
      Sys(Cache(["topic.foo", "topic.bar"], e),
          Log(["topic.foo", "topic.bar"], [(0, [x]), (1, [y])], [],
              [("topic.foo", DefaultTtl), ("topic.bar", DefaultTtl)], []))
  {
    DeliverNew(Idle, "topic.foo", [x], DefaultTtl);
    DeliverNew(Deliver(Idle, "topic.foo", [x], DefaultTtl), "topic.bar", [y], DefaultTtl);
  }

  /** Batches on two topics make two publishers; stopping closes both. */
  method MultiplePublishers() returns (created: seq<string>, sent: seq<(PubRef, seq<Signal>)>, closed: seq<PubRef>)
    ensures created == ["topic.foo", "topic.bar"]
    ensures sent == [(0, [Sig("foo", 1)]), (1, [Sig("bar", 2)])]
    ensures closed == [0, 1]
  {
    var blk := new DynamicPublisher(SigTopic, DefaultTtl);
    var x, y := Sig("foo", 1), Sig("bar", 2);
    SigTopicOf("foo", 1);
    SigTopicOf("bar", 2);
    assert "topic." + "foo" == "topic.foo";
    assert "topic." + "bar" == "topic.bar";
    PublishOne(blk, x);
    PublishOne(blk, y);
    TwoNewThenStop(x, y);
    created, sent := blk.log.created, blk.log.sent;
    blk.Stop();
    closed := blk.log.closed;
  }

  /** Two sends on two new topics from the idle state, then a stop. */
  lemma TwoNewThenStop(x: Signal, y: Signal)
    ensures var s := Deliver(Deliver(Idle, "topic.foo", [x], DefaultTtl), "topic.bar", [y], DefaultTtl);
      && s.log.created == ["topic.foo", "topic.bar"]
      && s.log.sent == [(0, [x]), (1, [y])]
      && StopAll(s).log.closed == [0, 1]
  {
    DeliverTwoNew(x, y);
    var entries := map["topic.foo" := Entry(0, Some(0)), "topic.bar" := Entry(1, Some(1))];
    assert PubsOf(entries, ["topic.foo", "topic.bar"]) == [0, 1];
  }

  /** A second batch for the same topic reuses its publisher. */
  method ReusingPubs() returns (created: seq<string>, sent: seq<(PubRef, seq<Signal>)>)
    ensures created == ["topic.foo"]
    ensures sent == [(0, [Sig("foo", 1)]), (0, [Sig("foo", 2)])]
  {
    var blk := new DynamicPublisher(SigTopic, DefaultTtl);
    var x, y := Sig("foo", 1), Sig("foo", 2);
    SigTopicOf("foo", 1);
    SigTopicOf("foo", 2);
    assert "topic." + "foo" == "topic.foo";
    PublishOne(blk, x);
    DeliverNew(Idle, "topic.foo", [x], DefaultTtl);
    ghost var s1 := blk.Now();
    PublishOne(blk, y);
    DeliverCached(s1, "topic.foo", [y], DefaultTtl);
    created, sent := blk.log.created, blk.log.sent;
  }

  /** The signals of the partitioning test. */
  const SixSignals := [Sig("foo", 1), Sig("bar", 2), Sig("baz", 3), Sig("foo", 4), Sig("bar", 5), Sig("foo", 6)]

  /** Six signals over three topics: three publishers, one send each, with
      each topic's signals in order. */
  method Partitioning() returns (created: seq<string>, sent: seq<(PubRef, seq<Signal>)>)
    ensures created == ["topic.foo", "topic.bar", "topic.baz"]
    ensures sent == [(0, [Sig("foo", 1), Sig("foo", 4), Sig("foo", 6)]),
                     (1, [Sig("bar", 2), Sig("bar", 5)]),
                     (2, [Sig("baz", 3)])]
  {
    var blk := new DynamicPublisher(SigTopic, DefaultTtl);
    PartitioningLog();
    blk.ProcessSignals(SixSignals, Pickled);
    created, sent := blk.log.created, blk.log.sent;
  }

  /** The log the partitioning test leaves. */
  lemma PartitioningLog()
    ensures var s := PublishAll(Idle, Payloads(false, Pickled, GroupBy(Kept(SigTopic, SixSignals), TopicKey(SigTopic, false, None))), DefaultTtl);
      && s.log.created == ["topic.foo", "topic.bar", "topic.baz"]
      && s.log.sent == [(0, [Sig("foo", 1), Sig("foo", 4), Sig("foo", 6)]),
                        (1, [Sig("bar", 2), Sig("bar", 5)]),
                        (2, [Sig("baz", 3)])]
  {
    var d := Groups();
    PayloadsPlain(Pickled, d);
    PublishThreeFresh(d, DefaultTtl);
  }

  /** Three groups on distinct new topics from the idle state: three
      publishers, numbered in order, each sent its own group. */
  lemma PublishThreeFresh(d: seq<(string, seq<Signal>)>, ttl: int)
    requires |d| == 3 && d[0].0 != d[1].0 && d[0].0 != d[2].0 && d[1].0 != d[2].0
    ensures PublishAll(Idle, d, ttl).log.created == [d[0].0, d[1].0, d[2].0]
    ensures PublishAll(Idle, d, ttl).log.sent == [(0, d[0].1), (1, d[1].1), (2, d[2].1)]
  {
    assert DistinctTopics(d);
    PublishAllFresh(Idle, d, ttl);
    assert Names(d) == [d[0].0, d[1].0, d[2].0];
    assert Numbered(d, 0) == [(0, d[0].1), (1, d[1].1), (2, d[2].1)];
  }

  /** The grouping of the partitioning test. */
  lemma Groups() returns (d: seq<(string, seq<Signal>)>)
    ensures d == GroupBy(Kept(SigTopic, SixSignals), TopicKey(SigTopic, false, None))
    ensures var xs := SixSignals;
      d == [("topic.foo", [xs[0], xs[3], xs[5]]), ("topic.bar", [xs[1], xs[4]]), ("topic.baz", [xs[2]])]
  {
    var xs := SixSignals;
    SixTopics();
    KeptSix();
    GroupSix(xs, TopicKey(SigTopic, false, None), "topic.foo", "topic.bar", "topic.baz");
    d := [("topic.foo", [xs[0], xs[3], xs[5]]), ("topic.bar", [xs[1], xs[4]]), ("topic.baz", [xs[2]])];
  }

  /** The topics of the six signals. */
  lemma SixTopics()
    ensures var xs, key := SixSignals, TopicKey(SigTopic, false, None);
      && key(xs[0]) == "topic.foo" && key(xs[1]) == "topic.bar" && key(xs[2]) == "topic.baz"
      && key(xs[3]) == "topic.foo" && key(xs[4]) == "topic.bar" && key(xs[5]) == "topic.foo"
  {
    SigTopicOf("foo", 1);
    SigTopicOf("bar", 2);
    SigTopicOf("baz", 3);
    SigTopicOf("foo", 4);
    SigTopicOf("bar", 5);
    SigTopicOf("foo", 6);
    assert "topic." + "foo" == "topic.foo" && "topic." + "bar" == "topic.bar" && "topic." + "baz" == "topic.baz";
  }

  /** Every one of the six signals has a topic. */
  lemma KeptSix()
    ensures Kept(SigTopic, SixSignals) == SixSignals
  {
    var xs := SixSignals;
    SigTopicOf("foo", 1);
    SigTopicOf("bar", 2);
    SigTopicOf("baz", 3);
    SigTopicOf("foo", 4);
    SigTopicOf("bar", 5);
    SigTopicOf("foo", 6);
    assert forall i :: 0 <= i < |xs| ==> SigTopic(xs[i]).Val?;
    KeptMeaning(SigTopic, xs);
  }

  /** Grouping the key pattern a b c a b a. */
  lemma GroupSix<V>(xs: seq<V>, key: V -> string, a: string, b: string, c: string)
    requires |xs| == 6 && a != b && a != c && b != c
    requires key(xs[0]) == a && key(xs[1]) == b && key(xs[2]) == c
    requires key(xs[3]) == a && key(xs[4]) == b && key(xs[5]) == a
    ensures GroupBy(xs, key) == [(a, [xs[0], xs[3], xs[5]]), (b, [xs[1], xs[4]]), (c, [xs[2]])]
  {
    assert GroupBy(xs[..1], key) == [(a, [xs[0]])] by {
      assert xs[..1][..0] == [];
    }
    GroupByStep(xs, key, 1);
    AppendNew1((a, [xs[0]]), b, xs[1]);
    GroupByStep(xs, key, 2);
    AppendNew2((a, [xs[0]]), (b, [xs[1]]), c, xs[2]);
    GroupByStep(xs, key, 3);
    AppendAt0((a, [xs[0]]), (b, [xs[1]]), (c, [xs[2]]), xs[3]);
    GroupByStep(xs, key, 4);
    AppendAt1((a, [xs[0], xs[3]]), (b, [xs[1]]), (c, [xs[2]]), xs[4]);
    GroupByStep(xs, key, 5);
    AppendAt0((a, [xs[0], xs[3]]), (b, [xs[1], xs[4]]), (c, [xs[2]]), xs[5]);
    assert [xs[0]] + [xs[3]] == [xs[0], xs[3]];
    assert [xs[0], xs[3]] + [xs[5]] == [xs[0], xs[3], xs[5]];
    assert [xs[1]] + [xs[4]] == [xs[1], xs[4]];
    assert xs[..6] == xs;
  }

  /** Appending under a new key to one list. */
  lemma AppendNew1<V>(p: (string, seq<V>), k: string, x: V)
    requires k != p.0
    ensures AppendTo([p], k, x) == [p, (k, [x])]
  {
    assert [p][1..] == [];
  }

  /** Appending under a new key to two lists. */
  lemma AppendNew2<V>(p: (string, seq<V>), q: (string, seq<V>), k: string, x: V)
    requires k != p.0 && k != q.0
    ensures AppendTo([p, q], k, x) == [p, q, (k, [x])]
  {
    assert [p, q][1..] == [q];
    AppendNew1(q, k, x);
  }

  /** Appending under the first of three keys. */
  lemma AppendAt0<V>(p: (string, seq<V>), q: (string, seq<V>), r: (string, seq<V>), x: V)
    ensures AppendTo([p, q, r], p.0, x) == [(p.0, p.1 + [x]), q, r]
  {
    assert [p, q, r][1..] == [q, r];
  }

  /** Appending under the second of three keys. */
  lemma AppendAt1<V>(p: (string, seq<V>), q: (string, seq<V>), r: (string, seq<V>), x: V)
    requires p.0 != q.0
    ensures AppendTo([p, q, r], q.0, x) == [p, (q.0, q.1 + [x]), r]
  {
    assert [p, q, r][1..] == [q, r];
    assert [q, r][1..] == [r];
  }

  /** A single signal whose topic evaluates is kept. */
  lemma KeptOne(x: Signal)
    requires SigTopic(x).Val?
    ensures Kept(SigTopic, [x]) == [x]
  {
    assert [x][..0] == [];
  }

  /** A single signal makes a single group. */
  lemma GroupOne(x: Signal, key: Signal -> string)
    ensures GroupBy([x], key) == [(key(x), [x])]
  {
    assert [x][..0] == [];
  }

  /** The payloads of a single group. */
  lemma PayloadsOne(isLocal: bool, encode: seq<Signal> -> Eval<Value>, t: string, g: seq<Signal>)
    ensures var p := Payload(isLocal, encode, g);
      Payloads(isLocal, encode, [(t, g)]) == if p.Val? then [(t, p.value)] else []
  {
    assert [(t, g)][..0] == [];
  }

  /** The full topic of `Sig("foo", 1)` on a local block with identifier `test`. */
  lemma LocalKeyFoo()
    ensures TopicKey(SigTopic, true, Some("test"))(Sig("foo", 1)) == "test.topic.foo"
  {
    SigTopicOf("foo", 1);
    assert "test" + "." + ("topic." + "foo") == "test.topic.foo";
  }

  /** A local block with identifier `test` groups one signal under its
      prefixed topic and pickles the group. */
  lemma LocalGroupOne(x: Signal)
    requires x == Sig("foo", 1)
    ensures Payloads(true, Pickled, GroupBy(Kept(SigTopic, [x]), TopicKey(SigTopic, true, Some("test")))) ==
            [("test.topic.foo", [map["signals" := VOther("pickled")]])]
  {
    SigTopicOf("foo", 1);
    KeptOne(x);
    GroupOne(x, TopicKey(SigTopic, true, Some("test")));
    LocalKeyFoo();
    PayloadsOne(true, Pickled, "test.topic.foo", [x]);
  }

  /** Publishing a single group from the idle state. */
  lemma PublishSingle(t: string, payload: seq<Signal>)
    ensures var s := PublishAll(Idle, [(t, payload)], DefaultTtl);
      s.log.created == [t] && s.log.sent == [(0, payload)]
  {
    PublishAllSnoc(Idle, [], (t, payload), DefaultTtl);
    assert [] + [(t, payload)] == [(t, payload)];
    DeliverNew(Idle, t, payload, DefaultTtl);
  }

  /** What a local block with identifier `test` makes of one signal. */
  lemma LocalPublishOne(x: Signal)
    requires x == Sig("foo", 1)
    ensures var s := PublishAll(Idle, Payloads(true, Pickled,
                       GroupBy(Kept(SigTopic, [x]), TopicKey(SigTopic, true, Some("test")))), DefaultTtl);
      s.log.created == ["test.topic.foo"] && s.log.sent == [(0, [map["signals" := VOther("pickled")]])]
  {
    LocalGroupOne(x);
    PublishSingle("test.topic.foo", [map["signals" := VOther("pickled")]]);
  }

  /** A local publisher sends one signal holding the pickled batch, on the
      topic prefixed with its identifier. */
  method LocalPublisher() returns (created: seq<string>, sent: seq<(PubRef, seq<Signal>)>)
    ensures created == ["test.topic.foo"]
    ensures sent == [(0, [map["signals" := VOther("pickled")]])]
  {
    var blk := new DynamicPublisher(SigTopic, DefaultTtl);
    blk.Configure(true, "test");
    var x := Sig("foo", 1);
    blk.ProcessSignals([x], Pickled);
    LocalPublishOne(x);
    created, sent := blk.log.created, blk.log.sent;
  }

  /** A negative time-to-live caches the publisher without a close job. */
  method NeverExpiring() returns (job: Option<JobRef>)
    ensures job == None
  {
    var blk := new DynamicPublisher(SigTopic, -1000);
    var x := Sig("foo", 1);
    SigTopicOf("foo", 1);
    assert "topic." + "foo" == "topic.foo";
    PublishOne(blk, x);
    job := blk.cache.entries["topic.foo"].job;
  }

  /** The close job of a publisher closes it and forgets its topic. */
  method Closing() returns (scheduled: seq<(string, int)>, closedBefore: seq<PubRef>, ok: bool,
                             closed: seq<PubRef>, cached: bool)
    ensures scheduled == [("topic.foo", 200)] && closedBefore == []
    ensures ok && closed == [0] && !cached
  {
    var blk := new DynamicPublisher(SigTopic, 200);
    var x := Sig("foo", 1);
    SigTopicOf("foo", 1);
    assert "topic." + "foo" == "topic.foo";
    PublishOne(blk, x);
    DeliverNew(Idle, "topic.foo", [x], 200);
    scheduled, closedBefore := blk.log.scheduled, blk.log.closed;
    ok := blk.ClosePublisher("topic.foo");
    closed := blk.log.closed;
    cached := "topic.foo" in blk.cache.entries;
  }
}
