/** The DynamicPublisher block: signals are grouped by an evaluated topic
    and each group is sent through a publisher kept per topic, created on
    first use and closed when its time-to-live job fires or the block stops.

    The publishers, the sends and the jobs live outside the block; here
    they are a log of what the block asked for. A publisher is the index of
    its creation in that log, and a job the index of its scheduling. */
module DynamicPublisherBlock {
  import opened Signals
  import opened Buckets

  /** A publisher: the position of its `Publisher(topic=...)` in `created`. */
  type PubRef = nat
  /** A close job: the position of its `Job(...)` in `scheduled`. */
  type JobRef = nat

  /** `_cache`: the topics in insertion order (a Python dict's iteration
      order) and each topic's publisher and pending close job. */
  datatype Cache = Cache(order: seq<string>, entries: map<string, Entry>)

  /** A cached topic's publisher and pending close job. */
  datatype Entry = Entry(pub: PubRef, job: Option<JobRef>)

  /** What the block asked of the world: publishers created (by topic),
      sends, closes, close jobs scheduled (topic and delay), and jobs
      cancelled. */
  datatype Log = Log(created: seq<string>, sent: seq<(PubRef, seq<Signal>)>, closed: seq<PubRef>,
                     scheduled: seq<(string, int)>, cancelled: seq<JobRef>)

  datatype Sys = Sys(cache: Cache, log: Log)

  const Idle := Sys(Cache([], map[]), Log([], [], [], [], []))

  /** Every cached topic is listed once in the insertion order, and only
      cached topics are listed. */
  ghost predicate OrderOk(c: Cache)
  {
    && Distinct(c.order)
    && (forall t :: t in c.entries <==> t in c.order)
  }

  /** Every cached publisher was created for its topic and is not closed. */
  ghost predicate PubsOk(c: Cache, l: Log)
  {
    && (forall p :: p in l.closed ==> p < |l.created|)
    && (forall t :: t in c.entries ==>
          c.entries[t].pub < |l.created| && l.created[c.entries[t].pub] == t && c.entries[t].pub !in l.closed)
  }

  /** Every pending close job was scheduled for its topic and is not
      cancelled. */
  ghost predicate JobsOk(c: Cache, l: Log)
  {
    && (forall j :: j in l.cancelled ==> j < |l.scheduled|)
    && (forall t :: t in c.entries && c.entries[t].job.Some? ==>
          && c.entries[t].job.value < |l.scheduled| && l.scheduled[c.entries[t].job.value].0 == t
          && c.entries[t].job.value !in l.cancelled)
  }

  /** The cache and the log agree. */
  ghost predicate Valid(s: Sys)
  {
    OrderOk(s.cache) && PubsOk(s.cache, s.log) && JobsOk(s.cache, s.log)
  }

  lemma IdleValid()
    ensures Valid(Idle)
  {
  }

  /** The topic a signal goes to: `<local id>.<topic>` for a local
      publisher with a non-empty identifier, the topic itself otherwise. */
  function FullTopic(isLocal: bool, localId: Option<string>, t: string): (r: string)
    ensures isLocal && localId.Some? && localId.value != "" ==> r == localId.value + "." + t
    ensures !(isLocal && localId.Some? && localId.value != "") ==> r == t
  {
    if isLocal && localId.Some? && localId.value != "" then localId.value + "." + t else t
  }

  /** The prefix keeps distinct topics apart, so grouping by the full
      topic is grouping by the evaluated one. */
  lemma FullTopicInjective(isLocal: bool, localId: Option<string>, a: string, b: string)
    requires FullTopic(isLocal, localId, a) == FullTopic(isLocal, localId, b)
    ensures a == b
  {
    if isLocal && localId.Some? && localId.value != "" {
      var n := |localId.value + "."|;
      assert a == (localId.value + "." + a)[n..];
      assert b == (localId.value + "." + b)[n..];
    }
  }

  /** The signals whose topic expression evaluates, in order; the others
      are skipped. */
  function Kept(topic: Signal -> Eval<string>, signals: seq<Signal>): (r: seq<Signal>)
    ensures |r| <= |signals|
  {
    if signals == [] then []
    else
      var last := signals[|signals| - 1];
      Kept(topic, signals[..|signals| - 1]) + (if topic(last).Val? then [last] else [])
  }

  /** A signal is kept exactly when its topic evaluates, and signals whose
      topics all evaluate are kept whole. */
  lemma {:induction false} KeptMeaning(topic: Signal -> Eval<string>, signals: seq<Signal>)
    ensures forall x :: x in Kept(topic, signals) <==> x in signals && topic(x).Val?
    ensures (forall i :: 0 <= i < |signals| ==> topic(signals[i]).Val?) ==> Kept(topic, signals) == signals
    decreases |signals|
  {
    if signals != [] {
      var init := signals[..|signals| - 1];
      KeptMeaning(topic, init);
      assert signals == init + [signals[|signals| - 1]];
    }
  }

  /** The full topic of a kept signal. */
  function TopicKey(topic: Signal -> Eval<string>, isLocal: bool, localId: Option<string>): (k: Signal -> string)
    ensures forall x :: topic(x).Val? ==> k(x) == FullTopic(isLocal, localId, topic(x).value)
  {
    x => if topic(x).Val? then FullTopic(isLocal, localId, topic(x).value) else ""
  }

  /** What is sent for a group: the signals, or for a local publisher one
      signal `{"signals": <encoded signals>}`; an encoding failure (the
      pickling errors) sends nothing. */
  function Payload(isLocal: bool, encode: seq<Signal> -> Eval<Value>, signals: seq<Signal>): (r: Eval<seq<Signal>>)
    ensures !isLocal ==> r == Val(signals)
    ensures isLocal ==> (r.Val? <==> encode(signals).Val?)
    ensures isLocal && r.Val? ==> r.value == [map["signals" := encode(signals).value]]
  {
    if !isLocal then Val(signals)
    else if encode(signals).Val? then Val([map["signals" := encode(signals).value]])
    else Fails
  }

  /** The groups that are published, each with what is sent. */
  function Payloads(isLocal: bool, encode: seq<Signal> -> Eval<Value>, d: seq<(string, seq<Signal>)>)
    : (r: seq<(string, seq<Signal>)>)
    ensures |r| <= |d|
  {
    if d == [] then []
    else
      var p := Payload(isLocal, encode, d[|d| - 1].1);
      Payloads(isLocal, encode, d[..|d| - 1]) + (if p.Val? then [(d[|d| - 1].0, p.value)] else [])
  }

  /** The topics of a list of groups. */
  function TopicsOf(d: seq<(string, seq<Signal>)>): (r: set<string>)
    ensures forall i :: 0 <= i < |d| ==> d[i].0 in r
    ensures forall t :: t in r ==> exists i :: 0 <= i < |d| && d[i].0 == t
  {
    if d == [] then {} else TopicsOf(d[..|d| - 1]) + {d[|d| - 1].0}
  }

  /** No topic twice in a list of groups. */
  ghost predicate DistinctTopics(d: seq<(string, seq<Signal>)>)
  {
    forall i, j :: 0 <= i < j < |d| ==> d[i].0 != d[j].0
  }

  /** The published groups are groups of `d`. */
  lemma {:induction false} PayloadsTopics(isLocal: bool, encode: seq<Signal> -> Eval<Value>, d: seq<(string, seq<Signal>)>)
    ensures TopicsOf(Payloads(isLocal, encode, d)) <= TopicsOf(d)
    decreases |d|
  {
    if d != [] {
      PayloadsTopics(isLocal, encode, d[..|d| - 1]);
    }
  }

  /** The published groups keep their topics apart. */
  lemma {:induction false} PayloadsDistinct(isLocal: bool, encode: seq<Signal> -> Eval<Value>, d: seq<(string, seq<Signal>)>)
    requires DistinctTopics(d)
    ensures DistinctTopics(Payloads(isLocal, encode, d))
    decreases |d|
  {
    if d != [] {
      var init := d[..|d| - 1];
      var x := d[|d| - 1];
      assert DistinctTopics(init) by {
        forall i, j | 0 <= i < j < |init|
          ensures init[i].0 != init[j].0
        {
          assert init[i] == d[i] && init[j] == d[j];
        }
      }
      PayloadsDistinct(isLocal, encode, init);
      PayloadsTopics(isLocal, encode, init);
      var r0 := Payloads(isLocal, encode, init);
      var p := Payload(isLocal, encode, x.1);
      assert x.0 !in TopicsOf(init);
      if p.Val? {
        var r := r0 + [(x.0, p.value)];
        assert Payloads(isLocal, encode, d) == r;
        forall i, j | 0 <= i < j < |r|
          ensures r[i].0 != r[j].0
        {
          assert r[i] == r0[i];
          if j == |r0| {
            assert r0[i].0 in TopicsOf(r0);
          } else {
            assert r[j] == r0[j];
          }
        }
      }
    }
  }

  /** Without a local encoding every group is published as it is. */
  lemma {:induction false} PayloadsPlain(encode: seq<Signal> -> Eval<Value>, d: seq<(string, seq<Signal>)>)
    ensures Payloads(false, encode, d) == d
    decreases |d|
  {
    if d != [] {
      PayloadsPlain(encode, d[..|d| - 1]);
      assert d == d[..|d| - 1] + [d[|d| - 1]];
    }
  }

  /** The publisher `__get_publisher` hands out for `t`: the cached one,
      else the one it creates next. */
  function PubFor(s: Sys, t: string): PubRef
  {
    if t in s.cache.entries then s.cache.entries[t].pub else |s.log.created|
  }

  /** `__get_publisher`: a new topic's publisher is created and cached
      first; the topic's previous close job is cancelled and a new one
      scheduled after `ttl` ticks, or none when `ttl` is negative. */
  function Fetch(s: Sys, t: string, ttl: int): Sys
  {
    var c := s.cache;
    var l := s.log;
    var isNew := t !in c.entries;
    var prev: Option<JobRef> := if isNew then None else c.entries[t].job;
    var job: Option<JobRef> := if ttl >= 0 then Some(|l.scheduled|) else None;
    Sys(Cache(if isNew then c.order + [t] else c.order, c.entries[t := Entry(PubFor(s, t), job)]),
        Log(if isNew then l.created + [t] else l.created,
            l.sent,
            l.closed,
            if ttl >= 0 then l.scheduled + [(t, ttl)] else l.scheduled,
            if prev.Some? then l.cancelled + [prev.value] else l.cancelled))
  }

  lemma FetchOrder(s: Sys, t: string, ttl: int)
    requires OrderOk(s.cache)
    ensures OrderOk(Fetch(s, t, ttl).cache)
  {
    var c, c' := s.cache, Fetch(s, t, ttl).cache;
    assert forall u :: u in c'.order <==> u in c.order || u == t;
  }

  lemma FetchPubs(s: Sys, t: string, ttl: int)
    requires PubsOk(s.cache, s.log)
    ensures var s' := Fetch(s, t, ttl); PubsOk(s'.cache, s'.log)
  {
    var s' := Fetch(s, t, ttl);
    forall u | u in s'.cache.entries
      ensures s'.cache.entries[u].pub < |s'.log.created| && s'.log.created[s'.cache.entries[u].pub] == u
      ensures s'.cache.entries[u].pub !in s'.log.closed
    {
      if u != t {
        assert s'.cache.entries[u] == s.cache.entries[u];
      }
    }
  }

  lemma FetchJobs(s: Sys, t: string, ttl: int)
    requires JobsOk(s.cache, s.log)
    ensures var s' := Fetch(s, t, ttl); JobsOk(s'.cache, s'.log)
  {
    var s' := Fetch(s, t, ttl);
    forall u | u in s'.cache.entries && s'.cache.entries[u].job.Some?
      ensures s'.cache.entries[u].job.value < |s'.log.scheduled|
      ensures s'.log.scheduled[s'.cache.entries[u].job.value].0 == u
      ensures s'.cache.entries[u].job.value !in s'.log.cancelled
    {
      if u != t {
        assert s'.cache.entries[u] == s.cache.entries[u];
      }
    }
  }

  /** Fetching keeps the cache consistent with the log. */
  lemma FetchValid(s: Sys, t: string, ttl: int)
    requires Valid(s)
    ensures Valid(Fetch(s, t, ttl))
  {
    FetchOrder(s, t, ttl);
    FetchPubs(s, t, ttl);
    FetchJobs(s, t, ttl);
  }

  /** Fetching caches the topic, with a close job exactly when `ttl` is
      not negative, and the publisher it hands out; a cached topic keeps
      its publisher and a new one is created exactly once and listed last;
      the topic's previous close job, if any, is cancelled and the new one
      is the next scheduled job; no other topic changes and nothing is
      sent or closed. */
  lemma FetchCache(s: Sys, t: string, ttl: int)
    ensures var s', p := Fetch(s, t, ttl), PubFor(s, t);
      && s'.cache.entries.Keys == s.cache.entries.Keys + {t}
      && s'.cache.entries[t].pub == p
      && (s'.cache.entries[t].job.Some? <==> ttl >= 0)
      && (t in s.cache.entries ==> p == s.cache.entries[t].pub && s'.log.created == s.log.created)
      && (t !in s.cache.entries ==> p == |s.log.created| && s'.log.created == s.log.created + [t])
      && (forall u :: u in s.cache.entries && u != t ==> s'.cache.entries[u] == s.cache.entries[u])
      && s'.log.sent == s.log.sent && s'.log.closed == s.log.closed
      && s'.cache.order == (if t in s.cache.entries then s.cache.order else s.cache.order + [t])
      && s'.log.cancelled == s.log.cancelled +
           (if t in s.cache.entries && s.cache.entries[t].job.Some? then [s.cache.entries[t].job.value] else [])
      && s'.log.scheduled == s.log.scheduled + (if ttl >= 0 then [(t, ttl)] else [])
      && (ttl >= 0 ==> s'.cache.entries[t].job == Some(|s.log.scheduled|))
  {
  }

  /** The publisher handed out was created for the topic. */
  lemma FetchPub(s: Sys, t: string, ttl: int)
    requires PubsOk(s.cache, s.log)
    ensures var s', p := Fetch(s, t, ttl), PubFor(s, t);
      p < |s'.log.created| && s'.log.created[p] == t && s.log.created <= s'.log.created
  {
  }

  /** One send of `payload` to the topic's publisher. */
  function Deliver(s: Sys, t: string, payload: seq<Signal>, ttl: int): Sys
  {
    var s' := Fetch(s, t, ttl);
    Sys(s'.cache, s'.log.(sent := s'.log.sent + [(PubFor(s, t), payload)]))
  }

  /** The second loop of `process_signals`: one send per published group,
      in order. */
  function PublishAll(s: Sys, ps: seq<(string, seq<Signal>)>, ttl: int): Sys
  {
    if ps == [] then s
    else
      var last := ps[|ps| - 1];
      Deliver(PublishAll(s, ps[..|ps| - 1], ttl), last.0, last.1, ttl)
  }

  lemma PublishAllSnoc(s: Sys, ps: seq<(string, seq<Signal>)>, x: (string, seq<Signal>), ttl: int)
    ensures PublishAll(s, ps + [x], ttl) == Deliver(PublishAll(s, ps, ttl), x.0, x.1, ttl)
  {
    assert (ps + [x])[..|ps|] == ps;
  }

  /** The payloads of one more group of a partition. */
  lemma PayloadsStep(isLocal: bool, encode: seq<Signal> -> Eval<Value>,
                     d: seq<(string, seq<Signal>)>, i: int)
    requires 0 <= i < |d|
    ensures var out := Payload(isLocal, encode, d[i].1);
      Payloads(isLocal, encode, d[..i + 1]) ==
        Payloads(isLocal, encode, d[..i]) + if out.Val? then [(d[i].0, out.value)] else []
  {
    var di := d[..i + 1];
    assert di[..|di| - 1] == d[..i];
    assert di[|di| - 1] == d[i];
  }

  /** Publishing one more group of a partition extends the deliveries by
      that group's payload, when it can be made. */
  lemma PublishPrefixStep(s: Sys, isLocal: bool, encode: seq<Signal> -> Eval<Value>,
                          d: seq<(string, seq<Signal>)>, i: int, ttl: int)
    requires 0 <= i < |d|
    ensures var out := Payload(isLocal, encode, d[i].1);
      var before := PublishAll(s, Payloads(isLocal, encode, d[..i]), ttl);
      PublishAll(s, Payloads(isLocal, encode, d[..i + 1]), ttl) ==
        if out.Val? then Deliver(before, d[i].0, out.value, ttl) else before
  {
    PayloadsStep(isLocal, encode, d, i);
    var ps := Payloads(isLocal, encode, d[..i]);
    var out := Payload(isLocal, encode, d[i].1);
    if out.Val? {
      PublishAllSnoc(s, ps, (d[i].0, out.value), ttl);
    } else {
      assert Payloads(isLocal, encode, d[..i + 1]) == ps;
    }
  }

  /** Publishing keeps the cache consistent with the log. */
  lemma {:induction false} PublishAllValid(s: Sys, ps: seq<(string, seq<Signal>)>, ttl: int)
    requires Valid(s)
    ensures Valid(PublishAll(s, ps, ttl))
    decreases |ps|
  {
    if ps != [] {
      var init := ps[..|ps| - 1];
      var last := ps[|ps| - 1];
      PublishAllValid(s, init, ttl);
      FetchValid(PublishAll(s, init, ttl), last.0, ttl);
    }
  }

  /** Publishing caches exactly the topics published and those cached. */
  lemma {:induction false} PublishAllKeys(s: Sys, ps: seq<(string, seq<Signal>)>, ttl: int)
    ensures PublishAll(s, ps, ttl).cache.entries.Keys == s.cache.entries.Keys + TopicsOf(ps)
    decreases |ps|
  {
    if ps != [] {
      var init := ps[..|ps| - 1];
      PublishAllKeys(s, init, ttl);
      assert TopicsOf(ps) == TopicsOf(init) + {ps[|ps| - 1].0};
    }
  }

  /** Publishing caches every published topic, with a close job exactly
      when `ttl` is not negative; a topic already cached keeps its
      publisher, and one not published keeps its entry; nothing is closed. */
  lemma {:induction false} PublishAllCache(s: Sys, ps: seq<(string, seq<Signal>)>, ttl: int)
    ensures var s' := PublishAll(s, ps, ttl);
      && s'.cache.entries.Keys == s.cache.entries.Keys + TopicsOf(ps)
      && (forall u :: u in TopicsOf(ps) ==> (s'.cache.entries[u].job.Some? <==> ttl >= 0))
      && (forall u :: u in s.cache.entries ==> s'.cache.entries[u].pub == s.cache.entries[u].pub)
      && (forall u :: u in s.cache.entries && u !in TopicsOf(ps) ==> s'.cache.entries[u] == s.cache.entries[u])
      && s'.log.closed == s.log.closed
    decreases |ps|
  {
    if ps != [] {
      var init := ps[..|ps| - 1];
      var last := ps[|ps| - 1];
      PublishAllCache(s, init, ttl);
      var m := PublishAll(s, init, ttl);
      FetchCache(m, last.0, ttl);
      assert TopicsOf(ps) == TopicsOf(init) + {last.0};
    }
  }

  /** Publishing keeps every cached publisher one made for its topic. */
  lemma {:induction false} PublishAllPubs(s: Sys, ps: seq<(string, seq<Signal>)>, ttl: int)
    requires PubsOk(s.cache, s.log)
    ensures var s' := PublishAll(s, ps, ttl); PubsOk(s'.cache, s'.log)
    decreases |ps|
  {
    if ps != [] {
      var init := ps[..|ps| - 1];
      var last := ps[|ps| - 1];
      PublishAllPubs(s, init, ttl);
      FetchPubs(PublishAll(s, init, ttl), last.0, ttl);
    }
  }

  /** The log `after` extends `before` by one send per group of `ps`, in
      order, each holding that group's signals and going to a publisher
      created for its topic. */
  ghost predicate SentInOrder(before: Log, after: Log, ps: seq<(string, seq<Signal>)>)
  {
    && before.sent <= after.sent
    && before.created <= after.created
    && var q := after.sent[|before.sent|..];
    && |q| == |ps|
    && (forall i :: 0 <= i < |ps| ==>
          && q[i].1 == ps[i].1
          && q[i].0 < |after.created|
          && after.created[q[i].0] == ps[i].0)
  }

  /** Publishing sends each group once, in order, to a publisher made for
      its topic, after the sends already made. */
  lemma {:induction false} PublishAllSends(s: Sys, ps: seq<(string, seq<Signal>)>, ttl: int)
    requires PubsOk(s.cache, s.log)
    ensures SentInOrder(s.log, PublishAll(s, ps, ttl).log, ps)
    decreases |ps|
  {
    if ps != [] {
      var init := ps[..|ps| - 1];
      var last := ps[|ps| - 1];
      PublishAllSends(s, init, ttl);
      PublishAllPubs(s, init, ttl);
      DeliverSends(s.log, PublishAll(s, init, ttl), ps, ttl);
    }
  }

  /** One more delivery extends the sends in order by that group. */
  lemma DeliverSends(before: Log, m: Sys, ps': seq<(string, seq<Signal>)>, ttl: int)
    requires ps' != []
    requires PubsOk(m.cache, m.log)
    requires SentInOrder(before, m.log, ps'[..|ps'| - 1])
    ensures SentInOrder(before, Deliver(m, ps'[|ps'| - 1].0, ps'[|ps'| - 1].1, ttl).log, ps')
  {
    var ps, last := ps'[..|ps'| - 1], ps'[|ps'| - 1];
    FetchPub(m, last.0, ttl);
    FetchCache(m, last.0, ttl);
    var s' := Deliver(m, last.0, last.1, ttl);
    var n := |before.sent|;
    var qm := m.log.sent[n..];
    var e := (PubFor(m, last.0), last.1);
    assert s'.log.sent == m.log.sent + [e];
    assert s'.log.sent[n..] == qm + [e];
    forall i | 0 <= i < |ps'|
      ensures s'.log.sent[n..][i].1 == ps'[i].1
      ensures s'.log.sent[n..][i].0 < |s'.log.created|
      ensures s'.log.created[s'.log.sent[n..][i].0] == ps'[i].0
    {
      if i < |ps| {
        assert ps'[i] == ps[i] && s'.log.sent[n..][i] == qm[i];
        assert qm[i].0 < |m.log.created| && s'.log.created[qm[i].0] == m.log.created[qm[i].0];
      } else {
        assert ps'[i] == last && s'.log.sent[n..][i] == e;
      }
    }
  }

  /** The topics of a list of groups, in order. */
  function Names(ps: seq<(string, seq<Signal>)>): (r: seq<string>)
    ensures |r| == |ps| && forall i :: 0 <= i < |ps| ==> r[i] == ps[i].0
  {
    if ps == [] then [] else Names(ps[..|ps| - 1]) + [ps[|ps| - 1].0]
  }

  /** The sends of a list of groups to publishers numbered from `first`. */
  function Numbered(ps: seq<(string, seq<Signal>)>, first: nat): (r: seq<(PubRef, seq<Signal>)>)
    ensures |r| == |ps| && forall i :: 0 <= i < |ps| ==> r[i] == (first + i, ps[i].1)
  {
    if ps == [] then [] else Numbered(ps[..|ps| - 1], first) + [(first + |ps| - 1, ps[|ps| - 1].1)]
  }

  /** Publishing groups whose topics are distinct and not cached creates
      one publisher per group, in order, and sends each group to its own. */
  lemma {:induction false} PublishAllFresh(s: Sys, ps: seq<(string, seq<Signal>)>, ttl: int)
    requires DistinctTopics(ps)
    requires forall i :: 0 <= i < |ps| ==> ps[i].0 !in s.cache.entries
    ensures var s' := PublishAll(s, ps, ttl);
      && s'.log.created == s.log.created + Names(ps)
      && s'.log.sent == s.log.sent + Numbered(ps, |s.log.created|)
    decreases |ps|
  {
    if ps != [] {
      var init := ps[..|ps| - 1];
      FreshInit(s.cache, ps, init);
      PublishAllFresh(s, init, ttl);
      FreshLast(s, ps, ttl);
      FreshStep(s, ps, ttl);
      var m, s' := PublishAll(s, init, ttl), PublishAll(s, ps, ttl);
      FreshAppend(s.log, m.log, s'.log, ps);
    }
  }

  /** The groups before the last one are distinct and not cached either. */
  lemma FreshInit(c: Cache, ps: seq<(string, seq<Signal>)>, init: seq<(string, seq<Signal>)>)
    requires ps != [] && init == ps[..|ps| - 1] && DistinctTopics(ps)
    requires forall i :: 0 <= i < |ps| ==> ps[i].0 !in c.entries
    ensures DistinctTopics(init)
    ensures forall i :: 0 <= i < |init| ==> init[i].0 !in c.entries
  {
    assert forall i :: 0 <= i < |init| ==> init[i] == ps[i];
  }

  /** The last topic is not cached by the sends before it. */
  lemma FreshLast(s: Sys, ps: seq<(string, seq<Signal>)>, ttl: int)
    requires ps != [] && DistinctTopics(ps)
    requires ps[|ps| - 1].0 !in s.cache.entries
    ensures ps[|ps| - 1].0 !in PublishAll(s, ps[..|ps| - 1], ttl).cache.entries
  {
    var init := ps[..|ps| - 1];
    PublishAllKeys(s, init, ttl);
    assert forall i :: 0 <= i < |init| ==> init[i].0 != ps[|ps| - 1].0;
  }

  /** The created publishers and the sends, one group further. */
  lemma FreshAppend(l0: Log, lm: Log, l': Log, ps: seq<(string, seq<Signal>)>)
    requires ps != []
    requires lm.created == l0.created + Names(ps[..|ps| - 1])
    requires lm.sent == l0.sent + Numbered(ps[..|ps| - 1], |l0.created|)
    requires l'.created == lm.created + [ps[|ps| - 1].0]
    requires l'.sent == lm.sent + [(|lm.created|, ps[|ps| - 1].1)]
    ensures l'.created == l0.created + Names(ps)
    ensures l'.sent == l0.sent + Numbered(ps, |l0.created|)
  {
    CreatedAppend(l0.created, lm.created, l'.created, ps);
    SentAppend(l0.sent, lm.sent, l'.sent, ps, |l0.created|, |lm.created|);
  }

  lemma CreatedAppend(c0: seq<string>, cm: seq<string>, c': seq<string>, ps: seq<(string, seq<Signal>)>)
    requires ps != []
    requires cm == c0 + Names(ps[..|ps| - 1])
    requires c' == cm + [ps[|ps| - 1].0]
    ensures c' == c0 + Names(ps)
    ensures |cm| == |c0| + |ps| - 1
  {
    NumberedSnoc(ps, 0);
    SnocAssoc(c0, Names(ps[..|ps| - 1]), ps[|ps| - 1].0);
  }

  lemma SentAppend(s0: seq<(PubRef, seq<Signal>)>, sm: seq<(PubRef, seq<Signal>)>, s': seq<(PubRef, seq<Signal>)>,
                   ps: seq<(string, seq<Signal>)>, n: nat, k: nat)
    requires ps != [] && k == n + |ps| - 1
    requires sm == s0 + Numbered(ps[..|ps| - 1], n)
    requires s' == sm + [(k, ps[|ps| - 1].1)]
    ensures s' == s0 + Numbered(ps, n)
  {
    NumberedSnoc(ps, n);
    SnocAssoc(s0, Numbered(ps[..|ps| - 1], n), (k, ps[|ps| - 1].1));
  }

  /** The last send of a batch on a topic not cached by the sends before
      it: its publisher is created next and receives the send. */
  lemma FreshStep(s: Sys, ps: seq<(string, seq<Signal>)>, ttl: int)
    requires ps != [] && ps[|ps| - 1].0 !in PublishAll(s, ps[..|ps| - 1], ttl).cache.entries
    ensures var m, s' := PublishAll(s, ps[..|ps| - 1], ttl), PublishAll(s, ps, ttl);
      && s'.log.created == m.log.created + [ps[|ps| - 1].0]
      && s'.log.sent == m.log.sent + [(|m.log.created|, ps[|ps| - 1].1)]
  {
  }

  lemma NumberedSnoc(ps: seq<(string, seq<Signal>)>, n: nat)
    requires ps != []
    ensures Names(ps) == Names(ps[..|ps| - 1]) + [ps[|ps| - 1].0]
    ensures Numbered(ps, n) == Numbered(ps[..|ps| - 1], n) + [(n + |ps| - 1, ps[|ps| - 1].1)]
  {
  }

  lemma SnocAssoc<T>(a: seq<T>, b: seq<T>, x: T)
    ensures (a + b) + [x] == a + (b + [x])
  {
  }

  /** What `process_signals` sends from a non-local publisher: one send
      per distinct topic of the signals whose topic evaluates, in the order
      the topics first occur, each holding that topic's signals in order
      and going to a publisher made for that topic. */
  lemma PublishedGroups(s: Sys, topic: Signal -> Eval<string>, signals: seq<Signal>, ttl: int,
                        encode: seq<Signal> -> Eval<Value>)
    requires Valid(s)
    ensures var kept := Kept(topic, signals);
      var key := TopicKey(topic, false, None);
      var d := GroupBy(kept, key);
      var s' := PublishAll(s, Payloads(false, encode, d), ttl);
      && s.log.sent <= s'.log.sent
      && var q := s'.log.sent[|s.log.sent|..];
      && |q| == |d| == |FirstKeys(kept, key)|
      && (forall i, j :: 0 <= i < j < |d| ==> d[i].0 != d[j].0)
      && (forall i :: 0 <= i < |d| ==>
            && d[i].0 == FirstKeys(kept, key)[i]
            && q[i].1 == Where(kept, key, d[i].0)
            && q[i].0 < |s'.log.created| && s'.log.created[q[i].0] == d[i].0)
  {
    var kept := Kept(topic, signals);
    var key := TopicKey(topic, false, None);
    var d := GroupBy(kept, key);
    GroupByBuckets(kept, key);
    PayloadsPlain(encode, d);
    PublishAllSends(s, d, ttl);
    forall i | 0 <= i < |d|
      ensures d[i].1 == Where(kept, key, d[i].0)
    {
      LookupAt(d, i);
    }
  }

  /** `dict.pop(topic)` on the insertion order. */
  function Without(order: seq<string>, t: string): (r: seq<string>)
    ensures forall u :: u in r <==> u in order && u != t
  {
    if order == [] then []
    else (if order[0] == t then [] else [order[0]]) + Without(order[1..], t)
  }

  /** No topic listed twice. */
  ghost predicate Distinct(xs: seq<string>)
  {
    forall i, j :: 0 <= i < j < |xs| ==> xs[i] != xs[j]
  }

  /** Popping a topic lists no topic twice. */
  lemma {:induction false} WithoutDistinct(order: seq<string>, t: string)
    requires Distinct(order)
    ensures Distinct(Without(order, t))
    decreases |order|
  {
    if order != [] {
      var rest := order[1..];
      assert Distinct(rest) by {
        forall i, j | 0 <= i < j < |rest|
          ensures rest[i] != rest[j]
        {
          assert rest[i] == order[i + 1] && rest[j] == order[j + 1];
        }
      }
      WithoutDistinct(rest, t);
      assert order[0] !in rest;
      var r, tail := Without(order, t), Without(rest, t);
      if order[0] == t {
        assert r == tail;
      } else {
        assert r == [order[0]] + tail;
        forall i, j | 0 <= i < j < |r|
          ensures r[i] != r[j]
        {
          assert r[j] == tail[j - 1] && tail[j - 1] in tail;
          if i > 0 {
            assert r[i] == tail[i - 1];
          }
        }
      }
    }
  }

  /** `__close_publisher`: the topic leaves the cache and its publisher is
      closed; a topic not cached raises (KeyError). */
  function Close(s: Sys, t: string): (r: Eval<Sys>)
    ensures r.Val? <==> t in s.cache.entries
    ensures r.Val? ==>
      && r.value.cache.entries == s.cache.entries - {t}
      && r.value.log == s.log.(closed := s.log.closed + [s.cache.entries[t].pub])
  {
    if t !in s.cache.entries then Fails
    else
      Val(Sys(Cache(Without(s.cache.order, t), s.cache.entries - {t}),
              s.log.(closed := s.log.closed + [s.cache.entries[t].pub])))
  }

  /** Closing keeps the cache consistent with the log. */
  lemma CloseValid(s: Sys, t: string)
    requires Valid(s) && t in s.cache.entries
    ensures Valid(Close(s, t).value)
  {
    var s' := Close(s, t).value;
    WithoutDistinct(s.cache.order, t);
    assert OrderOk(s'.cache);
    ClosePubs(s, t);
    assert JobsOk(s'.cache, s'.log) by {
      assert forall u :: u in s'.cache.entries ==> s'.cache.entries[u] == s.cache.entries[u];
    }
  }

  lemma ClosePubs(s: Sys, t: string)
    requires PubsOk(s.cache, s.log) && t in s.cache.entries
    ensures var s' := Close(s, t).value; PubsOk(s'.cache, s'.log)
  {
    var s' := Close(s, t).value;
    forall u | u in s'.cache.entries
      ensures s'.cache.entries[u].pub !in s'.log.closed
    {
      assert s.log.created[s.cache.entries[u].pub] != s.log.created[s.cache.entries[t].pub];
      assert s'.log.closed == s.log.closed + [s.cache.entries[t].pub];
    }
  }

  /** The publishers of the topics `ts`, in order. */
  function PubsOf(entries: map<string, Entry>, ts: seq<string>): (r: seq<PubRef>)
    ensures (forall t :: t in ts ==> t in entries) ==>
              |r| == |ts| && forall i :: 0 <= i < |ts| ==> r[i] == entries[ts[i]].pub
  {
    if ts == [] then []
    else PubsOf(entries, ts[..|ts| - 1]) + (if ts[|ts| - 1] in entries then [entries[ts[|ts| - 1]].pub] else [])
  }

  /** The pending close jobs of the topics `ts`, in order. */
  function JobsOf(entries: map<string, Entry>, ts: seq<string>): seq<JobRef>
  {
    if ts == [] then []
    else
      var t := ts[|ts| - 1];
      JobsOf(entries, ts[..|ts| - 1]) + (if t in entries && entries[t].job.Some? then [entries[t].job.value] else [])
  }

  /** The closes and cancels of `stop`, one topic further. */
  lemma StopSnoc(entries: map<string, Entry>, order: seq<string>, i: int, closed: seq<PubRef>, cancelled: seq<JobRef>)
    requires 0 <= i < |order|
    ensures var t := order[i];
      && closed + PubsOf(entries, order[..i + 1]) ==
           (closed + PubsOf(entries, order[..i])) + (if t in entries then [entries[t].pub] else [])
      && cancelled + JobsOf(entries, order[..i + 1]) ==
           (cancelled + JobsOf(entries, order[..i])) + (if t in entries && entries[t].job.Some? then [entries[t].job.value] else [])
  {
    assert order[..i + 1][..i] == order[..i];
  }

  /** `stop`: every pending close job cancelled and every cached publisher
      closed, in cache order, then the cache emptied. */
  function StopAll(s: Sys): Sys
  {
    Sys(Cache([], map[]),
        s.log.(closed := s.log.closed + PubsOf(s.cache.entries, s.cache.order),
               cancelled := s.log.cancelled + JobsOf(s.cache.entries, s.cache.order)))
  }

  /** The jobs cancelled are exactly the cached ones. */
  lemma {:induction false} JobsOfMeaning(entries: map<string, Entry>, ts: seq<string>)
    ensures forall j :: j in JobsOf(entries, ts) <==>
              exists i :: 0 <= i < |ts| && ts[i] in entries && entries[ts[i]].job == Some(j)
    decreases |ts|
  {
    if ts != [] {
      var init := ts[..|ts| - 1];
      JobsOfMeaning(entries, init);
      forall j | j in JobsOf(entries, ts)
        ensures exists i :: 0 <= i < |ts| && ts[i] in entries && entries[ts[i]].job == Some(j)
      {
        if j in JobsOf(entries, init) {
          var i :| 0 <= i < |init| && init[i] in entries && entries[init[i]].job == Some(j);
          assert ts[i] == init[i];
        } else {
          assert ts[|ts| - 1] in entries && entries[ts[|ts| - 1]].job == Some(j);
        }
      }
      forall j, i | 0 <= i < |ts| && ts[i] in entries && entries[ts[i]].job == Some(j)
        ensures j in JobsOf(entries, ts)
      {
        if i < |init| {
          assert init[i] == ts[i];
        }
      }
    }
  }

  /** Stopping leaves an empty cache that agrees with the log. */
  lemma StopValid(s: Sys)
    requires Valid(s)
    ensures Valid(StopAll(s))
  {
    var c, l := s.cache, s.log;
    var closing := PubsOf(c.entries, c.order);
    assert forall p :: p in closing ==> p < |l.created| by {
      forall p | p in closing
        ensures p < |l.created|
      {
        var i :| 0 <= i < |closing| && closing[i] == p;
        assert c.order[i] in c.entries;
      }
    }
    JobsOfMeaning(c.entries, c.order);
    forall j | j in JobsOf(c.entries, c.order)
      ensures j < |l.scheduled|
    {
      var i :| 0 <= i < |c.order| && c.order[i] in c.entries && c.entries[c.order[i]].job == Some(j);
    }
  }

  /** Stopping closes each cached publisher exactly once. */
  lemma StopCloses(s: Sys)
    requires Valid(s)
    ensures var s' := StopAll(s);
      && s'.cache.entries == map[]
      && var closing := s'.log.closed[|s.log.closed|..];
      && (forall i, j :: 0 <= i < j < |closing| ==> closing[i] != closing[j])
      && (forall p :: p in closing <==> exists t :: t in s.cache.entries && s.cache.entries[t].pub == p)
  {
    var c, l := s.cache, s.log;
    var s' := StopAll(s);
    var closing := PubsOf(c.entries, c.order);
    assert s'.log.closed[|l.closed|..] == closing;
    forall i, j | 0 <= i < j < |closing|
      ensures closing[i] != closing[j]
    {
      assert l.created[closing[i]] == c.order[i];
    }
    forall p | p in closing
      ensures exists t :: t in c.entries && c.entries[t].pub == p
    {
      var i :| 0 <= i < |closing| && closing[i] == p;
      assert c.order[i] in c.entries;
    }
    forall t | t in c.entries
      ensures c.entries[t].pub in closing
    {
      var i :| 0 <= i < |c.order| && c.order[i] == t;
      assert closing[i] == c.entries[t].pub;
    }
  }

  /** Stopping cancels exactly the pending close jobs. */
  lemma StopCancels(s: Sys)
    requires Valid(s)
    ensures var s' := StopAll(s);
      forall j :: j in s'.log.cancelled[|s.log.cancelled|..] <==>
        exists t :: t in s.cache.entries && s.cache.entries[t].job == Some(j)
  {
    var c, l := s.cache, s.log;
    var s' := StopAll(s);
    assert s'.log.cancelled[|l.cancelled|..] == JobsOf(c.entries, c.order);
    JobsOfMeaning(c.entries, c.order);
    forall j, t | t in c.entries && c.entries[t].job == Some(j)
      ensures j in JobsOf(c.entries, c.order)
    {
      var i :| 0 <= i < |c.order| && c.order[i] == t;
    }
  }

  class DynamicPublisher {
    /** `topic`, evaluated against each signal. */
    const topic: Signal -> Eval<string>
    /** `ttl`, in ticks; negative means publishers never expire. */
    const ttl: int
    /** `_is_local`. */
    var isLocal: bool
    /** `_local_id`. */
    var localId: Option<string>
    /** `_cache`. */
    var cache: Cache
    /** The world's record of the block's requests. */
    var log: Log

    function Now(): Sys
      reads this
    {
      Sys(cache, log)
    }

    constructor (topic: Signal -> Eval<string>, ttl: int)
      ensures this.topic == topic && this.ttl == ttl
      ensures !isLocal && localId == None && Now() == Idle
    {
      this.topic := topic;
      this.ttl := ttl;
      isLocal := false;
      localId := None;
      cache := Cache([], map[]);
      log := Log([], [], [], [], []);
    }

    /** `configure`: the local identifier is read only for a local
        publisher. */
    method Configure(local: bool, localIdentifier: string)
      modifies this`isLocal, this`localId
      ensures isLocal == local
      ensures localId == if local then Some(localIdentifier) else old(localId)
    {
      isLocal := local;
      if local {
        localId := Some(localIdentifier);
      }
    }

    /** The first loop of `process_signals`: the signals grouped by full
        topic, skipping those whose topic fails. */
    method Partition(signals: seq<Signal>) returns (d: seq<(string, seq<Signal>)>)
      ensures d == GroupBy(Kept(topic, signals), TopicKey(topic, isLocal, localId))
    {
      var key := TopicKey(topic, isLocal, localId);
      d := [];
      var i := 0;
      while i < |signals|
        invariant 0 <= i <= |signals|
        invariant d == GroupBy(Kept(topic, signals[..i]), key)
      {
        var t := topic(signals[i]);
        assert signals[..i + 1][..i] == signals[..i];
        ghost var xs := Kept(topic, signals[..i]);
        if t.Val? {
          var full := FullTopic(isLocal, localId, t.value);
          assert Kept(topic, signals[..i + 1]) == xs + [signals[i]];
          assert (xs + [signals[i]])[..|xs|] == xs;
          assert key(signals[i]) == full;
          d := AppendTo(d, full, signals[i]);
        } else {
          assert Kept(topic, signals[..i + 1]) == xs;
        }
        i := i + 1;
      }
      assert signals[..i] == signals;
    }

    /** `__get_publisher`. */
    method GetPublisher(t: string) returns (p: PubRef)
      modifies this`cache, this`log
      ensures Now() == Fetch(old(Now()), t, ttl) && p == PubFor(old(Now()), t)
    {
      if t !in cache.entries {
        cache := Cache(cache.order + [t], cache.entries[t := Entry(|log.created|, None)]);
        log := log.(created := log.created + [t]);
      }
      var entry := cache.entries[t];
      if entry.job.Some? {
        log := log.(cancelled := log.cancelled + [entry.job.value]);
      }
      var job: Option<JobRef> := None;
      if ttl >= 0 {
        job := Some(|log.scheduled|);
        log := log.(scheduled := log.scheduled + [(t, ttl)]);
      }
      cache := cache.(entries := cache.entries[t := Entry(entry.pub, job)]);
      p := entry.pub;
    }

    /** One pass of the second loop of `process_signals`: the group's
        payload, when it can be made, sent to the topic's publisher. */
    method PublishGroup(t: string, group: seq<Signal>, encode: seq<Signal> -> Eval<Value>)
      modifies this`cache, this`log
      ensures var out := Payload(isLocal, encode, group);
        Now() == if out.Val? then Deliver(old(Now()), t, out.value, ttl) else old(Now())
    {
      var out := Payload(isLocal, encode, group);
      if out.Val? {
        var p := GetPublisher(t);
        log := log.(sent := log.sent + [(p, out.value)]);
      }
    }

    /** `process_signals`: each group of signals goes once to its topic's
        publisher; `encode` stands for the pickling of a local publisher. */
    method ProcessSignals(signals: seq<Signal>, encode: seq<Signal> -> Eval<Value>)
      modifies this`cache, this`log
      ensures Now() == PublishAll(old(Now()), Payloads(isLocal, encode,
                        GroupBy(Kept(topic, signals), TopicKey(topic, isLocal, localId))), ttl)
    {
      var d := Partition(signals);
      PublishGroups(d, encode);
    }

    /** The second loop of `process_signals`, over the groups `d`. */
    method PublishGroups(d: seq<(string, seq<Signal>)>, encode: seq<Signal> -> Eval<Value>)
      modifies this`cache, this`log
      ensures Now() == PublishAll(old(Now()), Payloads(isLocal, encode, d), ttl)
    {
      ghost var s0 := Now();
      var i := 0;
      while i < |d|
        invariant 0 <= i <= |d|
        invariant Now() == PublishAll(s0, Payloads(isLocal, encode, d[..i]), ttl)
      {
        PublishNext(d, i, encode, s0);
        i := i + 1;
      }
      assert d[..i] == d;
    }

    /** Publishing the group `d[i]` after those before it. */
    method PublishNext(d: seq<(string, seq<Signal>)>, i: int, encode: seq<Signal> -> Eval<Value>, ghost s0: Sys)
      requires 0 <= i < |d|
      requires Now() == PublishAll(s0, Payloads(isLocal, encode, d[..i]), ttl)
      modifies this`cache, this`log
      ensures Now() == PublishAll(s0, Payloads(isLocal, encode, d[..i + 1]), ttl)
    {
      PublishPrefixStep(s0, isLocal, encode, d, i, ttl);
      PublishGroup(d[i].0, d[i].1, encode);
    }

    /** `__close_publisher`, the callback of a close job. */
    method ClosePublisher(t: string) returns (ok: bool)
      modifies this`cache, this`log
      ensures ok == Close(old(Now()), t).Val?
      ensures ok ==> Now() == Close(old(Now()), t).value
      ensures !ok ==> Now() == old(Now())
    {
      if t !in cache.entries {
        return false;
      }
      var p := cache.entries[t].pub;
      cache := Cache(Without(cache.order, t), cache.entries - {t});
      log := log.(closed := log.closed + [p]);
      ok := true;
    }

    /** `stop`. */
    method Stop()
      modifies this`cache, this`log
      ensures Now() == StopAll(old(Now()))
    {
      ghost var l0 := log;
      var c := cache;
      var i := 0;
      while i < |c.order|
        invariant 0 <= i <= |c.order| && cache == c
        invariant log == l0.(closed := l0.closed + PubsOf(c.entries, c.order[..i]),
                             cancelled := l0.cancelled + JobsOf(c.entries, c.order[..i]))
      {
        CloseOne(c, i, l0);
        i := i + 1;
      }
      assert c.order[..i] == c.order;
      cache := Cache([], map[]);
    }

    /** One pass of the loop of `stop`, over the topic `c.order[i]`: its
        close job cancelled when it has one, then its publisher closed. */
    method CloseOne(c: Cache, i: int, ghost l0: Log)
      requires 0 <= i < |c.order|
      requires log == l0.(closed := l0.closed + PubsOf(c.entries, c.order[..i]),
                          cancelled := l0.cancelled + JobsOf(c.entries, c.order[..i]))
      modifies this`log
      ensures log == l0.(closed := l0.closed + PubsOf(c.entries, c.order[..i + 1]),
                         cancelled := l0.cancelled + JobsOf(c.entries, c.order[..i + 1]))
    {
      var t := c.order[i];
      StopSnoc(c.entries, c.order, i, l0.closed, l0.cancelled);
      if t in c.entries {
        var entry := c.entries[t];
        if entry.job.Some? {
          log := log.(cancelled := log.cancelled + [entry.job.value]);
        }
        log := log.(closed := log.closed + [entry.pub]);
      }
    }
  }
}
