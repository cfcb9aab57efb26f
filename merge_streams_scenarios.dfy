/** The merge-streams tests, as call sequences on one block: every batch is
    one signal for the group `None`, and the expiration job, where it
    fires, fires between the first two batches. */
module MergeStreamsScenarios {
  import opened Signals
  import opened MergeStreamsBlock

  function Sig(key: string, value: string): Signal
  {
    map[key := VStr(value)]
  }

  function Pair(k1: string, v1: string, k2: string, v2: string): Signal
  {
    map[k1 := VStr(v1), k2 := VStr(v2)]
  }

  /** Merging two one-attribute signals with different plain names keeps
      both attributes. */
  lemma MergeOfSingles(k1: string, v1: string, k2: string, v2: string)
    requires !Hidden(k1) && !Hidden(k2)
    ensures Merge(Sig(k1, v1), Sig(k2, v2)) == Pair(k1, v1, k2, v2)
  {
    ToDictPlain(Sig(k1, v1));
    StripPlain(Sig(k1, v1));
    ToDictPlain(Sig(k2, v2));
    StripPlain(Sig(k2, v2));
  }

  /** A signal that leaves a slot empty is only stored. */
  lemma ArriveWaits(s: Slots, input: Input, x: Signal, notifyOnce: bool)
    requires Put(s, input, Some(x)).input1.None? || Put(s, input, Some(x)).input2.None?
    ensures Arrive(Batch(s, []), input, x, notifyOnce) == Batch(Put(s, input, Some(x)), [])
  {
  }

  /** A signal that fills both slots with one-attribute signals emits
      their merge. */
  lemma ArriveFills(s: Slots, input: Input, x: Signal, notifyOnce: bool,
                    k1: string, v1: string, k2: string, v2: string)
    requires !Hidden(k1) && !Hidden(k2)
    requires Put(s, input, Some(x)) == Slots(Some(Sig(k1, v1)), Some(Sig(k2, v2)))
    ensures Arrive(Batch(s, []), input, x, notifyOnce) ==
            Batch(if notifyOnce then Empty else Put(s, input, Some(x)), [Pair(k1, v1, k2, v2)])
  {
    MergeOfSingles(k1, v1, k2, v2);
  }

  /** One signal `x` on `input`, for the group `None`. */
  method Send(blk: MergeStreams, x: Signal, input: Input) returns (out: seq<Signal>)
    modifies blk`slots, blk`jobs, blk`scheduled, blk`cancelled
    ensures var b := Arrive(Batch(old(blk.SlotsOf(VNone)), []), input, x, blk.notifyOnce);
      out == b.out && blk.SlotsOf(VNone) == b.slots
  {
    assert [x][..0] == [];
    out := blk.ProcessGroupSignals([x], VNone, input);
  }

  /** Without expiration and with `notifyOnce`: two merges. */
  method NotifyOnce() returns (out: seq<Signal>)
    ensures out == [Pair("A", "a", "B", "b"), Pair("D", "d", "E", "e")]
  {
    var blk := new MergeStreams(true, 0);
    MergeOfSingles("A", "a", "B", "b");
    MergeOfSingles("D", "d", "E", "e");
    var o1 := Send(blk, Sig("A", "a"), Input1);
    assert blk.SlotsOf(VNone) == Slots(Some(Sig("A", "a")), None);
    var o2 := Send(blk, Sig("B", "b"), Input2);
    assert blk.SlotsOf(VNone) == Empty;
    var o3 := Send(blk, Sig("C", "c"), Input1);
    assert blk.SlotsOf(VNone) == Slots(Some(Sig("C", "c")), None);
    var o4 := Send(blk, Sig("D", "d"), Input1);
    assert blk.SlotsOf(VNone) == Slots(Some(Sig("D", "d")), None);
    var o5 := Send(blk, Sig("E", "e"), Input2);
    assert blk.SlotsOf(VNone) == Empty;
    out := o1 + o2 + o3 + o4 + o5;
  }

  /** Without expiration or `notifyOnce`: every signal after the first pair
      merges with the other input's latest signal. */
  method Persistent() returns (out: seq<Signal>)
    ensures out == [Pair("A", "a", "B", "b"), Pair("C", "c", "B", "b"),
                    Pair("D", "d", "B", "b"), Pair("D", "d", "E", "e")]
  {
    var blk := new MergeStreams(false, 0);
    ArriveWaits(Empty, Input1, Sig("A", "a"), false);
    var o1 := Send(blk, Sig("A", "a"), Input1);
    ArriveFills(blk.SlotsOf(VNone), Input2, Sig("B", "b"), false, "A", "a", "B", "b");
    var o2 := Send(blk, Sig("B", "b"), Input2);
    ArriveFills(blk.SlotsOf(VNone), Input1, Sig("C", "c"), false, "C", "c", "B", "b");
    var o3 := Send(blk, Sig("C", "c"), Input1);
    ArriveFills(blk.SlotsOf(VNone), Input1, Sig("D", "d"), false, "D", "d", "B", "b");
    var o4 := Send(blk, Sig("D", "d"), Input1);
    ArriveFills(blk.SlotsOf(VNone), Input2, Sig("E", "e"), false, "D", "d", "E", "e");
    var o5 := Send(blk, Sig("E", "e"), Input2);
    out := o1 + o2 + o3 + o4 + o5;
  }

  /** With an expiration that empties A's slot before B arrives, and with
      `notifyOnce`: A is never merged. */
  method ExpiringNotifyOnce() returns (out: seq<Signal>)
    ensures out == [Pair("C", "c", "B", "b"), Pair("D", "d", "E", "e")]
  {
    var blk := new MergeStreams(true, 100);
    MergeOfSingles("C", "c", "B", "b");
    MergeOfSingles("D", "d", "E", "e");
    var o1 := Send(blk, Sig("A", "a"), Input1);
    assert blk.SlotsOf(VNone) == Slots(Some(Sig("A", "a")), None);
    blk.Expire(VNone, Input1);
    var o2 := Send(blk, Sig("B", "b"), Input2);
    assert blk.SlotsOf(VNone) == Slots(None, Some(Sig("B", "b")));
    var o3 := Send(blk, Sig("C", "c"), Input1);
    assert blk.SlotsOf(VNone) == Empty;
    var o4 := Send(blk, Sig("D", "d"), Input1);
    assert blk.SlotsOf(VNone) == Slots(Some(Sig("D", "d")), None);
    var o5 := Send(blk, Sig("E", "e"), Input2);
    assert blk.SlotsOf(VNone) == Empty;
    out := o1 + o2 + o3 + o4 + o5;
  }

  /** With the same expiration and without `notifyOnce`: three merges. */
  method ExpiringPersistent() returns (out: seq<Signal>)
    ensures out == [Pair("C", "c", "B", "b"), Pair("D", "d", "B", "b"), Pair("D", "d", "E", "e")]
  {
    var blk := new MergeStreams(false, 100);
    ArriveWaits(Empty, Input1, Sig("A", "a"), false);
    var o1 := Send(blk, Sig("A", "a"), Input1);
    blk.Expire(VNone, Input1);
    assert blk.SlotsOf(VNone) == Empty;
    ArriveWaits(Empty, Input2, Sig("B", "b"), false);
    var o2 := Send(blk, Sig("B", "b"), Input2);
    ArriveFills(blk.SlotsOf(VNone), Input1, Sig("C", "c"), false, "C", "c", "B", "b");
    var o3 := Send(blk, Sig("C", "c"), Input1);
    ArriveFills(blk.SlotsOf(VNone), Input1, Sig("D", "d"), false, "D", "d", "B", "b");
    var o4 := Send(blk, Sig("D", "d"), Input1);
    ArriveFills(blk.SlotsOf(VNone), Input2, Sig("E", "e"), false, "D", "d", "E", "e");
    var o5 := Send(blk, Sig("E", "e"), Input2);
    out := o1 + o2 + o3 + o4 + o5;
  }

  /** Three signals on one input, each before the previous one expired:
      each new job cancels the one before, and only the last is pending. */
  method ResetExpiration() returns (cancelled: seq<JobRef>, pending: JobRef, made: nat)
    ensures cancelled == [0, 1] && pending == 2 && made == 3
  {
    var blk := new MergeStreams(false, 100);
    var o1 := blk.ProcessGroupSignals([Sig("A", "a")], VNone, Input1);
    var o2 := blk.ProcessGroupSignals([Sig("B", "b")], VNone, Input1);
    var o3 := blk.ProcessGroupSignals([Sig("C", "c")], VNone, Input1);
    cancelled, pending, made := blk.cancelled, blk.jobs[(VNone, Input1)], |blk.scheduled|;
  }

  /** The expiration job on a fresh block leaves its slot empty and no job
      pending for it. */
  method ExpireFresh() returns (slot: Option<Signal>, pending: bool)
    ensures slot == None && !pending
  {
    var blk := new MergeStreams(false, 0);
    blk.Expire(VStr("null"), Input1);
    slot, pending := blk.SlotsOf(VStr("null")).input1, (VStr("null"), Input1) in blk.jobs;
  }

  /** On a shared attribute the second input's value wins. */
  lemma DuplicateAttribute()
    ensures Merge(map["A" := VInt(1)], map["A" := VInt(2)]) == map["A" := VInt(2)]
  {
    ToDictPlain(map["A" := VInt(1)]);
    StripPlain(map["A" := VInt(1)]);
    ToDictPlain(map["A" := VInt(2)]);
    StripPlain(map["A" := VInt(2)]);
  }

  /** The merge of the two group-1 signals of the grouping test. */
  lemma GroupOneMerge()
    ensures Merge(map["A" := VStr("a"), "group" := VInt(1)], map["C" := VStr("c"), "group" := VInt(1)])
         == map["A" := VStr("a"), "C" := VStr("c"), "group" := VInt(1)]
  {
    ToDictPlain(map["A" := VStr("a"), "group" := VInt(1)]);
    StripPlain(map["A" := VStr("a"), "group" := VInt(1)]);
    ToDictPlain(map["C" := VStr("c"), "group" := VInt(1)]);
    StripPlain(map["C" := VStr("c"), "group" := VInt(1)]);
  }

  /** Groups keep separate slots: only group 1 gets both inputs. */
  method Groups() returns (out: seq<Signal>)
    ensures out == [map["A" := VStr("a"), "C" := VStr("c"), "group" := VInt(1)]]
  {
    var blk := new MergeStreams(false, 0);
    GroupOneMerge();
    var o1 := blk.ProcessGroupSignals([map["A" := VStr("a"), "group" := VInt(1)]], VInt(1), Input1);
    var o2 := blk.ProcessGroupSignals([map["B" := VStr("b"), "group" := VInt(2)]], VInt(2), Input1);
    assert o1 == [] && o2 == [];
    var o3 := blk.ProcessGroupSignals([map["C" := VStr("c"), "group" := VInt(1)]], VInt(1), Input2);
    out := o1 + o2 + o3;
  }
}
