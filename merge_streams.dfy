/** `MergeStreams`: keeps the latest signal of each group on each of two
    inputs, and notifies their merge whenever both are there. */
module MergeStreamsBlock {
  import opened Signals

  datatype Input = Input1 | Input2

  /** The two slots of one group; an empty slot is the source's `{}`. */
  datatype Slots = Slots(input1: Option<Signal>, input2: Option<Signal>)

  /** A handle on an expiration job the block scheduled. */
  type JobRef = nat

  /** A slot pair as `_default_signals_dict` creates it. */
  const Empty := Slots(None, None)

  /** Attribute names starting with `__`. */
  predicate Special(key: string)
  {
    |key| >= 2 && key[0] == '_' && key[1] == '_'
  }

  /** A signal without its special attributes. */
  function Strip(d: Signal): Signal
  {
    map k | k in d && !Special(k) :: d[k]
  }

  /** A signal without special attributes is its own stripped form. */
  lemma StripPlain(d: Signal)
    requires forall k :: k in d ==> !Special(k)
    ensures Strip(d) == d
  {
  }

  /** `_merge_signals`: the dictionaries of both signals without the
      special attributes; where both have an attribute, the second signal's
      value wins. */
  function Merge(s1: Signal, s2: Signal): Signal
  {
    Strip(ToDict(s1)) + Strip(ToDict(s2))
  }

  /** A merge holds the attributes of either signal that are not hidden
      (special attributes are hidden too), the second signal's value
      winning where both have one. */
  lemma MergeFields(s1: Signal, s2: Signal)
    ensures var m := Merge(s1, s2);
      && (forall k :: k in m <==> (k in s1 || k in s2) && !Hidden(k))
      && (forall k :: k in m && k in s2 ==> m[k] == s2[k])
      && (forall k :: k in m && k !in s2 ==> m[k] == s1[k])
  {
  }

  /** `_fix_to_dict_hidden_attr_bug`: deletes the special attributes one
      key at a time. */
  method RemoveSpecial(d: Signal) returns (r: Signal)
    ensures r == Strip(d)
  {
    r := d;
    var keys := d.Keys;
    while keys != {}
      invariant keys <= d.Keys
      invariant forall k :: k in r <==> k in d && (k in keys || !Special(k))
      invariant forall k :: k in r ==> r[k] == d[k]
      decreases keys
    {
      var k :| k in keys;
      if Special(k) {
        r := r - {k};
      }
      keys := keys - {k};
    }
  }

  /** `_merge_signals`: the dictionaries of both signals without their
      special attributes, the second one's attributes replacing the first
      one's. */
  method MergeSignals(s1: Signal, s2: Signal) returns (m: Signal)
    ensures m == Merge(s1, s2)
  {
    var d1 := RemoveSpecial(ToDict(s1));
    var d2 := RemoveSpecial(ToDict(s2));
    m := d1 + d2;
  }

  function SlotOf(s: Slots, input: Input): Option<Signal>
  {
    if input == Input1 then s.input1 else s.input2
  }

  function Put(s: Slots, input: Input, x: Option<Signal>): Slots
  {
    if input == Input1 then s.(input1 := x) else s.(input2 := x)
  }

  /** The slots of a group after some signals, and the merges emitted. */
  datatype Batch = Batch(slots: Slots, out: seq<Signal>)

  /** One signal arriving at `input`: it takes the slot; when both slots
      are full their merge is emitted, and with `notifyOnce` both slots are
      emptied. */
  function Arrive(b: Batch, input: Input, x: Signal, notifyOnce: bool): Batch
  {
    var t := Put(b.slots, input, Some(x));
    if t.input1.Some? && t.input2.Some? then
      Batch(if notifyOnce then Empty else t, b.out + [Merge(t.input1.value, t.input2.value)])
    else Batch(t, b.out)
  }

  /** A batch of signals on one input, from slots `s`. */
  function Run(s: Slots, input: Input, signals: seq<Signal>, notifyOnce: bool): Batch
  {
    if signals == [] then Batch(s, [])
    else Arrive(Run(s, input, signals[..|signals| - 1], notifyOnce), input, signals[|signals| - 1], notifyOnce)
  }

  lemma RunStep(s: Slots, input: Input, signals: seq<Signal>, i: nat, notifyOnce: bool)
    requires i < |signals|
    ensures Run(s, input, signals[..i + 1], notifyOnce)
         == Arrive(Run(s, input, signals[..i], notifyOnce), input, signals[i], notifyOnce)
  {
    assert signals[..i + 1][..i] == signals[..i];
  }

  /** With `notifyOnce`, the slots are never both full between signals:
      every merge empties them. */
  lemma {:induction false} NotifyOnceNeverBothHeld(s: Slots, input: Input, signals: seq<Signal>)
    requires !(s.input1.Some? && s.input2.Some?)
    ensures var t := Run(s, input, signals, true).slots; !(t.input1.Some? && t.input2.Some?)
    decreases |signals|
  {
    if signals != [] {
      NotifyOnceNeverBothHeld(s, input, signals[..|signals| - 1]);
    }
  }

  /** Without `notifyOnce`, once both slots are full every further signal
      emits a merge, of the newest signal with the other slot. */
  lemma {:induction false} PersistentSlotsMergeEvery(s: Slots, input: Input, signals: seq<Signal>)
    requires s.input1.Some? && s.input2.Some?
    ensures var b := Run(s, input, signals, false);
      var t := b.slots; var out := b.out;
      && |out| == |signals|
      && t.input1.Some? && t.input2.Some?
      && (input == Input1 ==> t.input2 == s.input2)
      && (input == Input2 ==> t.input1 == s.input1)
      && (signals != [] ==> SlotOf(t, input) == Some(signals[|signals| - 1]))
      && (forall i :: 0 <= i < |signals| ==>
            out[i] == if input == Input1 then Merge(signals[i], s.input2.value)
                      else Merge(s.input1.value, signals[i]))
    decreases |signals|
  {
    if signals != [] {
      var init := signals[..|signals| - 1];
      PersistentSlotsMergeEvery(s, input, init);
      assert forall i :: 0 <= i < |init| ==> init[i] == signals[i];
    }
  }

  function PersistedOf(expiration: int): (r: seq<string>)
    ensures expiration != 0 <==> r == []
    ensures expiration == 0 ==> r == ["_signals"]
  {
    if expiration != 0 then [] else ["_signals"]
  }

  class MergeStreams {
    /** `notify_once`. */
    const notifyOnce: bool
    /** `expiration`, in ticks; 0 (the empty timedelta) means none. */
    const expiration: int
    /** `_signals`: the slots of each group seen so far. */
    var slots: map<Value, Slots>
    /** `_expiration_jobs`: the pending expiration job of each slot. */
    var jobs: map<(Value, Input), JobRef>
    /** The expiration jobs created so far, with their slot and delay. */
    var scheduled: seq<(JobRef, Value, Input, int)>
    /** The expiration jobs cancelled so far. */
    var cancelled: seq<JobRef>

    constructor (notifyOnce: bool, expiration: int)
      ensures this.notifyOnce == notifyOnce && this.expiration == expiration
      ensures slots == map[] && jobs == map[] && scheduled == [] && cancelled == []
    {
      this.notifyOnce := notifyOnce;
      this.expiration := expiration;
      slots := map[];
      jobs := map[];
      scheduled := [];
      cancelled := [];
    }

    /** The slots of group `g`; an unseen group has both empty. */
    function SlotsOf(g: Value): Slots
      reads this
    {
      if g in slots then slots[g] else Empty
    }

    /** `persisted_values`: the slots are persisted only without an
        expiration. */
    function PersistedValues(): (r: seq<string>)
      ensures expiration != 0 <==> r == []
      ensures expiration == 0 ==> r == ["_signals"]
    {
      PersistedOf(expiration)
    }

    /** `process_group_signals`: the signals of group `g` on `input`, in
        order, then the expiration job for that slot. */
    method ProcessGroupSignals(signals: seq<Signal>, g: Value, input: Input) returns (merged: seq<Signal>)
      modifies this`slots, this`jobs, this`scheduled, this`cancelled
      ensures var b := Run(old(SlotsOf(g)), input, signals, notifyOnce);
        && merged == b.out
        && slots == if signals == [] then old(slots) else old(slots)[g := b.slots]
      ensures expiration == 0 ==> jobs == old(jobs) && scheduled == old(scheduled) && cancelled == old(cancelled)
      ensures expiration != 0 ==>
        && jobs == old(jobs)[(g, input) := |old(scheduled)|]
        && scheduled == old(scheduled) + [(|old(scheduled)|, g, input, expiration)]
        && cancelled == old(cancelled) + (if (g, input) in old(jobs) then [old(jobs)[(g, input)]] else [])
    {
      merged := ReceiveAll(signals, g, input);
      if expiration != 0 {
        ScheduleExpiration(g, input);
      }
    }

    /** The loop of `process_group_signals`: each signal takes its slot,
        and a merge is emitted whenever both slots are full. */
    method ReceiveAll(signals: seq<Signal>, g: Value, input: Input) returns (merged: seq<Signal>)
      modifies this`slots
      ensures var b := Run(old(SlotsOf(g)), input, signals, notifyOnce);
        && merged == b.out
        && slots == if signals == [] then old(slots) else old(slots)[g := b.slots]
    {
      ghost var s0 := SlotsOf(g);
      ghost var slots0 := slots;
      var cur := SlotsOf(g);
      merged := [];
      var i := 0;
      while i < |signals|
        invariant 0 <= i <= |signals|
        invariant slots == if i == 0 then slots0 else slots0[g := cur]
        invariant Batch(cur, merged) == Run(s0, input, signals[..i], notifyOnce)
      {
        RunStep(s0, input, signals, i, notifyOnce);
        cur, merged := ReceiveOne(cur, merged, input, signals[i]);
        slots := slots[g := cur];
        i := i + 1;
      }
      assert signals[..|signals|] == signals;
    }

    /** One pass of the loop of `process_group_signals`: the signal `x`
        takes its slot on `input`, and a merge is emitted when both slots
        are full. */
    method ReceiveOne(cur: Slots, merged: seq<Signal>, input: Input, x: Signal) returns (cur': Slots, merged': seq<Signal>)
      ensures Batch(cur', merged') == Arrive(Batch(cur, merged), input, x, notifyOnce)
    {
      cur', merged' := Put(cur, input, Some(x)), merged;
      if cur'.input1.Some? && cur'.input2.Some? {
        var m := MergeSignals(cur'.input1.value, cur'.input2.value);
        merged' := merged' + [m];
        if notifyOnce {
          cur' := Empty;
        }
      }
    }

    /** `_schedule_signal_expiration_job`: cancels the slot's pending job,
        then installs a new one, `expiration` ticks ahead. */
    method ScheduleExpiration(g: Value, input: Input)
      modifies this`jobs, this`scheduled, this`cancelled
      ensures jobs == old(jobs)[(g, input) := |old(scheduled)|]
      ensures scheduled == old(scheduled) + [(|old(scheduled)|, g, input, expiration)]
      ensures cancelled == old(cancelled) + (if (g, input) in old(jobs) then [old(jobs)[(g, input)]] else [])
    {
      if (g, input) in jobs {
        cancelled := cancelled + [jobs[(g, input)]];
      }
      var job := |scheduled|;
      scheduled := scheduled + [(job, g, input, expiration)];
      jobs := jobs[(g, input) := job];
    }

    /** `_signal_expiration_job`: empties exactly that slot and forgets its
        job. */
    method Expire(g: Value, input: Input)
      modifies this`slots, this`jobs
      ensures slots == old(slots)[g := Put(old(SlotsOf(g)), input, None)]
      ensures jobs == old(jobs) - {(g, input)}
    {
      slots := slots[g := Put(SlotsOf(g), input, None)];
      jobs := jobs - {(g, input)};
    }
  }
}
