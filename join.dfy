/** `Join`: folds each group's signals into one signal, with an attribute
    per evaluated key holding the list of the matching values (or, with
    `one_value`, the last one). */
module JoinBlock {
  import opened Signals

  datatype Config = Config(key: Signal -> Eval<Option<string>>, value: Expr, oneValue: bool)

  /** Whether every signal's key and value evaluate. */
  predicate Evaluates(c: Config, signals: seq<Signal>)
  {
    forall i :: 0 <= i < |signals| ==> c.key(signals[i]).Val? && c.value(signals[i]).Val?
  }

  /** The values of the signals whose key is `k`, in order. */
  function Collected(c: Config, signals: seq<Signal>, k: string): seq<Value>
    requires Evaluates(c, signals)
  {
    if signals == [] then []
    else
      var s := signals[|signals| - 1];
      Collected(c, signals[..|signals| - 1], k)
      + (if c.key(s).value == Some(k) then [c.value(s).value] else [])
  }

  /** `hash_dict` after the loop of `_perform_hash`: signals whose key is
      None are skipped; in list mode a key's value is appended to its
      list, in one-value mode it replaces the previous one. */
  function Hash(c: Config, signals: seq<Signal>): Signal
    requires Evaluates(c, signals)
  {
    if signals == [] then map[]
    else
      var h := Hash(c, signals[..|signals| - 1]);
      var s := signals[|signals| - 1];
      var k := c.key(s).value;
      if k.None? then h
      else if c.oneValue then h[k.value := c.value(s).value]
      else h[k.value := VList((if k.value in h && h[k.value].VList? then h[k.value].items else []) + [c.value(s).value])]
  }

  /** A key is in the hash iff some signal has it; its entry is the list
      of the matching values in input order, or with `one_value` the last
      of them. */
  lemma {:induction false} HashMeaning(c: Config, signals: seq<Signal>, k: string)
    requires Evaluates(c, signals)
    ensures var h := Hash(c, signals); var vs := Collected(c, signals, k);
      && (k in h <==> vs != [])
      && (k in h && !c.oneValue ==> h[k] == VList(vs))
      && (k in h && c.oneValue ==> h[k] == vs[|vs| - 1])
    decreases |signals|
  {
    if signals != [] {
      HashMeaning(c, signals[..|signals| - 1], k);
    }
  }

  class Join {
    const config: Config
    /** `group_attr`. */
    const groupAttr: string
    /** `get_output_signal` of the framework's signal enrichment: the
        output built from the hash and the group's last signal. */
    const enrich: (Signal, Signal) -> Signal

    constructor (config: Config, groupAttr: string, enrich: (Signal, Signal) -> Signal)
      ensures this.config == config && this.groupAttr == groupAttr && this.enrich == enrich
    {
      this.config := config;
      this.groupAttr := groupAttr;
      this.enrich := enrich;
    }

    /** `_perform_hash`: the hash of the signals, enriched, or nothing when
        no signal had a key; a key or value that fails to evaluate
        raises. */
    method PerformHash(signals: seq<Signal>) returns (r: Eval<Option<Signal>>)
      ensures r.Val? <==> Evaluates(config, signals)
      ensures r.Val? ==>
        r.value == if Hash(config, signals) == map[] then None
                   else Some(enrich(Hash(config, signals), signals[|signals| - 1]))
    {
      var h: Signal := map[];
      var i := 0;
      while i < |signals|
        invariant 0 <= i <= |signals|
        invariant Evaluates(config, signals[..i])
        invariant h == Hash(config, signals[..i])
      {
        assert signals[..i + 1][..i] == signals[..i];
        var k := config.key(signals[i]);
        var v := config.value(signals[i]);
        if k.Fails? || v.Fails? {
          assert !Evaluates(config, signals) by {
            assert signals[i] == signals[i];
          }
          return Fails;
        }
        if k.value.Some? {
          if config.oneValue {
            h := h[k.value.value := v.value];
          } else {
            var old_list := if k.value.value in h && h[k.value.value].VList? then h[k.value.value].items else [];
            h := h[k.value.value := VList(old_list + [v.value])];
          }
        }
        i := i + 1;
      }
      assert signals[..i] == signals;
      if |h| > 0 {
        r := Val(Some(enrich(h, signals[|signals| - 1])));
      } else {
        r := Val(None);
      }
    }

    /** The output of one group, if it has one. */
    function Output(group: Value, signals: seq<Signal>): Option<Signal>
      requires Evaluates(config, signals)
    {
      if Hash(config, signals) == map[] then None
      else Some(enrich(Hash(config, signals), signals[|signals| - 1])[groupAttr := group])
    }

    /** `_get_hash_from_group`: the group's output, with the group under
        `group_attr`. */
    method GetHashFromGroup(signals: seq<Signal>, group: Value) returns (r: Eval<Option<Signal>>)
      ensures r.Val? <==> Evaluates(config, signals)
      ensures r.Val? ==> r.value == Output(group, signals)
    {
      r := PerformHash(signals);
      if r.Val? && r.value.Some? {
        r := Val(Some(r.value.value[groupAttr := group]));
      }
    }

    /** The outputs of the groups that have one, in group order. */
    function Outputs(groups: seq<(Value, seq<Signal>)>): seq<Signal>
      requires forall i :: 0 <= i < |groups| ==> Evaluates(config, groups[i].1)
    {
      if groups == [] then []
      else
        var o := Output(groups[|groups| - 1].0, groups[|groups| - 1].1);
        Outputs(groups[..|groups| - 1]) + (if o.Some? then [o.value] else [])
    }

    /** At most one output per group; every group with a key has its
        output in the list, and with no keys anywhere nothing is listed. */
    lemma OutputsMeaning(groups: seq<(Value, seq<Signal>)>)
      requires forall i :: 0 <= i < |groups| ==> Evaluates(config, groups[i].1)
      ensures |Outputs(groups)| <= |groups|
      ensures forall i :: 0 <= i < |groups| && Output(groups[i].0, groups[i].1).Some? ==>
                Output(groups[i].0, groups[i].1).value in Outputs(groups)
      ensures (forall i :: 0 <= i < |groups| ==> Output(groups[i].0, groups[i].1).None?) ==> Outputs(groups) == []
    {
      OutputsLength(groups);
      forall i | 0 <= i < |groups| && Output(groups[i].0, groups[i].1).Some?
        ensures Output(groups[i].0, groups[i].1).value in Outputs(groups)
      {
        OutputsHas(groups, i);
      }
      if forall i :: 0 <= i < |groups| ==> Output(groups[i].0, groups[i].1).None? {
        OutputsNone(groups);
      }
    }

    lemma {:induction false} OutputsLength(groups: seq<(Value, seq<Signal>)>)
      requires forall i :: 0 <= i < |groups| ==> Evaluates(config, groups[i].1)
      ensures |Outputs(groups)| <= |groups|
      decreases |groups|
    {
      if groups != [] {
        OutputsLength(groups[..|groups| - 1]);
      }
    }

    lemma {:induction false} OutputsHas(groups: seq<(Value, seq<Signal>)>, i: int)
      requires forall i :: 0 <= i < |groups| ==> Evaluates(config, groups[i].1)
      requires 0 <= i < |groups| && Output(groups[i].0, groups[i].1).Some?
      ensures Output(groups[i].0, groups[i].1).value in Outputs(groups)
      decreases |groups|
    {
      var init := groups[..|groups| - 1];
      if i < |init| {
        assert init[i] == groups[i];
        OutputsHas(init, i);
      }
    }

    lemma {:induction false} OutputsNone(groups: seq<(Value, seq<Signal>)>)
      requires forall i :: 0 <= i < |groups| ==> Evaluates(config, groups[i].1)
      requires forall i :: 0 <= i < |groups| ==> Output(groups[i].0, groups[i].1).None?
      ensures Outputs(groups) == []
      decreases |groups|
    {
      if groups != [] {
        var init := groups[..|groups| - 1];
        assert forall i :: 0 <= i < |init| ==> init[i] == groups[i];
        OutputsNone(init);
      }
    }

    /** `process_signals` over the groups the framework formed: the
        outputs notified as one list; a failing group raises and nothing
        is notified. */
    method ProcessSignals(groups: seq<(Value, seq<Signal>)>) returns (ok: bool, sent: seq<Notification>)
      ensures ok <==> forall i :: 0 <= i < |groups| ==> Evaluates(config, groups[i].1)
      ensures !ok ==> sent == []
      ensures ok ==> sent == [Notify(Outputs(groups), None)]
    {
      var out := [];
      var i := 0;
      while i < |groups|
        invariant 0 <= i <= |groups|
        invariant forall j :: 0 <= j < i ==> Evaluates(config, groups[j].1)
        invariant out == Outputs(groups[..i])
      {
        assert groups[..i + 1][..i] == groups[..i];
        var r := GetHashFromGroup(groups[i].1, groups[i].0);
        if r.Fails? {
          return false, [];
        }
        if r.value.Some? {
          out := out + [r.value.value];
        }
        i := i + 1;
      }
      assert groups[..i] == groups;
      ok, sent := true, [Notify(out, None)];
    }
  }
}
