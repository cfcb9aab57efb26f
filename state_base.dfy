/** The state kept by the state blocks (`StateBase`): one state per group,
    set from a state expression evaluated against incoming signals, and
    replaced only when it changes. */
module StateBaseBlock {
  import opened Signals

  /** A reported change of a group's state. */
  datatype Change = Change(prev: Value, next: Value)

  /** What the `current_state` command answers. */
  datatype Reply = All(entries: seq<Signal>) | One(entry: Signal) | HTTPNotFound

  /** `{"group": g, "state": s}`. */
  function Entry(g: Value, s: Value): Signal
  {
    map["group" := g, "state" := s]
  }

  /** The state of group `g`: the stored one, else the initial state. */
  function StateOf(states: map<Value, Value>, g: Value, initial: Value): Value
  {
    if g in states then states[g] else initial
  }

  /** The state after one evaluation of the state expression: a failed
      evaluation keeps the state. */
  function Step(prev: Value, e: Eval<Value>): Value
  {
    if e.Val? then e.value else prev
  }

  /** What `_process_state` reports for one evaluation. */
  function ChangeOf(prev: Value, e: Eval<Value>): Option<Change>
  {
    if e.Val? && e.value != prev then Some(Change(prev, e.value)) else None
  }

  /** The state after `f` was evaluated against each signal in order. */
  function Settle(f: Expr, prev: Value, signals: seq<Signal>): Value
  {
    if signals == [] then prev
    else Step(Settle(f, prev, signals[..|signals| - 1]), f(signals[|signals| - 1]))
  }

  /** The changes reported for a batch of signals, in order. */
  function Changes(f: Expr, prev: Value, signals: seq<Signal>): seq<Change>
  {
    if signals == [] then []
    else
      var before := signals[..|signals| - 1];
      var c := ChangeOf(Settle(f, prev, before), f(signals[|signals| - 1]));
      Changes(f, prev, before) + (if c.Some? then [c.value] else [])
  }

  /** A batch leaves the value of its last successful evaluation, or the
      state it started from when every evaluation failed. */
  lemma {:induction false} SettleIsLastSuccess(f: Expr, prev: Value, signals: seq<Signal>)
    ensures (forall i :: 0 <= i < |signals| ==> f(signals[i]).Fails?) ==> Settle(f, prev, signals) == prev
    ensures forall j :: 0 <= j < |signals| && f(signals[j]).Val? &&
                        (forall i :: j < i < |signals| ==> f(signals[i]).Fails?) ==>
              Settle(f, prev, signals) == f(signals[j]).value
    decreases |signals|
  {
    if signals != [] {
      var before := signals[..|signals| - 1];
      SettleIsLastSuccess(f, prev, before);
      forall j | 0 <= j < |signals| && f(signals[j]).Val? &&
                 (forall i :: j < i < |signals| ==> f(signals[i]).Fails?)
        ensures Settle(f, prev, signals) == f(signals[j]).value
      {
        if j < |signals| - 1 {
          assert f(signals[|signals| - 1]).Fails?;
          assert forall i :: j < i < |before| ==> before[i] == signals[i];
        }
      }
    }
  }

  /** `cs` is a chain of real changes from `first` to `last`: each starts
      where the previous ended and none is a non-change. */
  ghost predicate Chain(cs: seq<Change>, first: Value, last: Value)
  {
    && (forall i :: 0 <= i < |cs| ==> cs[i].prev != cs[i].next)
    && (forall i :: 0 < i < |cs| ==> cs[i - 1].next == cs[i].prev)
    && (cs == [] ==> last == first)
    && (cs != [] ==> cs[0].prev == first && cs[|cs| - 1].next == last)
  }

  /** The reported changes chain: each starts where the previous ended,
      none is a non-change, there are no more than signals, and the last one
      ends in the batch's final state. */
  lemma {:induction false} ChangesChain(f: Expr, prev: Value, signals: seq<Signal>)
    ensures |Changes(f, prev, signals)| <= |signals|
    ensures Chain(Changes(f, prev, signals), prev, Settle(f, prev, signals))
    decreases |signals|
  {
    if signals != [] {
      var before := signals[..|signals| - 1];
      ChangesChain(f, prev, before);
      var s := Settle(f, prev, before);
      var c := ChangeOf(s, f(signals[|signals| - 1]));
      if c.None? {
        assert Settle(f, prev, signals) == s;
        assert Changes(f, prev, signals) == Changes(f, prev, before) + [];
      } else {
        assert Settle(f, prev, signals) == c.value.next;
        ChainSnoc(Changes(f, prev, before), c.value, prev, s);
      }
    }
  }

  /** A real change from where a chain ends extends it. */
  lemma ChainSnoc(cs: seq<Change>, c: Change, first: Value, last: Value)
    requires Chain(cs, first, last)
    requires c.prev == last && c.prev != c.next
    ensures Chain(cs + [c], first, c.next)
  {
    var r := cs + [c];
    assert forall i :: 0 <= i < |cs| ==> r[i] == cs[i];
  }

  class StateBase {
    /** `state_expr`. */
    const stateExpr: Expr
    /** `_initial_state`: `initial_state` evaluated at configuration. */
    var initial: Value
    /** The groups of `_states`, in the order they were first stored. */
    var groups: seq<Value>
    /** `_states`. */
    var states: map<Value, Value>

    ghost predicate Valid()
      reads this
    {
      && (forall i, j :: 0 <= i < j < |groups| ==> groups[i] != groups[j])
      && (forall g :: g in states <==> g in groups)
    }

    constructor (stateExpr: Expr)
      ensures Valid()
      ensures this.stateExpr == stateExpr && initial == VNone
      ensures groups == [] && states == map[]
    {
      this.stateExpr := stateExpr;
      initial := VNone;
      groups := [];
      states := map[];
    }

    /** `configure`: cache the initial state. */
    method Configure(initialState: Value)
      modifies this`initial
      ensures initial == initialState
    {
      initial := initialState;
    }

    /** `get_state`: the group's state; an unseen group is given the initial
        state first. */
    method GetState(g: Value) returns (s: Value)
      requires Valid()
      modifies this`groups, this`states
      ensures Valid()
      ensures s == StateOf(old(states), g, initial)
      ensures states == old(states)[g := s]
      ensures groups == if g in old(states) then old(groups) else old(groups) + [g]
    {
      if g !in states {
        states := states[g := initial];
        groups := groups + [g];
      }
      s := states[g];
    }

    /** `_process_state`: evaluate the state expression and store the new
        state when it differs; report the change. */
    method ProcessState(signal: Signal, g: Value) returns (change: Option<Change>)
      requires Valid()
      modifies this`groups, this`states
      ensures Valid()
      ensures var prev := StateOf(old(states), g, initial);
        && change == ChangeOf(prev, stateExpr(signal))
        && states == old(states)[g := Step(prev, stateExpr(signal))]
      ensures groups == if g in old(states) then old(groups) else old(groups) + [g]
    {
      var prev := GetState(g);
      var e := stateExpr(signal);
      if e.Fails? {
        return None;
      }
      if e.value != prev {
        states := states[g := e.value];
        return Some(Change(prev, e.value));
      }
      change := None;
    }

    /** The setter path of Switch and AppendState: `_process_state` for each
        signal in order. */
    method ProcessSetterGroup(signals: seq<Signal>, g: Value)
      requires Valid()
      modifies this`groups, this`states
      ensures Valid()
      ensures signals != [] ==>
                states == old(states)[g := Settle(stateExpr, StateOf(old(states), g, initial), signals)]
      ensures signals != [] ==> groups == if g in old(states) then old(groups) else old(groups) + [g]
      ensures signals == [] ==> states == old(states) && groups == old(groups)
    {
      ghost var prev := StateOf(states, g, initial);
      ghost var s0 := states;
      ghost var g0 := groups;
      if signals == [] {
        return;
      }
      var i := 0;
      assert signals[..0] == [];
      while i < |signals|
        invariant 0 <= i <= |signals|
        invariant Valid()
        invariant i == 0 ==> states == s0 && groups == g0
        invariant i > 0 ==> states == s0[g := Settle(stateExpr, prev, signals[..i])]
        invariant i > 0 ==> groups == if g in s0 then g0 else g0 + [g]
      {
        assert signals[..i + 1][..i] == signals[..i];
        var _ := ProcessState(signals[i], g);
        i := i + 1;
      }
      assert signals[..|signals|] == signals;
    }

    /** `current_state`: every stored group when asked for `None`, the
        group asked for when it is stored, and not found otherwise. */
    method CurrentState(group: Value) returns (r: Reply)
      requires Valid()
      ensures group == VNone ==>
                && r.All? && |r.entries| == |groups|
                && forall i :: 0 <= i < |groups| ==> r.entries[i] == Entry(groups[i], states[groups[i]])
      ensures group != VNone && group in states ==> r == One(Entry(group, states[group]))
      ensures group != VNone && group !in states ==> r == HTTPNotFound
    {
      if group == VNone {
        var entries := [];
        var i := 0;
        while i < |groups|
          invariant 0 <= i <= |groups| && |entries| == i
          invariant forall j :: 0 <= j < i ==> entries[j] == Entry(groups[j], states[groups[j]])
        {
          entries := entries + [Entry(groups[i], states[groups[i]])];
          i := i + 1;
        }
        return All(entries);
      }
      if group in states {
        return One(Entry(group, states[group]));
      }
      r := HTTPNotFound;
    }
  }

  /** Output key truthiness in `process_signals`: a named output, unless
      the name is empty. */
  predicate NamedOutput(key: Option<string>)
  {
    key.Some? && key.value != ""
  }

  /** The notification loop of `process_signals`: every filled list is
      sent once, in key order; the default key without an output id, any
      other with its own. */
  method NotifyAll(toNotify: seq<(Option<string>, seq<Signal>)>) returns (sent: seq<Notification>)
    ensures |sent| == |toNotify|
    ensures forall i :: 0 <= i < |sent| ==> sent[i].signals == toNotify[i].1
    ensures forall i :: 0 <= i < |sent| ==>
              sent[i].outputId == if NamedOutput(toNotify[i].0) then toNotify[i].0 else None
  {
    sent := [];
    var i := 0;
    while i < |toNotify|
      invariant 0 <= i <= |toNotify| && |sent| == i
      invariant forall j :: 0 <= j < i ==> sent[j].signals == toNotify[j].1
      invariant forall j :: 0 <= j < i ==>
                  sent[j].outputId == if NamedOutput(toNotify[j].0) then toNotify[j].0 else None
    {
      var (key, signals) := toNotify[i];
      if NamedOutput(key) {
        sent := sent + [Notify(signals, key)];
      } else {
        sent := sent + [Notify(signals, None)];
      }
      i := i + 1;
    }
  }

  /** `signals_to_notify[None] = group_result`: the default key takes the
      combined result of the groups, in place when it is already a key. */
  function SetDefault(toNotify: seq<(Option<string>, seq<Signal>)>, groupResult: seq<Signal>)
    : (r: seq<(Option<string>, seq<Signal>)>)
    ensures (forall i :: 0 <= i < |toNotify| ==> toNotify[i].0 != None) ==>
              r == toNotify + [(None, groupResult)]
    ensures (None, groupResult) in r
    ensures forall i :: 0 <= i < |toNotify| && toNotify[i].0 != None ==> toNotify[i] in r
  {
    if toNotify == [] then [(None, groupResult)]
    else if toNotify[0].0 == None then [(None, groupResult)] + toNotify[1..]
    else [toNotify[0]] + SetDefault(toNotify[1..], groupResult)
  }

  /** When the default key is already present, its first entry takes the
      combined result in place and nothing else changes. */
  lemma {:induction false} SetDefaultReplaces(toNotify: seq<(Option<string>, seq<Signal>)>,
                                              groupResult: seq<Signal>, i: int)
    requires 0 <= i < |toNotify| && toNotify[i].0 == None
    requires forall j :: 0 <= j < i ==> toNotify[j].0 != None
    ensures SetDefault(toNotify, groupResult) == toNotify[i := (None, groupResult)]
  {
    if i > 0 {
      var rest := toNotify[1..];
      SetDefaultReplaces(rest, groupResult, i - 1);
      assert [toNotify[0]] + rest[i - 1 := (None, groupResult)] == toNotify[i := (None, groupResult)];
    } else {
      assert [(None, groupResult)] + toNotify[1..] == toNotify[0 := (None, groupResult)];
    }
  }

  /** What `process_signals` notifies: the lists the groups filled, and
      the combined result under the default key when it is not empty. */
  function Pending(toNotify: seq<(Option<string>, seq<Signal>)>, groupResult: seq<Signal>)
    : seq<(Option<string>, seq<Signal>)>
  {
    if groupResult == [] then toNotify else SetDefault(toNotify, groupResult)
  }
}
