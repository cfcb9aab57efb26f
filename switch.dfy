/** `Switch`: setter signals set each group's state; every other signal
    passes to the `true` output when its group's state is truthy, else to
    the `false` output. */
module SwitchBlock {
  import opened Signals
  import opened StateBaseBlock
  import opened Buckets

  /** The output that a signal of a group in state `s` goes to. */
  function OutputFor(s: Value): Option<string>
  {
    if Truthy(s) then Some("true") else Some("false")
  }

  class Switch {
    const state: StateBase

    constructor (state: StateBase)
      ensures this.state == state
    {
      this.state := state;
    }

    /** `_process_group`: the setter input sets the state, any other
        input is routed by it; neither returns signals for the default
        output. */
    method ProcessGroup(signals: seq<Signal>, g: Value, inputId: string,
                        toNotify: seq<(Option<string>, seq<Signal>)>)
      returns (result: seq<Signal>, toNotify': seq<(Option<string>, seq<Signal>)>)
      requires state.Valid()
      modifies state`groups, state`states
      ensures state.Valid() && result == []
      ensures inputId == "setter" ==> toNotify' == toNotify
      ensures inputId == "setter" && signals != [] ==>
                state.states == old(state.states)[g := Settle(state.stateExpr, StateOf(old(state.states), g, state.initial), signals)]
      ensures inputId != "setter" ==>
                var route := OutputFor(StateOf(old(state.states), g, state.initial));
                && Lookup(toNotify', route) == Lookup(toNotify, route) + signals
                && forall k :: k != route ==> Lookup(toNotify', k) == Lookup(toNotify, k)
      ensures inputId != "setter" && signals != [] ==>
                state.states == old(state.states)[g := StateOf(old(state.states), g, state.initial)]
      ensures signals == [] ==> state.states == old(state.states)
    {
      result := [];
      if inputId == "setter" {
        state.ProcessSetterGroup(signals, g);
        toNotify' := toNotify;
      } else {
        toNotify' := ProcessGetterGroup(signals, g, toNotify);
      }
    }

    /** `_process_getter_group`: every signal is appended to the output
        its group's state selects; the state is only initialised. */
    method ProcessGetterGroup(signals: seq<Signal>, g: Value, toNotify: seq<(Option<string>, seq<Signal>)>)
      returns (toNotify': seq<(Option<string>, seq<Signal>)>)
      requires state.Valid()
      modifies state`groups, state`states
      ensures state.Valid()
      ensures var route := OutputFor(StateOf(old(state.states), g, state.initial));
        && Lookup(toNotify', route) == Lookup(toNotify, route) + signals
        && forall k :: k != route ==> Lookup(toNotify', k) == Lookup(toNotify, k)
      ensures signals != [] ==> state.states == old(state.states)[g := StateOf(old(state.states), g, state.initial)]
      ensures signals == [] ==> state.states == old(state.states)
    {
      ghost var s := StateOf(state.states, g, state.initial);
      ghost var s0 := state.states;
      ghost var route := OutputFor(s);
      toNotify' := toNotify;
      var i := 0;
      while i < |signals|
        invariant 0 <= i <= |signals|
        invariant state.Valid()
        invariant i == 0 ==> state.states == s0
        invariant i > 0 ==> state.states == s0[g := s]
        invariant Lookup(toNotify', route) == Lookup(toNotify, route) + signals[..i]
        invariant forall k :: k != route ==> Lookup(toNotify', k) == Lookup(toNotify, k)
      {
        var current := state.GetState(g);
        ghost var before := toNotify';
        if Truthy(current) {
          toNotify' := AppendTo(toNotify', Some("true"), signals[i]);
        } else {
          toNotify' := AppendTo(toNotify', Some("false"), signals[i]);
        }
        forall k
          ensures Lookup(toNotify', k) == if k == route then Lookup(before, k) + [signals[i]] else Lookup(before, k)
        {
          AppendToLookup(before, route, signals[i], k);
        }
        assert signals[..i + 1] == signals[..i] + [signals[i]];
        i := i + 1;
      }
      assert signals[..|signals|] == signals;
    }
  }
}
