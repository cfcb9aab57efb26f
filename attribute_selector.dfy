/** `AttributeSelector`: keeps (WHITELIST) or drops (BLACKLIST) the listed
    attributes of every signal, hidden ones included. */
module AttributeSelectorBlock {
  import opened Signals

  datatype Behavior = Blacklist | Whitelist

  /** The new signal for one input: under WHITELIST the attributes that
      are listed, under BLACKLIST the ones that are not. */
  function Selected(mode: Behavior, d: Signal, attributes: set<string>): Signal
  {
    if mode == Whitelist then map k | k in d && k in attributes :: d[k]
    else map k | k in d && k !in attributes :: d[k]
  }

  /** The selection keeps values, holds exactly the chosen attributes of the
      signal, and listed attributes the signal lacks change nothing. */
  lemma SelectedKeys(mode: Behavior, d: Signal, attributes: set<string>)
    ensures var r := Selected(mode, d, attributes);
      && (forall k :: k in r ==> r[k] == d[k])
      && (forall k :: k in r <==> k in d && (k in attributes <==> mode == Whitelist))
      && r == Selected(mode, d, attributes * d.Keys)
  {
  }

  /** The two modes split the signal: what one keeps the other drops. */
  lemma ModesSplit(d: Signal, attributes: set<string>)
    ensures Selected(Whitelist, d, attributes) + Selected(Blacklist, d, attributes) == d
    ensures Selected(Whitelist, d, attributes).Keys !! Selected(Blacklist, d, attributes).Keys
  {
    var w, b := Selected(Whitelist, d, attributes), Selected(Blacklist, d, attributes);
    assert (w + b).Keys == d.Keys;
  }

  class AttributeSelector {
    const mode: Behavior
    /** `attributes`, evaluated per signal. */
    const attributes: Signal -> Eval<seq<string>>

    constructor (mode: Behavior, attributes: Signal -> Eval<seq<string>>)
      ensures this.mode == mode && this.attributes == attributes
    {
      this.mode := mode;
      this.attributes := attributes;
    }

    /** `process_signals`: one new signal per input, in order, all
        notified in one list, empty or not; an attribute list that fails to
        evaluate raises and nothing is notified. */
    method ProcessSignals(signals: seq<Signal>) returns (sent: seq<Notification>)
      ensures (exists i :: 0 <= i < |signals| && attributes(signals[i]).Fails?) <==> sent == []
      ensures sent != [] ==>
        && |sent| == 1 && sent[0].outputId == None && |sent[0].signals| == |signals|
        && forall i :: 0 <= i < |signals| ==>
             sent[0].signals[i] == Selected(mode, signals[i], set a | a in attributes(signals[i]).value)
    {
      var out := [];
      var i := 0;
      while i < |signals|
        invariant 0 <= i <= |signals| && |out| == i
        invariant forall j :: 0 <= j < i ==> attributes(signals[j]).Val?
        invariant forall j :: 0 <= j < i ==>
                    out[j] == Selected(mode, signals[j], set a | a in attributes(signals[j]).value)
      {
        var a := attributes(signals[i]);
        if a.Fails? {
          return [];
        }
        var listed := set x | x in a.value;
        var keep := signals[i].Keys * listed;
        var s: Signal;
        if mode == Whitelist {
          s := map k | k in keep :: signals[i][k];
        } else {
          s := map k | k in signals[i] && k !in keep :: signals[i][k];
        }
        assert s == Selected(mode, signals[i], listed);
        out := out + [s];
        i := i + 1;
      }
      sent := [Notify(out, None)];
    }
  }
}
