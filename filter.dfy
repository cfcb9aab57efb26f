/** `Filter`: sends each signal to the `true` or the `false` output,
    depending on whether any (ANY) or every (ALL) condition holds for it. */
module FilterBlock {
  import opened Signals

  datatype Operator = Any | All

  /** A condition's outcome that settles the signal: a truthy one under
      ANY, a falsy one under ALL. */
  predicate Decides(e: Eval<Value>, op: Operator)
  {
    e.Val? && Truthy(e.value) == (op == Any)
  }

  /** A condition's outcome that lets the evaluation go on. */
  predicate Passes(e: Eval<Value>, op: Operator)
  {
    e.Val? && Truthy(e.value) != (op == Any)
  }

  /** The inner `for ... else` loop: the conditions in order, stopping at
      the first that settles the signal or raises; ANY ends false and ALL
      ends true when none settles it. */
  function Verdict(op: Operator, exprs: seq<Expr>, sig: Signal): Eval<bool>
  {
    if exprs == [] then Val(op == All)
    else
      var e := exprs[0](sig);
      if e.Fails? then Fails
      else if Truthy(e.value) == (op == Any) then Val(op == Any)
      else Verdict(op, exprs[1..], sig)
  }

  /** The verdict is settled by the first condition that does not pass:
      it is the operator's own answer when that condition settles the
      signal, and a failure when it raises. Conditions after it are never
      evaluated. */
  lemma {:induction false} VerdictFirst(op: Operator, exprs: seq<Expr>, sig: Signal, k: nat)
    requires k < |exprs| && forall j :: 0 <= j < k ==> Passes(exprs[j](sig), op)
    ensures Decides(exprs[k](sig), op) ==> Verdict(op, exprs, sig) == Val(op == Any)
    ensures exprs[k](sig).Fails? ==> Verdict(op, exprs, sig) == Fails
    decreases k
  {
    if k > 0 {
      VerdictFirst(op, exprs[1..], sig, k - 1);
    }
  }

  /** When every condition passes, the verdict is that of an empty list. */
  lemma {:induction false} VerdictAllPass(op: Operator, exprs: seq<Expr>, sig: Signal)
    requires forall j :: 0 <= j < |exprs| ==> Passes(exprs[j](sig), op)
    ensures Verdict(op, exprs, sig) == Val(op == All)
    decreases |exprs|
  {
    if exprs != [] {
      VerdictAllPass(op, exprs[1..], sig);
    }
  }

  /** With conditions that all evaluate, ANY is true iff some condition
      is truthy, and ALL is true iff every condition is. */
  lemma {:induction false} VerdictMeaning(op: Operator, exprs: seq<Expr>, sig: Signal)
    requires forall j :: 0 <= j < |exprs| ==> exprs[j](sig).Val?
    ensures op == Any ==>
      Verdict(op, exprs, sig) == Val(exists j :: 0 <= j < |exprs| && Truthy(exprs[j](sig).value))
    ensures op == All ==>
      Verdict(op, exprs, sig) == Val(forall j :: 0 <= j < |exprs| ==> Truthy(exprs[j](sig).value))
    decreases |exprs|
  {
    if exprs != [] {
      VerdictMeaning(op, exprs[1..], sig);
      assert forall j :: 0 < j < |exprs| ==> exprs[1..][j - 1] == exprs[j];
      assert forall j :: 0 <= j < |exprs| - 1 ==> exprs[1..][j] == exprs[j + 1];
    }
  }

  /** The signals of `xs` with verdict `b`, in order. */
  function Select<V>(xs: seq<V>, verdicts: seq<bool>, b: bool): seq<V>
    requires |verdicts| == |xs|
  {
    if xs == [] then []
    else Select(xs[..|xs| - 1], verdicts[..|xs| - 1], b)
         + (if verdicts[|xs| - 1] == b then [xs[|xs| - 1]] else [])
  }

  /** Selecting from one more element adds it to the selection of its
      verdict only. */
  lemma SelectSnoc<V>(xs: seq<V>, verdicts: seq<bool>, b: bool)
    requires |verdicts| == |xs| && xs != []
    ensures var n := |xs| - 1;
      Select(xs, verdicts, b) == Select(xs[..n], verdicts[..n], b) + (if verdicts[n] == b then [xs[n]] else [])
  {
  }

  /** The two selections share out the input: together they hold every
      element as often as the input does. */
  lemma {:induction false} SelectPartition<V>(xs: seq<V>, verdicts: seq<bool>)
    requires |verdicts| == |xs|
    ensures multiset(Select(xs, verdicts, true)) + multiset(Select(xs, verdicts, false)) == multiset(xs)
    decreases |xs|
  {
    if xs != [] {
      var n := |xs| - 1;
      var init, x := xs[..n], xs[n];
      SelectPartition(init, verdicts[..n]);
      SelectSnoc(xs, verdicts, true);
      SelectSnoc(xs, verdicts, false);
      var t0, f0 := Select(init, verdicts[..n], true), Select(init, verdicts[..n], false);
      assert xs == init + [x];
      assert multiset(xs) == multiset(init) + multiset{x};
      if verdicts[n] {
        assert multiset(Select(xs, verdicts, true)) == multiset(t0) + multiset{x};
        assert multiset(Select(xs, verdicts, false)) == multiset(f0);
      } else {
        assert multiset(Select(xs, verdicts, true)) == multiset(t0);
        assert multiset(Select(xs, verdicts, false)) == multiset(f0) + multiset{x};
      }
    }
  }

  /** So their lengths add up to the input's. */
  lemma SelectCount<V>(xs: seq<V>, verdicts: seq<bool>)
    requires |verdicts| == |xs|
    ensures |Select(xs, verdicts, true)| + |Select(xs, verdicts, false)| == |xs|
  {
    SelectPartition(xs, verdicts);
    assert |multiset(Select(xs, verdicts, true))| + |multiset(Select(xs, verdicts, false))| == |multiset(xs)|;
  }

  /** The verdicts of the signals, all of which evaluated. */
  function Verdicts(op: Operator, exprs: seq<Expr>, xs: seq<Signal>): (vs: seq<bool>)
    requires forall i :: 0 <= i < |xs| ==> Verdict(op, exprs, xs[i]).Val?
    ensures |vs| == |xs|
    ensures forall i :: 0 <= i < |xs| ==> vs[i] == Verdict(op, exprs, xs[i]).value
  {
    if xs == [] then [] else [Verdict(op, exprs, xs[0]).value] + Verdicts(op, exprs, xs[1..])
  }

  class Filter {
    /** `_expressions`, as `configure` collects them. */
    const expressions: seq<Expr>
    /** `operator`. */
    const operator: Operator

    constructor (expressions: seq<Expr>, operator: Operator)
      ensures this.expressions == expressions && this.operator == operator
    {
      this.expressions := expressions;
      this.operator := operator;
    }

    /** The inner loop for one signal. */
    method Decide(sig: Signal) returns (r: Eval<bool>)
      ensures r == Verdict(operator, expressions, sig)
    {
      var k := 0;
      while k < |expressions|
        invariant 0 <= k <= |expressions|
        invariant forall j :: 0 <= j < k ==> Passes(expressions[j](sig), operator)
      {
        var e := expressions[k](sig);
        if e.Fails? {
          VerdictFirst(operator, expressions, sig, k);
          return Fails;
        }
        if Truthy(e.value) == (operator == Any) {
          VerdictFirst(operator, expressions, sig, k);
          return Val(operator == Any);
        }
        k := k + 1;
      }
      VerdictAllPass(operator, expressions, sig);
      r := Val(operator == All);
    }

    /** `_filter_signals`: every signal goes to the list of its verdict,
        in order; the first condition that raises aborts the batch. */
    method FilterSignals(signals: seq<Signal>) returns (r: Eval<(seq<Signal>, seq<Signal>)>)
      ensures r.Fails? <==> exists i :: 0 <= i < |signals| && Verdict(operator, expressions, signals[i]).Fails?
      ensures r.Val? ==>
        var vs := Verdicts(operator, expressions, signals);
        r.value == (Select(signals, vs, true), Select(signals, vs, false))
    {
      var trues, falses := [], [];
      ghost var vs: seq<bool> := [];
      var i := 0;
      while i < |signals|
        invariant 0 <= i <= |signals| && |vs| == i
        invariant forall j :: 0 <= j < i ==> Verdict(operator, expressions, signals[j]) == Val(vs[j])
        invariant trues == Select(signals[..i], vs, true) && falses == Select(signals[..i], vs, false)
      {
        var v := Decide(signals[i]);
        if v.Fails? {
          return Fails;
        }
        assert signals[..i + 1][..i] == signals[..i] && (vs + [v.value])[..i] == vs;
        if v.value {
          trues := trues + [signals[i]];
        } else {
          falses := falses + [signals[i]];
        }
        vs := vs + [v.value];
        i := i + 1;
      }
      assert signals[..i] == signals;
      assert vs == Verdicts(operator, expressions, signals);
      r := Val((trues, falses));
    }

    /** `process_signals`: the true list to `true` and the false list to
        `false`, each only when not empty; nothing when a condition
        raised. */
    method ProcessSignals(signals: seq<Signal>) returns (ok: bool, sent: seq<Notification>)
      ensures ok <==> forall i :: 0 <= i < |signals| ==> Verdict(operator, expressions, signals[i]).Val?
      ensures !ok ==> sent == []
      ensures ok ==>
        var vs := Verdicts(operator, expressions, signals);
        var t, f := Select(signals, vs, true), Select(signals, vs, false);
        sent == (if t != [] then [Notify(t, Some("true"))] else [])
              + (if f != [] then [Notify(f, Some("false"))] else [])
    {
      var r := FilterSignals(signals);
      if r.Fails? {
        return false, [];
      }
      var (t, f) := r.value;
      sent := [];
      if |t| > 0 {
        sent := sent + [Notify(t, Some("true"))];
      }
      if |f| > 0 {
        sent := sent + [Notify(f, Some("false"))];
      }
      ok := true;
    }
  }
}
