/** The base of the HTTP request blocks: for every incoming signal it builds
    a request (url, credentials, payload, headers, timeout), makes it, and
    turns the response body into output signals, each carrying the
    response. */
module HttpRequestsBase {
  import opened Signals

  /** What parsing the response body as JSON gives. */
  datatype Body = Parsed(data: Value) | ParseValueError | ParseError

  /** What enriching one piece of data into an output signal gives. */
  datatype Built = Built(signal: Signal) | BuildValueError | BuildError

  /** The part of a response the block looks at. */
  datatype Response = Response(status: int, body: Body, text: string)

  /** An output signal with the response attached as `_resp`. */
  datatype Out = Out(signal: Signal, resp: Response)

  /** The request body handed to the HTTP call. */
  datatype Payload = Form(entries: map<Value, Value>) | Encoded(json: string)

  /** One request as the block makes it. */
  datatype Request = Request(url: string, auth: Option<(Value, Value)>, payload: Payload,
                             headers: map<Value, Value>, timeout: Option<Value>)

  /** The block's properties, evaluated against a signal where they are
      expressions; the JSON encoder, the enrichment of outputs and the
      HTTP call with its retries are passed in. */
  datatype Config = Config(
    url: Signal -> Eval<string>,
    timeout: Signal -> Value,
    username: Value,
    password: Value,
    headers: Signal -> seq<(Value, Value)>,
    requireJson: bool,
    payload: Signal -> Payload,
    enrich: (Value, Signal) -> Built,
    execute: Request -> Option<Response>)

  /** A dictionary built from pairs in order: a later key replaces an
      earlier one. */
  function DictOf(pairs: seq<(Value, Value)>): map<Value, Value>
  {
    if pairs == [] then map[]
    else DictOf(pairs[..|pairs| - 1])[pairs[|pairs| - 1].0 := pairs[|pairs| - 1].1]
  }

  /** A key of the dictionary is exactly a key of some pair. */
  lemma {:induction false} DictOfKeys(pairs: seq<(Value, Value)>)
    ensures forall k :: k in DictOf(pairs) <==> exists i :: 0 <= i < |pairs| && pairs[i].0 == k
    decreases |pairs|
  {
    if pairs != [] {
      var init, last := pairs[..|pairs| - 1], pairs[|pairs| - 1];
      DictOfKeys(init);
      assert DictOf(pairs) == DictOf(init)[last.0 := last.1];
      forall k
        ensures k in DictOf(pairs) <==> exists i :: 0 <= i < |pairs| && pairs[i].0 == k
      {
        if k in DictOf(pairs) && k != last.0 {
          assert k in DictOf(init);
          var i :| 0 <= i < |init| && init[i].0 == k;
          assert pairs[i] == init[i];
        }
        if k == last.0 {
          assert pairs[|pairs| - 1].0 == k;
        }
        if exists i :: 0 <= i < |pairs| && pairs[i].0 == k {
          var i :| 0 <= i < |pairs| && pairs[i].0 == k;
          if i < |init| {
            assert init[i] == pairs[i];
          }
        }
      }
    }
  }

  /** No pair after the `i`-th has the same key. */
  ghost predicate LastOfKey(pairs: seq<(Value, Value)>, i: int)
    requires 0 <= i < |pairs|
  {
    forall j :: i < j < |pairs| ==> pairs[j].0 != pairs[i].0
  }

  /** A key holds the value of the last pair with that key. */
  lemma {:induction false} DictOfValues(pairs: seq<(Value, Value)>)
    ensures forall i :: 0 <= i < |pairs| && LastOfKey(pairs, i) ==>
              pairs[i].0 in DictOf(pairs) && DictOf(pairs)[pairs[i].0] == pairs[i].1
    decreases |pairs|
  {
    if pairs != [] {
      var init, last := pairs[..|pairs| - 1], pairs[|pairs| - 1];
      DictOfValues(init);
      assert DictOf(pairs) == DictOf(init)[last.0 := last.1];
      forall i | 0 <= i < |pairs| && LastOfKey(pairs, i)
        ensures pairs[i].0 in DictOf(pairs) && DictOf(pairs)[pairs[i].0] == pairs[i].1
      {
        if i < |init| {
          LastOfKeyInit(pairs, i);
          assert init[i] == pairs[i];
        }
      }
    }
  }

  /** The last pair of a key among all the pairs is also the last among
      the pairs before the final one, whose key differs. */
  lemma LastOfKeyInit(pairs: seq<(Value, Value)>, i: int)
    requires 0 <= i < |pairs| - 1 && LastOfKey(pairs, i)
    ensures LastOfKey(pairs[..|pairs| - 1], i)
    ensures pairs[|pairs| - 1].0 != pairs[i].0
  {
    var init := pairs[..|pairs| - 1];
    forall j | i < j < |init|
      ensures init[j].0 != init[i].0
    {
      assert init[j] == pairs[j];
    }
  }

  /** The headers of the request: the entries whose name and value are
      both truthy, a later name replacing an earlier one. */
  function HeadersOf(pairs: seq<(Value, Value)>): map<Value, Value>
  {
    if pairs == [] then map[]
    else
      var h, last := HeadersOf(pairs[..|pairs| - 1]), pairs[|pairs| - 1];
      if Truthy(last.0) && Truthy(last.1) then h[last.0 := last.1] else h
  }

  /** A header is sent exactly when some entry has that name and both the
      name and the value are truthy. */
  lemma {:induction false} HeadersKeys(pairs: seq<(Value, Value)>)
    ensures forall k :: k in HeadersOf(pairs) <==>
              exists i :: 0 <= i < |pairs| && pairs[i].0 == k && Truthy(pairs[i].0) && Truthy(pairs[i].1)
    decreases |pairs|
  {
    if pairs != [] {
      var init, last := pairs[..|pairs| - 1], pairs[|pairs| - 1];
      HeadersKeys(init);
      assert forall i :: 0 <= i < |init| ==> init[i] == pairs[i];
      forall k
        ensures k in HeadersOf(pairs) <==>
                exists i :: 0 <= i < |pairs| && pairs[i].0 == k && Truthy(pairs[i].0) && Truthy(pairs[i].1)
      {
        if k in HeadersOf(pairs) && !(k == last.0 && Truthy(last.0) && Truthy(last.1)) {
          assert k in HeadersOf(init);
          var i :| 0 <= i < |init| && init[i].0 == k && Truthy(init[i].0) && Truthy(init[i].1);
          assert pairs[i] == init[i];
        }
        if k == last.0 && Truthy(last.0) && Truthy(last.1) {
          assert pairs[|pairs| - 1].0 == k;
        }
      }
    }
  }

  /** A header takes the value of the last entry that sets it. */
  lemma {:induction false} HeadersLast(pairs: seq<(Value, Value)>, i: nat)
    requires i < |pairs| && Truthy(pairs[i].0) && Truthy(pairs[i].1)
    requires forall j :: i < j < |pairs| && Truthy(pairs[j].1) ==> pairs[j].0 != pairs[i].0
    ensures pairs[i].0 in HeadersOf(pairs) && HeadersOf(pairs)[pairs[i].0] == pairs[i].1
    decreases |pairs|
  {
    if i < |pairs| - 1 {
      var init := pairs[..|pairs| - 1];
      HeadersLast(init, i);
    }
  }

  /** `_create_headers`. */
  method CreateHeaders(pairs: seq<(Value, Value)>) returns (headers: map<Value, Value>)
    ensures headers == HeadersOf(pairs)
  {
    headers := map[];
    var i := 0;
    while i < |pairs|
      invariant 0 <= i <= |pairs|
      invariant headers == HeadersOf(pairs[..i])
    {
      var (header, value) := pairs[i];
      assert pairs[..i + 1][..i] == pairs[..i];
      if Truthy(header) && Truthy(value) {
        headers := headers[header := value];
      }
      i := i + 1;
    }
    assert pairs[..|pairs|] == pairs;
  }

  /** `_create_auth`: basic credentials when a username is set. */
  function Auth(username: Value, password: Value): (r: Option<(Value, Value)>)
    ensures r.Some? <==> Truthy(username)
    ensures r.Some? ==> r.value == (username, password)
  {
    if Truthy(username) then Some((username, password)) else None
  }

  /** The timeout handed to the request: none when it is falsy. */
  function TimeoutOf(t: Value): (r: Option<Value>)
    ensures r.None? <==> !Truthy(t)
    ensures r.Some? ==> r.value == t
  {
    if Truthy(t) then Some(t) else None
  }

  /** The base `_create_payload`: the signal's dictionary encoded as JSON. */
  function BasePayload(signal: Signal, encode: Signal -> string): (p: Payload)
    ensures p.Encoded?
  {
    Encoded(encode(ToDict(signal)))
  }

  /** A hidden attribute never reaches the payload: the signal encodes as
      it would without it, whatever its value. */
  lemma BasePayloadHidden(signal: Signal, encode: Signal -> string, k: string, v: Value)
    requires Hidden(k)
    ensures BasePayload(signal[k := v], encode) == BasePayload(signal - {k}, encode)
    ensures (forall a :: a in signal ==> !Hidden(a)) ==> BasePayload(signal, encode) == Encoded(encode(signal))
  {
    assert ToDict(signal[k := v]) == ToDict(signal - {k});
    if forall a :: a in signal ==> !Hidden(a) {
      ToDictPlain(signal);
    }
  }

  /** How building the outputs for a list body ends. */
  datatype ListBuilt = AllBuilt(signals: seq<Signal>) | ListValueError | ListError

  /** One output per element, in order, stopping at the first element
      that cannot be enriched. */
  function BuildList(items: seq<Value>, input: Signal, enrich: (Value, Signal) -> Built): ListBuilt
  {
    if items == [] then AllBuilt([])
    else
      var init := BuildList(items[..|items| - 1], input, enrich);
      var b := enrich(items[|items| - 1], input);
      if !init.AllBuilt? then init
      else if b.BuildValueError? then ListValueError
      else if b.BuildError? then ListError
      else AllBuilt(init.signals + [b.signal])
  }

  /** A list body builds when every element does, and then gives each
      element's signal in order; otherwise the first failure decides. */
  lemma {:induction false} BuildListMeaning(items: seq<Value>, input: Signal, enrich: (Value, Signal) -> Built)
    ensures var r := BuildList(items, input, enrich);
      && (r.AllBuilt? <==> forall i :: 0 <= i < |items| ==> enrich(items[i], input).Built?)
      && (r.AllBuilt? ==> |r.signals| == |items| &&
                          forall i :: 0 <= i < |items| ==> r.signals[i] == enrich(items[i], input).signal)
      && (!r.AllBuilt? ==> exists k :: 0 <= k < |items| && (forall i :: 0 <= i < k ==> enrich(items[i], input).Built?) &&
                                       (r.ListValueError? <==> enrich(items[k], input).BuildValueError?))
    decreases |items|
  {
    if items != [] {
      var init := items[..|items| - 1];
      BuildListMeaning(init, input, enrich);
      assert forall i :: 0 <= i < |init| ==> init[i] == items[i];
      var ri := BuildList(init, input, enrich);
      if !ri.AllBuilt? {
        var k :| 0 <= k < |init| && (forall i :: 0 <= i < k ==> enrich(init[i], input).Built?) &&
                 (ri.ListValueError? <==> enrich(init[k], input).BuildValueError?);
        assert items[k] == init[k];
      } else if !enrich(items[|items| - 1], input).Built? {
        assert forall i :: 0 <= i < |items| - 1 ==> enrich(items[i], input).Built?;
      }
    }
  }

  /** The outputs when the body is not usable JSON: the raw text as a
      signal, or the input signal when JSON is required. When the raw
      signal itself cannot be built the result built so far, none, is
      returned. */
  function OnValueError(text: string, input: Signal, requireJson: bool, enrich: (Value, Signal) -> Built): seq<Signal>
  {
    if requireJson then [input]
    else
      var b := enrich(VDict(map["raw" := VStr(text)]), input);
      if b.Built? then [b.signal] else []
  }

  /** `_process_response` before `_resp` is attached. */
  function Outputs(body: Body, text: string, input: Signal, requireJson: bool,
                   enrich: (Value, Signal) -> Built): seq<Signal>
  {
    match body
    case ParseValueError => OnValueError(text, input, requireJson, enrich)
    case ParseError => [input]
    case Parsed(data) =>
      if data.VDict? then
        var b := enrich(data, input);
        if b.Built? then [b.signal]
        else if b.BuildValueError? then OnValueError(text, input, requireJson, enrich)
        else [input]
      else if data.VList? then
        var l := BuildList(data.items, input, enrich);
        if l.AllBuilt? then l.signals
        else if l.ListValueError? then OnValueError(text, input, requireJson, enrich)
        else [input]
      else OnValueError(text, input, requireJson, enrich)
  }

  /** A dictionary body gives exactly its one enriched signal; a list body
      one signal per element in order, none for an empty list; a scalar
      body the raw text or, when JSON is required, the input, and nothing
      when the raw signal cannot be built. A value error while enriching
      the dictionary or the first failing element of the list ends as an
      unparseable body does; any other failure gives the input. */
  lemma OutputsMeaning(body: Body, text: string, input: Signal, requireJson: bool, enrich: (Value, Signal) -> Built)
    ensures var r := Outputs(body, text, input, requireJson, enrich);
      var raw := enrich(VDict(map["raw" := VStr(text)]), input);
      && (body.Parsed? && body.data.VDict? && enrich(body.data, input).Built? ==> r == [enrich(body.data, input).signal])
      && (body.Parsed? && body.data.VDict? && enrich(body.data, input).BuildValueError? ==>
            r == Outputs(ParseValueError, text, input, requireJson, enrich))
      && (body.Parsed? && body.data.VDict? && enrich(body.data, input).BuildError? ==> r == [input])
      && (body.Parsed? && body.data.VList? && (forall i :: 0 <= i < |body.data.items| ==> enrich(body.data.items[i], input).Built?) ==>
            |r| == |body.data.items| && forall i :: 0 <= i < |r| ==> r[i] == enrich(body.data.items[i], input).signal)
      && (body.Parsed? && body.data.VList? ==>
            forall k :: 0 <= k < |body.data.items| && !enrich(body.data.items[k], input).Built? &&
                        (forall i :: 0 <= i < k ==> enrich(body.data.items[i], input).Built?) ==>
              r == if enrich(body.data.items[k], input).BuildValueError?
                   then Outputs(ParseValueError, text, input, requireJson, enrich) else [input])
      && (body == Parsed(VList([])) ==> r == [])
      && (body.ParseError? ==> r == [input])
      && ((body.ParseValueError? || (body.Parsed? && !body.data.VDict? && !body.data.VList?)) ==>
            && (requireJson ==> r == [input])
            && (!requireJson && raw.Built? ==> r == [raw.signal])
            && (!requireJson && !raw.Built? ==> r == []))
  {
    if body.Parsed? && body.data.VList? {
      var items := body.data.items;
      BuildListMeaning(items, input, enrich);
      forall k | 0 <= k < |items| && !enrich(items[k], input).Built? &&
                 (forall i :: 0 <= i < k ==> enrich(items[i], input).Built?)
        ensures BuildList(items, input, enrich) ==
                (if enrich(items[k], input).BuildValueError? then ListValueError else ListError)
      {
        BuildListMeaning(items[..k], input, enrich);
        assert forall i :: 0 <= i < k ==> items[..k][i] == items[i];
        BuildListFailed(items, input, enrich, k);
      }
    }
  }

  /** Attach the response to every output. */
  function Attach(signals: seq<Signal>, resp: Response): (r: seq<Out>)
    ensures |r| == |signals|
    ensures forall i :: 0 <= i < |r| ==> r[i] == Out(signals[i], resp)
  {
    if signals == [] then [] else Attach(signals[..|signals| - 1], resp) + [Out(signals[|signals| - 1], resp)]
  }

  /** `_process_response`: the list body's elements in a loop. */
  method ProcessResponse(resp: Response, input: Signal, requireJson: bool, enrich: (Value, Signal) -> Built)
    returns (result: seq<Out>)
    ensures result == Attach(Outputs(resp.body, resp.text, input, requireJson, enrich), resp)
  {
    var signals: seq<Signal> := [];
    match resp.body {
      case ParseValueError =>
        signals := OnValueError(resp.text, input, requireJson, enrich);
      case ParseError =>
        signals := [input];
      case Parsed(data) =>
        if data.VDict? {
          var b := enrich(data, input);
          if b.Built? {
            signals := [b.signal];
          } else if b.BuildValueError? {
            signals := OnValueError(resp.text, input, requireJson, enrich);
          } else {
            signals := [input];
          }
        } else if data.VList? {
          var items := data.items;
          var sigs: seq<Signal> := [];
          var failed: Option<Built> := None;
          var i := 0;
          while i < |items| && failed == None
            invariant 0 <= i <= |items|
            invariant failed == None ==> BuildList(items[..i], input, enrich) == AllBuilt(sigs)
            invariant failed != None ==> BuildList(items, input, enrich) ==
                                         (if failed.value.BuildValueError? then ListValueError else ListError)
          {
            assert items[..i + 1][..i] == items[..i];
            var b := enrich(items[i], input);
            if b.Built? {
              sigs := sigs + [b.signal];
            } else {
              failed := Some(b);
              BuildListFailed(items, input, enrich, i);
            }
            i := i + 1;
          }
          if failed == None {
            assert items[..i] == items;
            signals := sigs;
          } else if failed.value.BuildValueError? {
            signals := OnValueError(resp.text, input, requireJson, enrich);
          } else {
            signals := [input];
          }
        } else {
          signals := OnValueError(resp.text, input, requireJson, enrich);
        }
    }
    result := Attach(signals, resp);
  }

  /** Once an element fails, the list fails the same way. */
  lemma {:induction false} BuildListFailed(items: seq<Value>, input: Signal, enrich: (Value, Signal) -> Built, k: nat)
    requires k < |items| && BuildList(items[..k], input, enrich).AllBuilt? && !enrich(items[k], input).Built?
    ensures BuildList(items, input, enrich) ==
            (if enrich(items[k], input).BuildValueError? then ListValueError else ListError)
    decreases |items|
  {
    if k == |items| - 1 {
      assert items[..k] == items[..|items| - 1];
    } else {
      var init := items[..|items| - 1];
      assert init[..k] == items[..k];
      BuildListFailed(init, input, enrich, k);
    }
  }

  /** The request made for a signal. */
  function RequestFor(cfg: Config, signal: Signal, url: string): (r: Request)
    ensures r.url == url && r.headers == HeadersOf(cfg.headers(signal))
    ensures r.timeout == TimeoutOf(cfg.timeout(signal)) && r.auth == Auth(cfg.username, cfg.password)
    ensures r.payload == cfg.payload(signal)
  {
    Request(url, Auth(cfg.username, cfg.password), cfg.payload(signal), HeadersOf(cfg.headers(signal)),
            TimeoutOf(cfg.timeout(signal)))
  }

  /** `_make_request`: nothing when the url cannot be evaluated or the
      retries run out; otherwise the response's outputs, whatever the
      status code. */
  function MakeRequest(cfg: Config, signal: Signal): Option<seq<Out>>
  {
    var url := cfg.url(signal);
    if url.Fails? then None
    else
      var r := cfg.execute(RequestFor(cfg, signal, url.value));
      if r.None? then None
      else Some(Attach(Outputs(r.value.body, r.value.text, signal, cfg.requireJson, cfg.enrich), r.value))
  }

  /** A failing status is handled exactly like a good one: two responses
      that differ only in their status code give the same signals. */
  lemma StatusIgnored(cfg: Config, signal: Signal, body: Body, text: string, s1: int, s2: int)
    requires cfg.url(signal).Val?
    requires cfg.execute(RequestFor(cfg, signal, cfg.url(signal).value)) == Some(Response(s1, body, text))
    ensures var r := MakeRequest(cfg, signal);
      && r.Some?
      && |r.value| == |Outputs(body, text, signal, cfg.requireJson, cfg.enrich)|
      && forall i :: 0 <= i < |r.value| ==>
           r.value[i].signal == Outputs(body, text, signal, cfg.requireJson, cfg.enrich)[i] &&
           r.value[i].resp == Response(s1, body, text)
  {
  }

  /** The outputs of a batch: each signal's outputs, in order. */
  function BatchOutputs(cfg: Config, signals: seq<Signal>): seq<Out>
  {
    if signals == [] then []
    else
      var r := MakeRequest(cfg, signals[|signals| - 1]);
      BatchOutputs(cfg, signals[..|signals| - 1]) + (if r.Some? then r.value else [])
  }

  /** The outputs of a batch are those of its parts, in order; a signal
      whose request is dropped adds nothing. */
  lemma {:induction false} BatchOutputsAppend(cfg: Config, a: seq<Signal>, b: seq<Signal>)
    ensures BatchOutputs(cfg, a + b) == BatchOutputs(cfg, a) + BatchOutputs(cfg, b)
    decreases |b|
  {
    if b == [] {
      assert a + b == a;
    } else {
      var init := b[..|b| - 1];
      assert (a + b)[..|a + b| - 1] == a + init;
      BatchOutputsAppend(cfg, a, init);
    }
  }

  /** A batch notifies exactly when some signal's request gave outputs. */
  lemma {:induction false} BatchEmpty(cfg: Config, signals: seq<Signal>)
    ensures BatchOutputs(cfg, signals) == [] <==>
            forall i :: 0 <= i < |signals| ==> MakeRequest(cfg, signals[i]).None? || MakeRequest(cfg, signals[i]).value == []
    decreases |signals|
  {
    if signals != [] {
      var init := signals[..|signals| - 1];
      BatchEmpty(cfg, init);
      assert forall i :: 0 <= i < |init| ==> init[i] == signals[i];
    }
  }

  /** `process_signals`: make every request in turn and notify the
      outputs, if any, together. */
  method ProcessSignals(cfg: Config, signals: seq<Signal>) returns (notified: Option<seq<Out>>)
    ensures notified.None? <==> BatchOutputs(cfg, signals) == []
    ensures notified.Some? ==> notified.value == BatchOutputs(cfg, signals)
  {
    var newSignals: seq<Out> := [];
    var i := 0;
    while i < |signals|
      invariant 0 <= i <= |signals|
      invariant newSignals == BatchOutputs(cfg, signals[..i])
    {
      assert signals[..i + 1][..i] == signals[..i];
      var newSigs := MakeRequest(cfg, signals[i]);
      if newSigs.Some? && newSigs.value != [] {
        newSignals := newSignals + newSigs.value;
      }
      i := i + 1;
    }
    assert signals[..|signals|] == signals;
    if newSignals != [] {
      return Some(newSignals);
    }
    notified := None;
  }
}
