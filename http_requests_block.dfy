/** The HTTP request block: the base block with a payload built from
    configured parameters. */
module HttpRequestsBlock {
  import opened Signals
  import opened HttpRequestsBase

  /** `_create_payload`: the parameters as a dictionary, a later key
      replacing an earlier one; JSON-encoded unless it is empty or
      form encoding is asked for. */
  function PayloadOf(params: seq<(Value, Value)>, formEncode: bool, encode: map<Value, Value> -> string): Payload
  {
    var d := DictOf(params);
    if d != map[] && !formEncode then Encoded(encode(d)) else Form(d)
  }

  /** The parameters give an empty dictionary only when there are none. */
  lemma DictOfEmpty(params: seq<(Value, Value)>)
    ensures DictOf(params) == map[] <==> params == []
  {
    if params != [] {
      assert params[|params| - 1].0 in DictOf(params);
    }
  }

  /** No parameters give the empty dictionary as it is; form encoding
      gives the dictionary as it is; otherwise the dictionary is encoded
      once. The dictionary holds each key's last value. */
  lemma PayloadMeaning(params: seq<(Value, Value)>, formEncode: bool, encode: map<Value, Value> -> string)
    ensures params == [] ==> PayloadOf(params, formEncode, encode) == Form(map[])
    ensures formEncode ==> PayloadOf(params, formEncode, encode) == Form(DictOf(params))
    ensures params != [] && !formEncode ==> PayloadOf(params, formEncode, encode) == Encoded(encode(DictOf(params)))
    ensures forall k :: k in DictOf(params) <==> exists i :: 0 <= i < |params| && params[i].0 == k
    ensures forall i :: 0 <= i < |params| && LastOfKey(params, i) ==>
              params[i].0 in DictOf(params) && DictOf(params)[params[i].0] == params[i].1
  {
    DictOfEmpty(params);
    DictOfKeys(params);
    DictOfValues(params);
  }

  /** `_create_payload` as written: fill the dictionary, then encode it. */
  method CreatePayload(params: seq<(Value, Value)>, formEncode: bool, encode: map<Value, Value> -> string)
    returns (payload: Payload)
    ensures payload == PayloadOf(params, formEncode, encode)
  {
    var d: map<Value, Value> := map[];
    var i := 0;
    while i < |params|
      invariant 0 <= i <= |params|
      invariant d == DictOf(params[..i])
    {
      assert params[..i + 1][..i] == params[..i];
      var (key, value) := params[i];
      d := d[key := value];
      i := i + 1;
    }
    assert params[..|params|] == params;
    if d != map[] && !formEncode {
      return Encoded(encode(d));
    }
    payload := Form(d);
  }

  /** The configuration of the block: the base configuration with its
      parameters as the payload. */
  function BlockConfig(base: Config, params: Signal -> seq<(Value, Value)>, formEncode: bool,
                       encode: map<Value, Value> -> string): (cfg: Config)
    ensures cfg.url == base.url && cfg.headers == base.headers && cfg.execute == base.execute
    ensures forall s :: cfg.payload(s) == PayloadOf(params(s), formEncode, encode)
  {
    base.(payload := s => PayloadOf(params(s), formEncode, encode))
  }

  /** Every request the block makes carries the payload of the signal's
      parameters. */
  lemma RequestPayload(base: Config, params: Signal -> seq<(Value, Value)>, formEncode: bool,
                       encode: map<Value, Value> -> string, signal: Signal, url: string)
    ensures RequestFor(BlockConfig(base, params, formEncode, encode), signal, url).payload ==
            PayloadOf(params(signal), formEncode, encode)
  {
  }
}
