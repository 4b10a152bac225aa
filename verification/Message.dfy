/** `ConnMsg` and how its data survives JSON: byte slices travel as a tagged base64 object. */
module Message {
  import opened Bytes
  import opened Codec

  /** JSON values as far as the code tells them apart: strings, objects by their
      "go-CFC-Data" member (None: absent or null), anything else by its text. */
  datatype Json = Str(text: seq<byte>) | Obj(tag: Option<Json>, others: seq<byte>) | Other(text: seq<byte>)

  datatype Data = Raw(bytes: seq<byte>) | Value(json: Json)

  datatype ConnMsg = ConnMsg(header: string, code: int, data: Data, id: string)

  datatype WireMsg = WireMsg(header: string, code: int, data: Json, id: string)

  /** Key, base64, and `json.Unmarshal` of a JSON value into a byte slice. */
  datatype Env = Env(
    key: Suite<WireMsg>,
    encode64: seq<byte> -> seq<byte>,
    decode64: seq<byte> -> Option<seq<byte>>,
    jsonToBytes: Json -> Option<seq<byte>>)

  ghost predicate ValidEnv(e: Env) {
    Valid(e.key) && forall b :: e.decode64(e.encode64(b)) == Some(b)
  }

  /** `SetMsg` before marshalling. */
  function ToWire(e: Env, m: ConnMsg): WireMsg {
    var j := match m.data
      case Raw(b) => Obj(Some(Str(e.encode64(b))), [])
      case Value(v) => v;
    WireMsg(m.header, m.code, j, m.id)
  }

  datatype Received = Got(msg: ConnMsg) | Failed(error: ReadError) | Panics

  /** The end of `Key.ReadCMsg`: a tagged object becomes bytes again. */
  function FromWire(e: Env, w: WireMsg): Received {
    if w.data.Obj? && w.data.tag.Some? then
      if w.data.tag.value.Str? && e.decode64(w.data.tag.value.text).Some? then
        Got(ConnMsg(w.header, w.code, Raw(e.decode64(w.data.tag.value.text).value), w.id))
      else Panics
    else Got(ConnMsg(w.header, w.code, Value(w.data), w.id))
  }

  /** `ConnMsg.Unmarshal` into a byte slice. */
  function UnmarshalBytes(e: Env, d: Data): Option<seq<byte>> {
    match d
    case Raw(b) => Some(b)
    case Value(j) => e.jsonToBytes(j)
  }

  predicate LooksLikeBytes(d: Data) {
    d.Value? && d.json.Obj? && d.json.tag.Some?
  }

  /** A message survives exactly when its data is not itself an object carrying the tag. */
  lemma SetMsgRoundTrip(e: Env, m: ConnMsg)
    requires ValidEnv(e)
    ensures FromWire(e, ToWire(e, m)) == Got(m) <==> !LooksLikeBytes(m.data)
  {
    if m.data.Raw? {
      assert e.decode64(e.encode64(m.data.bytes)) == Some(m.data.bytes);
    }
  }

  /** A tagged object that is not what it was: it comes back as the bytes its tag decodes to. */
  lemma TaggedObjectIsMistaken(e: Env, b: seq<byte>)
    requires ValidEnv(e)
    ensures var m := ConnMsg("", 200, Value(Obj(Some(Str(e.encode64(b))), [])), "");
      FromWire(e, ToWire(e, m)) == Got(m.(data := Raw(b)))
  {
    assert e.decode64(e.encode64(b)) == Some(b);
  }

  predicate Sendable(e: Env, m: ConnMsg) {
    Fits(e.key, ToWire(e, m)) && !LooksLikeBytes(m.data)
  }

  function SetMsg(e: Env, nonce: nat, m: ConnMsg): seq<seq<byte>>
    requires Valid(e.key) && Fits(e.key, ToWire(e, m))
  {
    Encode(e.key, nonce, ToWire(e, m))
  }

  /** `ReadCMsg` on a stream, up to and including the restored data. */
  function Receive(e: Env, s: seq<byte>): (Received, nat) {
    var r := ParseMsg(e.key, s, None);
    match r.outcome
    case Fail(err) => (Failed(err), r.used)
    case Msg(w) => (FromWire(e, w), r.used)
  }

  /** What `SetMsg` writes, `ReadCMsg` reads, whatever follows. */
  lemma SendReceive(e: Env, nonce: nat, m: ConnMsg, rest: seq<byte>)
    requires ValidEnv(e) && Sendable(e, m)
    ensures Receive(e, Flatten(SetMsg(e, nonce, m)) + rest) == (Got(m), |Flatten(SetMsg(e, nonce, m))|)
  {
    hide ParseMsg, Encode;
    MessageRoundTrip(e.key, nonce, ToWire(e, m), rest, None);
    SetMsgRoundTrip(e, m);
  }
}
