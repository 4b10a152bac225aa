/** The VPN tunnel: a byte stream cut into chunks, each sent as one message. Client to server it is
    ConnVPNQ2 messages, server to client ConnVPNA2 messages among others on the same wire. */
module Tunnel {
  import opened Bytes
  import opened Codec
  import opened Message
  import H = Handler
  import opened StreamReader
  import opened Writers

  const UP := "ConnVPNQ2"
  const DOWN := "ConnVPNA2"

  function DataMsg(header: string, chunk: seq<byte>): ConnMsg {
    ConnMsg(header, 200, Raw(chunk), "")
  }

  datatype End = NotRead(error: ReadError) | Panicked | NotBytes | BadHeader | BadCode

  datatype Opened = Piece(bytes: seq<byte>) | Ended(why: End)

  /** `CheckConnMsgHeaderAndCode(header, 200)`. */
  function Check(m: ConnMsg, header: string): Option<End> {
    if m.header != header then Some(BadHeader)
    else if m.code != 200 then Some(BadCode)
    else None
  }

  /** The server's `linkReadFn` on a message it has read: the data first, then the header. */
  function OpenUp(e: Env, w: WireMsg): Opened {
    match FromWire(e, w)
    case Failed(err) => Ended(NotRead(err))
    case Panics => Ended(Panicked)
    case Got(m) =>
      var b := UnmarshalBytes(e, m.data);
      if b.None? then Ended(NotBytes)
      else if Check(m, UP).Some? then Ended(Check(m, UP).value)
      else Piece(b.value)
  }

  /** The client's `noCbFn`: the header first, then the data. */
  function OpenDown(e: Env, w: WireMsg): Opened {
    match FromWire(e, w)
    case Failed(err) => Ended(NotRead(err))
    case Panics => Ended(Panicked)
    case Got(m) =>
      var b := UnmarshalBytes(e, m.data);
      if Check(m, DOWN).Some? then Ended(Check(m, DOWN).value)
      else if b.None? then Ended(NotBytes)
      else Piece(b.value)
  }

  lemma DataOpens(e: Env, chunk: seq<byte>)
    requires ValidEnv(e)
    ensures OpenUp(e, ToWire(e, DataMsg(UP, chunk))) == Piece(chunk)
    ensures OpenDown(e, ToWire(e, DataMsg(DOWN, chunk))) == Piece(chunk)
  {
    SetMsgRoundTrip(e, DataMsg(UP, chunk));
    SetMsgRoundTrip(e, DataMsg(DOWN, chunk));
  }

  // ---- What a message carries, said on its fields ------------------------------------------------

  predicate Tagged(w: WireMsg) { w.data.Obj? && w.data.tag.Some? }

  /** The data of the message is the byte slice b. */
  predicate Carries(e: Env, w: WireMsg, b: seq<byte>) {
    if Tagged(w) then w.data.tag.value.Str? && e.decode64(w.data.tag.value.text) == Some(b)
    else e.jsonToBytes(w.data) == Some(b)
  }

  /** It carries the tag but not base64: the reader panics. */
  ghost predicate Malformed(e: Env, w: WireMsg) {
    Tagged(w) && forall b :: !Carries(e, w, b)
  }

  ghost predicate IsDataFor(e: Env, header: string, w: WireMsg, b: seq<byte>) {
    w.header == header && w.code == 200 && Carries(e, w, b)
  }

  /** Why a message upstream ends the tunnel: the server looks at the data first. */
  ghost predicate EndsUp(e: Env, w: WireMsg, why: End) {
    match why
    case Panicked => Malformed(e, w)
    case NotBytes => !Malformed(e, w) && forall b :: !Carries(e, w, b)
    case BadHeader => w.header != UP && exists b :: Carries(e, w, b)
    case BadCode => w.header == UP && w.code != 200 && exists b :: Carries(e, w, b)
    case NotRead(_) => false
  }

  /** Why a message downstream does: the client looks at header and code first. */
  ghost predicate EndsDown(e: Env, w: WireMsg, why: End) {
    match why
    case Panicked => Malformed(e, w)
    case BadHeader => !Malformed(e, w) && w.header != DOWN
    case BadCode => !Malformed(e, w) && w.header == DOWN && w.code != 200
    case NotBytes => !Malformed(e, w) && w.header == DOWN && w.code == 200 && forall b :: !Carries(e, w, b)
    case NotRead(_) => false
  }

  lemma CarriedBytes(e: Env, w: WireMsg)
    ensures match FromWire(e, w)
      case Panics => Malformed(e, w)
      case Failed(_) => false
      case Got(m) =>
        && !Malformed(e, w) && m.header == w.header && m.code == w.code
        && forall b :: Carries(e, w, b) <==> UnmarshalBytes(e, m.data) == Some(b)
  {
    if FromWire(e, w).Got? && Tagged(w) {
      assert Carries(e, w, e.decode64(w.data.tag.value.text).value);
    }
  }

  lemma OpensUp(e: Env, w: WireMsg)
    ensures match OpenUp(e, w)
      case Piece(b) => IsDataFor(e, UP, w, b)
      case Ended(why) => EndsUp(e, w, why)
  {
    CarriedBytes(e, w);
    hide FromWire, Malformed, Carries, UnmarshalBytes;
    if FromWire(e, w).Got? {
      var u := UnmarshalBytes(e, FromWire(e, w).msg.data);
      if u.Some? { assert Carries(e, w, u.value); }
    }
  }

  lemma OpensDown(e: Env, w: WireMsg)
    ensures match OpenDown(e, w)
      case Piece(b) => IsDataFor(e, DOWN, w, b)
      case Ended(why) => EndsDown(e, w, why)
    ensures FromWire(e, w).Panics? <==> Malformed(e, w)
  {
    CarriedBytes(e, w);
    hide FromWire, Malformed, Carries, UnmarshalBytes;
    if FromWire(e, w).Got? {
      var u := UnmarshalBytes(e, FromWire(e, w).msg.data);
      if u.Some? { assert Carries(e, w, u.value); }
    }
  }

  predicate Sized(chunks: seq<seq<byte>>, max: nat) {
    forall i | 0 <= i < |chunks| :: 0 < |chunks[i]| <= max
  }

  lemma SizedSnoc(chunks: seq<seq<byte>>, b: seq<byte>, max: nat)
    requires Sized(chunks, max) && 0 < |b| <= max
    ensures Sized(chunks + [b], max)
  {
  }

  /** How either end cuts its source: `readLinkConn` by its `linkWriteFn`, the client by its copying
      goroutine. One chunk per `Read`, until the source ends. */
  method Cut(rd: BufReader) returns (chunks: seq<seq<byte>>)
    requires rd.Valid()
    modifies rd, rd.buf
    ensures Flatten(chunks) == old(rd.Stream())
    ensures Sized(chunks, rd.buf.Length)
  {
    chunks := [];
    ghost var done: seq<byte> := [];
    assert Flatten(chunks) == done && 0 < rd.buf.Length && Sized(chunks, rd.buf.Length);
    hide *;
    while true
      invariant rd.Valid() && done + rd.Stream() == old(rd.Stream()) && Flatten(chunks) == done
      invariant Sized(chunks, rd.buf.Length)
      decreases |rd.Stream()|
    {
      ghost var rest := rd.Stream();
      var b := rd.Read(rd.buf.Length);
      assert |rest| == |b| + |rd.Stream()|;
      if b == [] { return; }
      FlattenSnoc(chunks, b);
      SizedSnoc(chunks, b, rd.buf.Length);
      Assoc(done, b, rd.Stream());
      done := done + b;
      chunks := chunks + [b];
    }
  }

  // ---- Client to server --------------------------------------------------------------------------

  /** What the server's relay loop writes to the far connection from the stream s, and why it stops. */
  datatype Relayed = Relayed(bytes: seq<byte>, why: End)

  function Upstream(e: Env, s: seq<byte>): Relayed
    decreases |s|
  {
    var p := ParseMsg(e.key, s, None);
    match p.outcome
    case Fail(err) => Relayed([], NotRead(err))
    case Msg(w) =>
      match OpenUp(e, w)
      case Ended(why) => Relayed([], why)
      case Piece(b) =>
        var r := Upstream(e, s[p.used..]);
        Relayed(b + r.bytes, r.why)
  }

  ghost predicate Goes(whole: Relayed, out: seq<byte>, rest: Relayed) {
    whole == Relayed(out + rest.bytes, rest.why)
  }

  lemma UpStep(e: Env, s: seq<byte>)
    ensures var p := ParseMsg(e.key, s, None);
      match p.outcome
      case Fail(err) => Upstream(e, s) == Relayed([], NotRead(err))
      case Msg(w) =>
        match OpenUp(e, w)
        case Ended(why) => Upstream(e, s) == Relayed([], why)
        case Piece(b) => Goes(Upstream(e, s), b, Upstream(e, s[p.used..]))
  {
    hide ParseMsg, OpenUp;
  }

  lemma GoesStarts(r: Relayed)
    ensures Goes(r, [], r)
  {
    assert [] + r.bytes == r.bytes;
  }

  lemma GoesTwice(whole: Relayed, out: seq<byte>, r: Relayed, b: seq<byte>, rest: Relayed)
    requires Goes(whole, out, r) && Goes(r, b, rest)
    ensures Goes(whole, out + b, rest)
  {
    Assoc(out, b, rest.bytes);
  }

  lemma GoesEnds(whole: Relayed, out: seq<byte>, why: End)
    requires Goes(whole, out, Relayed([], why))
    ensures whole == Relayed(out, why)
  {
    assert out + [] == out;
  }

  /** The first |parts| messages are data, the parts theirs. */
  ghost predicate AllData(e: Env, ws: seq<WireMsg>, parts: seq<seq<byte>>) {
    |parts| <= |ws| && forall i | 0 <= i < |parts| :: IsDataFor(e, UP, ws[i], parts[i])
  }

  /** The far side is given the data of the messages up to the first that is none, and that one says why it
      ends; if there is none, reading failed with err. */
  ghost predicate RelaysData(e: Env, ws: seq<WireMsg>, err: ReadError, r: Relayed) {
    exists parts ::
      && AllData(e, ws, parts) && r.bytes == Flatten(parts)
      && if |parts| == |ws| then r.why == NotRead(err) else EndsUp(e, ws[|parts|], r.why)
  }

  lemma RelaysOne(e: Env, w: WireMsg, b: seq<byte>, ws: seq<WireMsg>, err: ReadError, r: Relayed)
    requires IsDataFor(e, UP, w, b) && RelaysData(e, ws, err, r)
    ensures RelaysData(e, [w] + ws, err, Relayed(b + r.bytes, r.why))
  {
    hide IsDataFor, EndsUp, Flatten;
    var parts :| AllData(e, ws, parts) && r.bytes == Flatten(parts)
      && if |parts| == |ws| then r.why == NotRead(err) else EndsUp(e, ws[|parts|], r.why);
    FlattenCons(b, parts);
    AllDataCons(e, w, b, ws, parts);
    hide AllData;
    assert |parts| < |ws| ==> ([w] + ws)[|[b] + parts|] == ws[|parts|];
  }

  lemma AllDataCons(e: Env, w: WireMsg, b: seq<byte>, ws: seq<WireMsg>, parts: seq<seq<byte>>)
    requires IsDataFor(e, UP, w, b) && AllData(e, ws, parts)
    ensures AllData(e, [w] + ws, [b] + parts)
  {
    hide IsDataFor;
    forall i | 0 <= i < |parts| + 1 ensures IsDataFor(e, UP, ([w] + ws)[i], ([b] + parts)[i]) {
      if i > 0 { assert IsDataFor(e, UP, ws[i - 1], parts[i - 1]); }
    }
  }

  lemma RelaysNone(e: Env, ws: seq<WireMsg>, err: ReadError, r: Relayed)
    requires r.bytes == [] && if ws == [] then r.why == NotRead(err) else EndsUp(e, ws[0], r.why)
    ensures RelaysData(e, ws, err, r)
  {
    assert AllData(e, ws, []) && Flatten([]) == [];
  }

  /** The upstream relay, said on the messages the stream holds. */
  lemma {:induction false} UpstreamExactly(e: Env, s: seq<byte>)
    ensures var all := ParseAll(e.key, s);
      RelaysData(e, all.msgs, all.error, Upstream(e, s))
    decreases |s|
  {
    hide ParseMsg, ParseAll, OpenUp, RelaysData, Upstream, IsDataFor, EndsUp;
    var all := ParseAll(e.key, s);
    var p := ParseMsg(e.key, s, None);
    UpStep(e, s);
    AllStep(e.key, s);
    if p.outcome.Fail? {
      RelaysNone(e, all.msgs, all.error, Upstream(e, s));
    } else {
      var w := p.outcome.msg;
      OpensUp(e, w);
      if OpenUp(e, w).Piece? {
        UpstreamExactly(e, s[p.used..]);
        var rest := ParseAll(e.key, s[p.used..]);
        RelaysOne(e, w, OpenUp(e, w).bytes, rest.msgs, rest.error, Upstream(e, s[p.used..]));
      } else {
        RelaysNone(e, all.msgs, all.error, Upstream(e, s));
      }
    }
  }

  /** The loop of `tcpHandler` once a VPN link is set up, over `WriteLinkBoxFromReader`. */
  method RelayUp(e: Env, rd: BufReader) returns (out: seq<byte>, why: End)
    requires rd.Valid() && rd.buf.Length == BUFFER_SIZE
    modifies rd, rd.buf
    ensures Relayed(out, why) == Upstream(e, old(rd.Stream()))
    ensures var all := ParseAll(e.key, old(rd.Stream()));
      RelaysData(e, all.msgs, all.error, Relayed(out, why))
  {
    hide *;
    ghost var whole := Upstream(e, rd.Stream());
    UpstreamExactly(e, rd.Stream());
    out := [];
    GoesStarts(whole);
    while true
      invariant rd.Valid() && rd.buf.Length == BUFFER_SIZE
      invariant Goes(whole, out, Upstream(e, rd.Stream()))
      decreases |rd.Stream()|
    {
      ghost var here := Upstream(e, rd.Stream());
      UpStep(e, rd.Stream());
      var o, n := ReadCMsg(e.key, rd, None);
      if o.Fail? {
        GoesEnds(whole, out, NotRead(o.error));
        return out, NotRead(o.error);
      }
      var x := OpenUp(e, o.msg);
      if x.Ended? {
        GoesEnds(whole, out, x.why);
        return out, x.why;
      }
      GoesTwice(whole, out, here, x.bytes, Upstream(e, rd.Stream()));
      out := out + x.bytes;
    }
  }

  function DataMsgs(e: Env, header: string, chunks: seq<seq<byte>>): (ws: seq<WireMsg>)
    ensures |ws| == |chunks|
  {
    seq(|chunks|, i requires 0 <= i < |chunks| => ToWire(e, DataMsg(header, chunks[i])))
  }

  /** What `writeFromCopyConn` has put on the wire for these chunks. */
  ghost predicate Sends(e: Env, nonces: seq<nat>, chunks: seq<seq<byte>>) {
    && ValidEnv(e) && |nonces| == |chunks|
    && forall i | 0 <= i < |chunks| :: Fits(e.key, DataMsgs(e, UP, chunks)[i])
  }

  ghost function UpWire(e: Env, nonces: seq<nat>, chunks: seq<seq<byte>>): seq<byte>
    requires Sends(e, nonces, chunks)
  {
    Wire(e.key, nonces, DataMsgs(e, UP, chunks))
  }

  ghost function First(e: Env, nonces: seq<nat>, chunks: seq<seq<byte>>): seq<seq<byte>>
    requires Sends(e, nonces, chunks) && chunks != []
  {
    SendsTail(e, nonces, chunks);
    Encode(e.key, nonces[0], ToWire(e, DataMsg(UP, chunks[0])))
  }

  lemma SendsTail(e: Env, nonces: seq<nat>, chunks: seq<seq<byte>>)
    requires Sends(e, nonces, chunks) && chunks != []
    ensures Sends(e, nonces[1..], chunks[1..])
    ensures Fits(e.key, ToWire(e, DataMsg(UP, chunks[0])))
    ensures DataMsgs(e, UP, chunks)[1..] == DataMsgs(e, UP, chunks[1..])
    ensures DataMsgs(e, UP, chunks)[0] == ToWire(e, DataMsg(UP, chunks[0]))
  {
    hide Fits, ToWire;
    var ws := DataMsgs(e, UP, chunks);
    forall i | 0 <= i < |chunks| - 1 ensures Fits(e.key, DataMsgs(e, UP, chunks[1..])[i]) {
      assert Fits(e.key, ws[i + 1]);
    }
    assert Fits(e.key, ws[0]);
  }

  lemma UpWireSplits(e: Env, nonces: seq<nat>, chunks: seq<seq<byte>>)
    requires Sends(e, nonces, chunks) && chunks != []
    ensures Sends(e, nonces[1..], chunks[1..])
    ensures UpWire(e, nonces, chunks) == Flatten(First(e, nonces, chunks)) + UpWire(e, nonces[1..], chunks[1..])
  {
    hide Encode, ToWire, Fits;
    SendsTail(e, nonces, chunks);
  }

  /** How many of the chunks' messages are wholly within the first n bytes of the wire. */
  ghost function ChunksArrived(e: Env, nonces: seq<nat>, chunks: seq<seq<byte>>, n: nat): (c: nat)
    requires Sends(e, nonces, chunks)
    ensures c <= |chunks|
  {
    Arrived(e.key, nonces, DataMsgs(e, UP, chunks), n)
  }

  lemma ChunksArrivedStep(e: Env, nonces: seq<nat>, chunks: seq<seq<byte>>, n: nat)
    requires Sends(e, nonces, chunks)
    ensures chunks == [] ==> ChunksArrived(e, nonces, chunks, n) == 0
    ensures chunks != [] ==>
      var len := |Flatten(First(e, nonces, chunks))|;
      && |nonces| > 0 && Sends(e, nonces[1..], chunks[1..])
      && ChunksArrived(e, nonces, chunks, n)
         == if n < len then 0 else 1 + ChunksArrived(e, nonces[1..], chunks[1..], n - len)
  {
    if chunks != [] { SendsTail(e, nonces, chunks); }
    hide Encode, ToWire, Fits, Flatten;
  }

  /** One message, then the rest. */
  lemma UpOne(e: Env, nonces: seq<nat>, chunks: seq<seq<byte>>, rest: seq<byte>)
    requires Sends(e, nonces, chunks) && chunks != []
    ensures var r := Upstream(e, rest);
      Upstream(e, Flatten(First(e, nonces, chunks)) + rest) == Relayed(chunks[0] + r.bytes, r.why)
  {
    hide Encode, ParseMsg, Flatten, OpenUp, ToWire, Fits;
    SendsTail(e, nonces, chunks);
    var fs := First(e, nonces, chunks);
    MessageRoundTrip(e.key, nonces[0], ToWire(e, DataMsg(UP, chunks[0])), rest, None);
    DataOpens(e, chunks[0]);
    assert (Flatten(fs) + rest)[|Flatten(fs)|..] == rest;
  }

  /** A message cut short is waited for. */
  lemma UpPartial(e: Env, nonces: seq<nat>, chunks: seq<seq<byte>>, n: nat)
    requires Sends(e, nonces, chunks) && chunks != [] && n < |Flatten(First(e, nonces, chunks))|
    ensures Upstream(e, Flatten(First(e, nonces, chunks))[..n]) == Relayed([], NotRead(TransportEnded))
  {
    hide Encode, ParseFrom, Flatten, OpenUp, ToWire, Fits;
    SendsTail(e, nonces, chunks);
    EncodedFrames(e.key, nonces[0], ToWire(e, DataMsg(UP, chunks[0])));
    PartialMessageWaits(e.key, First(e, nonces, chunks), n, 0, []);
  }

  lemma NothingUp(e: Env)
    ensures Upstream(e, []) == Relayed([], NotRead(TransportEnded))
  {
  }

  /** The far side is given exactly the chunks that arrived whole within the first n bytes. */
  ghost predicate GivesArrived(e: Env, nonces: seq<nat>, chunks: seq<seq<byte>>, n: nat)
    requires Sends(e, nonces, chunks) && n <= |UpWire(e, nonces, chunks)|
  {
    var c := ChunksArrived(e, nonces, chunks, n);
    && Upstream(e, UpWire(e, nonces, chunks)[..n]) == Relayed(Flatten(chunks[..c]), NotRead(TransportEnded))
    && (n == |UpWire(e, nonces, chunks)| ==> c == |chunks|)
  }

  lemma NoChunks(e: Env, nonces: seq<nat>, chunks: seq<seq<byte>>, n: nat)
    requires Sends(e, nonces, chunks) && chunks == [] && n <= |UpWire(e, nonces, chunks)|
    ensures GivesArrived(e, nonces, chunks, n)
  {
    ChunksArrivedStep(e, nonces, chunks, n);
    NothingUp(e);
    UpWireEmpty(e, nonces, chunks);
    FlattenTakeNone(chunks);
    hide Sends, UpWire, Upstream, ChunksArrived, Flatten;
    assert UpWire(e, nonces, chunks)[..n] == [];
  }

  lemma FirstCut(e: Env, nonces: seq<nat>, chunks: seq<seq<byte>>, n: nat)
    requires Sends(e, nonces, chunks) && chunks != [] && n < |Flatten(First(e, nonces, chunks))|
    ensures n < |UpWire(e, nonces, chunks)| && GivesArrived(e, nonces, chunks, n)
  {
    ChunksArrivedStep(e, nonces, chunks, n);
    UpWireSplits(e, nonces, chunks);
    UpPartial(e, nonces, chunks, n);
    FlattenTakeNone(chunks);
    SendsLengths(e, nonces, chunks);
    TakeInFirst(Flatten(First(e, nonces, chunks)), UpWire(e, nonces[1..], chunks[1..]), n);
    hide Sends, UpWire, Upstream, ChunksArrived, Flatten, First;
  }

  /** The relay gives the first chunk, and then goes on with the rest of the wire. */
  lemma FirstWholeUp(e: Env, nonces: seq<nat>, chunks: seq<seq<byte>>, n: nat)
    requires Sends(e, nonces, chunks) && chunks != [] && n <= |UpWire(e, nonces, chunks)|
    requires |nonces| > 0 && Sends(e, nonces[1..], chunks[1..])
    ensures var len := |Flatten(First(e, nonces, chunks))|;
      && |UpWire(e, nonces, chunks)| == len + |UpWire(e, nonces[1..], chunks[1..])|
      && (len <= n ==>
           var r := Upstream(e, UpWire(e, nonces[1..], chunks[1..])[..n - len]);
           Upstream(e, UpWire(e, nonces, chunks)[..n]) == Relayed(chunks[0] + r.bytes, r.why))
  {
    hide *;
    UpWireSplits(e, nonces, chunks);
    var first, rest := Flatten(First(e, nonces, chunks)), UpWire(e, nonces[1..], chunks[1..]);
    if |first| <= n {
      TakePast(first, rest, n);
      UpOne(e, nonces, chunks, rest[..n - |first|]);
    }
  }

  lemma FirstWhole(e: Env, nonces: seq<nat>, chunks: seq<seq<byte>>, n: nat)
    requires Sends(e, nonces, chunks) && chunks != [] && |Flatten(First(e, nonces, chunks))| <= n
    requires n <= |UpWire(e, nonces, chunks)|
    requires |nonces| > 0 && Sends(e, nonces[1..], chunks[1..])
    requires n - |Flatten(First(e, nonces, chunks))| <= |UpWire(e, nonces[1..], chunks[1..])|
    requires GivesArrived(e, nonces[1..], chunks[1..], n - |Flatten(First(e, nonces, chunks))|)
    ensures GivesArrived(e, nonces, chunks, n)
  {
    hide Sends, UpWire, Upstream, ChunksArrived, Flatten, First;
    ChunksArrivedStep(e, nonces, chunks, n);
    FirstWholeUp(e, nonces, chunks, n);
    FlattenTake(chunks, ChunksArrived(e, nonces, chunks, n));
  }

  lemma {:induction false} AllArrived(e: Env, nonces: seq<nat>, chunks: seq<seq<byte>>, n: nat)
    requires Sends(e, nonces, chunks) && n <= |UpWire(e, nonces, chunks)|
    ensures GivesArrived(e, nonces, chunks, n)
    decreases |chunks|
  {
    hide *;
    if chunks == [] {
      NoChunks(e, nonces, chunks, n);
    } else {
      UpWireSplits(e, nonces, chunks);
      SendsLengths(e, nonces, chunks);
      if n < |Flatten(First(e, nonces, chunks))| {
        FirstCut(e, nonces, chunks, n);
      } else {
        AllArrived(e, nonces[1..], chunks[1..], n - |Flatten(First(e, nonces, chunks))|);
        FirstWhole(e, nonces, chunks, n);
      }
    }
  }

  /** The tunnel upstream, for every cutting of the source into chunks and however much of the wire
      has arrived: the far side is given the chunks that arrived whole, once each and in order. */
  lemma UpstreamPreserved(e: Env, nonces: seq<nat>, chunks: seq<seq<byte>>, n: nat)
    requires Sends(e, nonces, chunks) && n <= |UpWire(e, nonces, chunks)|
    ensures var c := ChunksArrived(e, nonces, chunks, n);
      && Upstream(e, UpWire(e, nonces, chunks)[..n]) == Relayed(Flatten(chunks[..c]), NotRead(TransportEnded))
      && (n == |UpWire(e, nonces, chunks)| ==> c == |chunks|)
  {
    AllArrived(e, nonces, chunks, n);
    hide Sends, UpWire, Upstream, ChunksArrived, Flatten;
  }

  lemma SendsLengths(e: Env, nonces: seq<nat>, chunks: seq<seq<byte>>)
    requires Sends(e, nonces, chunks)
    ensures |nonces| == |chunks|
  {
  }

  lemma UpWireEmpty(e: Env, nonces: seq<nat>, chunks: seq<seq<byte>>)
    requires Sends(e, nonces, chunks) && chunks == []
    ensures UpWire(e, nonces, chunks) == []
  {
  }

  /** From the client's first byte: its request is served as a message, and the handler, which then finds the
      switch it has set itself, hands the tunnel data and nothing else to the relay. */
  lemma TunnelFromTheStart(e: Env, nonce: nat, q1: WireMsg, nonces: seq<nat>, chunks: seq<seq<byte>>, n: nat)
    requires Sends(e, nonces, chunks) && Fits(e.key, q1) && n <= |UpWire(e, nonces, chunks)|
    ensures var s := Wire(e.key, [nonce], [q1]) + UpWire(e, nonces, chunks)[..n];
      var r := H.Serve(e.key, s, H.AtTop(1), 0);
      && r.msgs == [q1]
      && Upstream(e, s[r.used..])
         == Relayed(Flatten(chunks[..ChunksArrived(e, nonces, chunks, n)]), NotRead(TransportEnded))
  {
    var raw := UpWire(e, nonces, chunks)[..n];
    assert ValidEnv(e) && Valid(e.key);
    hide *;
    assert Fits(e.key, [q1][0]);
    H.ConformingHandover(e.key, [nonce], [q1], raw, H.AtTop(1));
    UpstreamPreserved(e, nonces, chunks, n);
  }

  // ---- Server to client --------------------------------------------------------------------------

  /** What the client's copied connection has been given, and whether (and why) the client closed. */
  datatype ClientState = ClientState(written: seq<byte>, closed: Option<End>)

  /** Message w, the i-th: it goes to the task with its id if there is one then, else to `noCbFn`. */
  function Handle(e: Env, task: (nat, string) -> bool, st: ClientState, i: nat, w: WireMsg): ClientState {
    if st.closed.Some? then st
    else if FromWire(e, w).Panics? then st.(closed := Some(Panicked))
    else if task(i, w.id) then st
    else
      match OpenDown(e, w)
      case Ended(why) => st.(closed := Some(why))
      case Piece(b) => st.(written := st.written + b)
  }

  function Downstream(e: Env, task: (nat, string) -> bool, ws: seq<WireMsg>): ClientState {
    if ws == [] then ClientState([], None)
    else
      var n := |ws| - 1;
      Handle(e, task, Downstream(e, task, ws[..n]), n, ws[n])
  }

  lemma {:induction false} ClosedStays(e: Env, task: (nat, string) -> bool, ws: seq<WireMsg>, i: nat)
    requires i <= |ws| && Downstream(e, task, ws[..i]).closed.Some?
    ensures Downstream(e, task, ws) == Downstream(e, task, ws[..i])
  {
    hide OpenDown;
    if i == |ws| {
      assert ws[..i] == ws;
    } else {
      var n := |ws| - 1;
      assert ws[..n][..i] == ws[..i];
      ClosedStays(e, task, ws[..n], i);
    }
  }

  lemma DownSnoc(e: Env, task: (nat, string) -> bool, ws: seq<WireMsg>, w: WireMsg)
    ensures Downstream(e, task, ws + [w]) == Handle(e, task, Downstream(e, task, ws), |ws|, w)
  {
    hide Handle;
    assert (ws + [w])[..|ws|] == ws;
  }

  /** The i-th message leaves the client open, and makes it write b: it goes to its task, or it is data. */
  ghost predicate Passes(e: Env, task: (nat, string) -> bool, i: nat, w: WireMsg, b: seq<byte>) {
    !Malformed(e, w) && if task(i, w.id) then b == [] else IsDataFor(e, DOWN, w, b)
  }

  /** ... or closes it. */
  ghost predicate Closes(e: Env, task: (nat, string) -> bool, i: nat, w: WireMsg, why: End) {
    EndsDown(e, w, why) && (task(i, w.id) ==> why == Panicked)
  }

  ghost predicate AllPass(e: Env, task: (nat, string) -> bool, ws: seq<WireMsg>, parts: seq<seq<byte>>) {
    |parts| <= |ws| && forall i | 0 <= i < |parts| :: Passes(e, task, i, ws[i], parts[i])
  }

  /** After the messages ws: the client has written the data of those up to the first that closes it, and
      that one says why; if there is none, it is open. */
  ghost predicate Handled(e: Env, task: (nat, string) -> bool, ws: seq<WireMsg>, st: ClientState) {
    exists parts ::
      && AllPass(e, task, ws, parts) && st.written == Flatten(parts)
      && if |parts| == |ws| then st.closed.None?
         else st.closed.Some? && Closes(e, task, |parts|, ws[|parts|], st.closed.value)
  }

  lemma HandleExactly(e: Env, task: (nat, string) -> bool, st: ClientState, i: nat, w: WireMsg)
    requires st.closed.None?
    ensures var r := Handle(e, task, st, i, w);
      if r.closed.Some? then r.written == st.written && Closes(e, task, i, w, r.closed.value)
      else exists b :: Passes(e, task, i, w, b) && r.written == st.written + b
  {
    OpensDown(e, w);
    hide FromWire, OpenDown, Malformed, IsDataFor;
    assert st.written + [] == st.written;
    if OpenDown(e, w).Piece? && !FromWire(e, w).Panics? && !task(i, w.id) {
      assert Passes(e, task, i, w, OpenDown(e, w).bytes);
    } else if !FromWire(e, w).Panics? && task(i, w.id) {
      assert Passes(e, task, i, w, []);
    } else if FromWire(e, w).Panics? {
      PanicEnds(e, w);
    }
  }

  lemma PanicEnds(e: Env, w: WireMsg)
    requires Malformed(e, w)
    ensures EndsDown(e, w, Panicked)
  {
  }

  lemma HandledMore(e: Env, task: (nat, string) -> bool, ws: seq<WireMsg>, w: WireMsg, st: ClientState, r: ClientState)
    requires Handled(e, task, ws, st)
    requires st.closed.Some? ==> r == st
    requires st.closed.None? ==>
      if r.closed.Some? then r.written == st.written && Closes(e, task, |ws|, w, r.closed.value)
      else exists b :: Passes(e, task, |ws|, w, b) && r.written == st.written + b
    ensures Handled(e, task, ws + [w], r)
  {
    hide Passes, Closes, Flatten;
    var parts :| AllPass(e, task, ws, parts) && st.written == Flatten(parts)
      && if |parts| == |ws| then st.closed.None?
         else st.closed.Some? && Closes(e, task, |parts|, ws[|parts|], st.closed.value);
    assert AllPass(e, task, ws + [w], parts);
    if st.closed.None? && r.closed.None? {
      var b :| Passes(e, task, |ws|, w, b) && r.written == st.written + b;
      FlattenSnoc(parts, b);
      assert AllPass(e, task, ws + [w], parts + [b]);
    }
  }

  lemma HandledNothing(e: Env, task: (nat, string) -> bool)
    ensures Handled(e, task, [], ClientState([], None))
  {
    assert AllPass(e, task, [], []) && Flatten([]) == [];
  }

  /** The client, for any messages and tasks: said on headers, codes and data. */
  lemma {:induction false} ClientExactly(e: Env, task: (nat, string) -> bool, ws: seq<WireMsg>)
    ensures Handled(e, task, ws, Downstream(e, task, ws))
  {
    hide *;
    if ws == [] {
      NothingDown(e, task, ws);
      HandledNothing(e, task);
    } else {
      var n := |ws| - 1;
      ClientExactly(e, task, ws[..n]);
      assert ws == ws[..n] + [ws[n]];
      DownSnoc(e, task, ws[..n], ws[n]);
      var st := Downstream(e, task, ws[..n]);
      if st.closed.None? { HandleExactly(e, task, st, n, ws[n]); } else { ClosedIgnores(e, task, st, n, ws[n]); }
      HandledMore(e, task, ws[..n], ws[n], st, Downstream(e, task, ws));
    }
  }

  lemma ClosedIgnores(e: Env, task: (nat, string) -> bool, st: ClientState, i: nat, w: WireMsg)
    requires st.closed.Some?
    ensures Handle(e, task, st, i, w) == st
  {
  }

  /** The message neither finds a task nor is data, or has a malformed tag. */
  ghost predicate PassesNot(e: Env, task: (nat, string) -> bool, i: nat, w: WireMsg) {
    forall b :: !Passes(e, task, i, w, b)
  }

  lemma ClosesNotPasses(e: Env, task: (nat, string) -> bool, i: nat, w: WireMsg, why: End)
    requires Closes(e, task, i, w, why)
    ensures PassesNot(e, task, i, w)
  {
  }

  /** So the client is closed exactly if there is such a message. */
  lemma ClosedExactly(e: Env, task: (nat, string) -> bool, ws: seq<WireMsg>)
    ensures Downstream(e, task, ws).closed.Some?
      <==> exists i | 0 <= i < |ws| :: PassesNot(e, task, i, ws[i])
  {
    var st := Downstream(e, task, ws);
    ClientExactly(e, task, ws);
    hide Downstream, Flatten, Passes, Closes;
    var parts :| AllPass(e, task, ws, parts) && st.written == Flatten(parts)
      && if |parts| == |ws| then st.closed.None?
         else st.closed.Some? && Closes(e, task, |parts|, ws[|parts|], st.closed.value);
    if st.closed.None? {
      forall i | 0 <= i < |ws| ensures !PassesNot(e, task, i, ws[i]) { assert Passes(e, task, i, ws[i], parts[i]); }
    } else {
      ClosesNotPasses(e, task, |parts|, ws[|parts|], st.closed.value);
    }
  }

  /** How the reading goroutine leaves the client, having read all. */
  ghost predicate Listened(e: Env, task: (nat, string) -> bool, all: AllRead<WireMsg>, t: ClientState) {
    var st := Downstream(e, task, all.msgs);
    && Handled(e, task, all.msgs, st) && t.written == st.written
    && t.closed == if st.closed.Some? then st.closed else Some(NotRead(all.error))
  }

  /** The messages ms are handled, and those of rest are left. */
  ghost predicate Midway(e: Env, task: (nat, string) -> bool, all: AllRead<WireMsg>, ms: seq<WireMsg>, used: nat,
                         st: ClientState, rest: AllRead<WireMsg>)
  {
    AllAhead(all, ms, used, rest) && st == Downstream(e, task, ms)
  }

  lemma MidwayStarts(e: Env, task: (nat, string) -> bool, s: seq<byte>)
    ensures var all := ParseAll(e.key, s); Midway(e, task, all, [], 0, ClientState([], None), all)
  {
    hide ParseAll, AllAhead, Downstream;
    NothingDown(e, task, []);
    AllAheadStarts(ParseAll(e.key, s));
  }

  lemma MidwayMore(e: Env, task: (nat, string) -> bool, all: AllRead<WireMsg>, ms: seq<WireMsg>, used: nat,
                   st: ClientState, s: seq<byte>, w: WireMsg)
    requires Midway(e, task, all, ms, used, st, ParseAll(e.key, s)) && ParseMsg(e.key, s, None).outcome == Msg(w)
    ensures var n := ParseMsg(e.key, s, None).used;
      Midway(e, task, all, ms + [w], used + n, Handle(e, task, st, |ms|, w), ParseAll(e.key, s[n..]))
  {
    hide ParseMsg, ParseAll, AllAhead, Downstream, Handle;
    var n := ParseMsg(e.key, s, None).used;
    AllStep(e.key, s);
    DownSnoc(e, task, ms, w);
    AllAheadTwice(all, ms, used, ParseAll(e.key, s), w, n, ParseAll(e.key, s[n..]));
  }

  lemma MidwayFails(e: Env, task: (nat, string) -> bool, all: AllRead<WireMsg>, ms: seq<WireMsg>, used: nat,
                    st: ClientState, s: seq<byte>, err: ReadError)
    requires Midway(e, task, all, ms, used, st, ParseAll(e.key, s)) && st.closed.None?
    requires ParseMsg(e.key, s, None).outcome == Fail(err)
    ensures Listened(e, task, all, st.(closed := Some(NotRead(err))))
  {
    hide ParseMsg, ParseAll, AllAhead, Downstream, Handled;
    AllStep(e.key, s);
    AllAheadEnds(all, ms, used, err, ParseMsg(e.key, s, None).used);
    ClientExactly(e, task, ms);
  }

  lemma MidwayCloses(e: Env, task: (nat, string) -> bool, all: AllRead<WireMsg>, ms: seq<WireMsg>, used: nat,
                     st: ClientState, rest: AllRead<WireMsg>)
    requires Midway(e, task, all, ms, used, st, rest) && st.closed.Some?
    ensures Listened(e, task, all, st)
  {
    hide AllAhead, Downstream, Handled;
    MessagesRead(all, ms, used, rest);
    ClosedStays(e, task, all.msgs, |ms|);
    ClientExactly(e, task, all.msgs);
  }

  class LinkClient {
    var written: seq<byte>
    var closed: Option<End>

    constructor ()
      ensures State() == ClientState([], None)
    {
      written, closed := [], None;
    }

    function State(): ClientState reads this { ClientState(written, closed) }

    /** `getTaskAndRun` with the `noCbFn` that `LinkClient.handleCMsg` installs. */
    method HandleCMsg(e: Env, task: (nat, string) -> bool, i: nat, w: WireMsg)
      requires closed.None?
      modifies this
      ensures State() == Handle(e, task, old(State()), i, w)
      ensures if closed.Some? then written == old(written) && Closes(e, task, i, w, closed.value)
              else exists b :: Passes(e, task, i, w, b) && written == old(written) + b
    {
      HandleExactly(e, task, State(), i, w);
      hide OpenDown, Closes, Passes;
      if FromWire(e, w).Panics? {
        closed := Some(Panicked);
      } else if !task(i, w.id) {
        var x := OpenDown(e, w);
        if x.Ended? { closed := Some(x.why); } else { written := written + x.bytes; }
      }
    }

    /** The client's reading goroutine: it ends when a message closes the client, or else closes it when
        reading fails. */
    method Listen(e: Env, task: (nat, string) -> bool, rd: BufReader)
      requires rd.Valid() && rd.buf.Length == BUFFER_SIZE
      requires State() == ClientState([], None)
      modifies this, rd, rd.buf
      ensures Listened(e, task, ParseAll(e.key, old(rd.Stream())), State())
    {
      ghost var all := ParseAll(e.key, rd.Stream());
      ghost var used, ms := 0, [];
      var i := 0;
      assert State() == ClientState([], None);
      hide Midway, Listened, Downstream, Handle, ParseAll, ParseMsg, Closes, Passes;
      MidwayStarts(e, task, rd.Stream());
      while closed.None?
        invariant rd.Valid() && rd.buf.Length == BUFFER_SIZE
        invariant Midway(e, task, all, ms, used, State(), ParseAll(e.key, rd.Stream())) && i == |ms|
        decreases |rd.Stream()|
      {
        ghost var st, rest := State(), rd.Stream();
        var o, n := ReadCMsg(e.key, rd, None);
        if o.Fail? {
          MidwayFails(e, task, all, ms, used, st, rest, o.error);
          closed := Some(NotRead(o.error));
          return;
        }
        HandleCMsg(e, task, i, o.msg);
        MidwayMore(e, task, all, ms, used, st, rest, o.msg);
        ms := ms + [o.msg];
        i := i + 1;
        used := used + n;
      }
      MidwayCloses(e, task, all, ms, used, State(), ParseAll(e.key, rd.Stream()));
    }
  }

  lemma MessagesRead<M>(t: AllRead<M>, ms: seq<M>, n: nat, r: AllRead<M>)
    requires AllAhead(t, ms, n, r)
    ensures |ms| <= |t.msgs| && t.msgs[..|ms|] == ms
  {
  }

  /** Another message for the client: an answer with the id of a request. */
  predicate Control(e: Env, w: WireMsg) {
    w.id != "" && w.header != DOWN && !FromWire(e, w).Panics?
  }

  /** The jobs of the server's goroutines: the first sends the chunks, the others control messages. */
  predicate TunnelJobs(e: Env, chunks: seq<seq<byte>>, jobs: seq<seq<Job<WireMsg>>>) {
    && jobs != [] && |jobs[0]| == |chunks|
    && (forall i | 0 <= i < |chunks| :: jobs[0][i].msg == ToWire(e, DataMsg(DOWN, chunks[i])))
    && forall g, i | 0 < g < |jobs| && 0 <= i < |jobs[g]| :: Control(e, jobs[g][i].msg)
  }

  predicate IsData(e: Env, w: WireMsg) {
    w.id == "" && OpenDown(e, w).Piece?
  }

  function Payload(e: Env, js: seq<Job<WireMsg>>): seq<byte>
    requires forall i | 0 <= i < |js| :: IsData(e, js[i].msg)
  {
    if js == [] then [] else
      var w := js[|js| - 1].msg;
      assert IsData(e, w);
      Payload(e, js[..|js| - 1]) + OpenDown(e, w).bytes
  }

  predicate TunnelLog(e: Env, log: seq<Entry<WireMsg>>) {
    forall i | 0 <= i < |log| :: if log[i].g == 0 then IsData(e, log[i].job.msg) else Control(e, log[i].job.msg)
  }

  lemma {:induction false} SentIsData(e: Env, log: seq<Entry<WireMsg>>)
    requires TunnelLog(e, log)
    ensures forall i | 0 <= i < |SentBy(log, 0)| :: IsData(e, SentBy(log, 0)[i].msg)
  {
    hide IsData, Control;
    if log != [] { SentIsData(e, log[..|log| - 1]); }
  }

  predicate NoTaskForData(task: (nat, string) -> bool, n: nat) {
    forall i | 0 <= i < n :: !task(i, "")
  }

  /** Every control message finds its task when it is handled. */
  predicate TasksFound(task: (nat, string) -> bool, log: seq<Entry<WireMsg>>) {
    forall i | 0 <= i < |log| && log[i].g != 0 :: task(i, log[i].job.msg.id)
  }

  /** Whatever the interleaving, the client extracts the data goroutine's bytes. */
  lemma {:induction false} ClientExtracts(e: Env, task: (nat, string) -> bool, log: seq<Entry<WireMsg>>)
    requires TunnelLog(e, log) && NoTaskForData(task, |log|)
    ensures forall i | 0 <= i < |SentBy(log, 0)| :: IsData(e, SentBy(log, 0)[i].msg)
    ensures var st := Downstream(e, task, Messages(log));
      && st.written <= Payload(e, SentBy(log, 0))
      && (st.closed.None? ==> st.written == Payload(e, SentBy(log, 0)))
      && (TasksFound(task, log) ==> st.closed.None?)
  {
    hide IsData, Control, Handle, Downstream, OpenDown;
    SentIsData(e, log);
    if log == [] {
      NothingDown(e, task, Messages(log));
    } else {
      var n := |log| - 1;
      var last := log[n];
      ClientExtracts(e, task, log[..n]);
      DownOne(e, task, log);
      var st := Downstream(e, task, Messages(log[..n]));
      var sent := SentBy(log[..n], 0);
      if last.g == 0 {
        DataHandled(e, task, st, n, last.job.msg);
        assert (sent + [last.job])[..|sent|] == sent;
      } else {
        HandleIs(e, task, st, n, last.job.msg);
        assert SentBy(log, 0) == sent;
      }
    }
  }

  lemma NothingDown(e: Env, task: (nat, string) -> bool, ws: seq<WireMsg>)
    requires ws == []
    ensures Downstream(e, task, ws) == ClientState([], None)
  {
  }

  lemma DownOne(e: Env, task: (nat, string) -> bool, log: seq<Entry<WireMsg>>)
    requires log != []
    ensures var n := |log| - 1;
      Downstream(e, task, Messages(log))
      == Handle(e, task, Downstream(e, task, Messages(log[..n])), n, log[n].job.msg)
  {
    var n := |log| - 1;
    DownSnoc(e, task, Messages(log[..n]), log[n].job.msg);
    assert Messages(log) == Messages(log[..n]) + [log[n].job.msg];
  }

  lemma HandleIs(e: Env, task: (nat, string) -> bool, st: ClientState, i: nat, w: WireMsg)
    ensures Control(e, w) ==> Handle(e, task, st, i, w).written == st.written
    ensures Control(e, w) && task(i, w.id) ==> Handle(e, task, st, i, w) == st
    ensures st.closed.Some? ==> Handle(e, task, st, i, w) == st
  {
  }

  lemma DataHandled(e: Env, task: (nat, string) -> bool, st: ClientState, i: nat, w: WireMsg)
    requires IsData(e, w) && !task(i, "")
    ensures Handle(e, task, st, i, w) ==
      if st.closed.Some? then st else st.(written := st.written + OpenDown(e, w).bytes)
  {
  }

  lemma {:induction false} EntryIsSent<M>(log: seq<Entry<M>>, i: nat)
    requires i < |log|
    ensures log[i].job in SentBy(log, log[i].g)
  {
    if i < |log| - 1 { EntryIsSent(log[..|log| - 1], i); }
  }

  lemma {:induction false} SentByPrefix<M>(log: seq<Entry<M>>, g: nat, n: nat)
    requires n <= |log|
    ensures SentBy(log[..n], g) <= SentBy(log, g)
  {
    if n < |log| {
      SentByPrefix(log[..|log| - 1], g, n);
      assert log[..|log| - 1][..n] == log[..n];
    } else {
      assert log[..n] == log;
    }
  }

  lemma JobsAreData(e: Env, chunks: seq<seq<byte>>, jobs: seq<seq<Job<WireMsg>>>)
    requires ValidEnv(e) && TunnelJobs(e, chunks, jobs)
    ensures forall i | 0 <= i < |chunks| ::
      IsData(e, jobs[0][i].msg) && OpenDown(e, jobs[0][i].msg) == Piece(chunks[i])
  {
    forall i | 0 <= i < |chunks|
      ensures IsData(e, jobs[0][i].msg) && OpenDown(e, jobs[0][i].msg) == Piece(chunks[i])
    {
      DataOpens(e, chunks[i]);
    }
  }

  lemma LogIsTunnel(e: Env, chunks: seq<seq<byte>>, jobs: seq<seq<Job<WireMsg>>>, log: seq<Entry<WireMsg>>)
    requires ValidEnv(e) && TunnelJobs(e, chunks, jobs)
    requires forall g | 0 <= g < |jobs| :: SentBy(log, g) <= jobs[g]
    requires forall i | 0 <= i < |log| :: log[i].g < |jobs|
    ensures TunnelLog(e, log)
  {
    hide IsData, Control, OpenDown, ValidEnv, SentBy;
    JobsAreData(e, chunks, jobs);
    forall i | 0 <= i < |log|
      ensures if log[i].g == 0 then IsData(e, log[i].job.msg) else Control(e, log[i].job.msg)
    {
      var g := log[i].g;
      EntryIsSent(log, i);
      assert log[i].job in jobs[g];
    }
  }

  /** The payload of the first c chunk jobs is the first c chunks. */
  lemma {:induction false} PayloadIs(e: Env, js: seq<Job<WireMsg>>, chunks: seq<seq<byte>>)
    requires |js| == |chunks|
    requires forall i | 0 <= i < |js| :: IsData(e, js[i].msg) && OpenDown(e, js[i].msg) == Piece(chunks[i])
    ensures Payload(e, js) == Flatten(chunks)
  {
    hide IsData, OpenDown;
    if js != [] {
      var n := |js| - 1;
      PayloadIs(e, js[..n], chunks[..n]);
      FlattenSnoc(chunks[..n], chunks[n]);
      assert chunks[..n] + [chunks[n]] == chunks;
    }
  }

  /** The bytes of the chunk messages in the log are the first chunks. */
  lemma SentChunks(e: Env, chunks: seq<seq<byte>>, jobs: seq<seq<Job<WireMsg>>>, sent: seq<Job<WireMsg>>)
    requires ValidEnv(e) && TunnelJobs(e, chunks, jobs) && sent <= jobs[0]
    ensures forall i | 0 <= i < |sent| :: IsData(e, sent[i].msg)
    ensures |sent| <= |chunks|
    ensures Payload(e, sent) == Flatten(chunks[..|sent|]) <= Flatten(chunks)
  {
    hide *;
    JobsCount(e, chunks, jobs);
    JobsAreData(e, chunks, jobs);
    var c := |sent|;
    assert forall i | 0 <= i < c :: sent[i] == jobs[0][i] && chunks[..c][i] == chunks[i];
    PayloadIs(e, sent, chunks[..c]);
    FlattenConcat(chunks[..c], chunks[c..]);
    assert chunks[..c] + chunks[c..] == chunks;
  }

  /** What the client makes of a log of the server's goroutines. */
  lemma ClientOfLog(e: Env, task: (nat, string) -> bool, chunks: seq<seq<byte>>, jobs: seq<seq<Job<WireMsg>>>,
                    log: seq<Entry<WireMsg>>, len: nat)
    requires ValidEnv(e) && TunnelJobs(e, chunks, jobs) && len <= |log| && NoTaskForData(task, |log|)
    requires forall g | 0 <= g < |jobs| :: SentBy(log, g) <= jobs[g]
    requires forall i | 0 <= i < |log| :: log[i].g < |jobs|
    ensures var st := Downstream(e, task, Messages(log[..len]));
      var c := |SentBy(log[..len], 0)|;
      && c <= |chunks|
      && st.written <= Flatten(chunks[..c]) <= Flatten(chunks)
      && (st.closed.None? ==> st.written == Flatten(chunks[..c]))
      && (TasksFound(task, log[..len]) ==> st.closed.None?)
  {
    hide Downstream, SentBy, IsData, Control, OpenDown, ValidEnv, TasksFound, TunnelLog, Flatten, Payload, Messages;
    var got := log[..len];
    forall g | 0 <= g < |jobs| ensures SentBy(got, g) <= jobs[g] { SentByPrefix(log, g, len); }
    LogIsTunnel(e, chunks, jobs, got);
    ClientExtracts(e, task, got);
    SentChunks(e, chunks, jobs, SentBy(got, 0));
  }

  /** The tunnel downstream, for every schedule of the server's goroutines (of which the one with the data never
      looks at `disable`), every cutting into chunks and however many bytes have arrived, cut anywhere: the
      client writes a prefix of the source, and while it is open exactly the chunks whose messages have
      arrived whole. It stays open if the control messages find their tasks. */
  lemma DownstreamPreserved(e: Env, task: (nat, string) -> bool, chunks: seq<seq<byte>>, jobs: seq<seq<Job<WireMsg>>>,
                            checks: seq<bool>, trace: seq<Label>, t: State<WireMsg>, n: nat)
    requires ValidEnv(e) && TunnelJobs(e, chunks, jobs) && |checks| == |jobs| && !checks[0]
    requires AllFit(e.key, jobs) && Leads(e.key, Init(jobs, checks), trace, t)
    requires NoTaskForData(task, |t.log|) && n <= |t.wire|
    ensures |t.queues| == |jobs| && LogFits(e.key, t.log)
    ensures var st := Downstream(e, task, ParseAll(e.key, t.wire[..n]).msgs);
      var got := t.log[..Arrived(e.key, Nonces(t.log), Messages(t.log), n)];
      var c := |SentBy(got, 0)|;
      && c <= |chunks|
      && st.written <= Flatten(chunks[..c]) <= Flatten(chunks)
      && (st.closed.None? ==> st.written == Flatten(chunks[..c]))
      && (TasksFound(task, got) ==> st.closed.None?)
      && (n == |t.wire| && t.lock.Free? && t.queues[0] == [] ==> c == |chunks|)
  {
    assert Valid(e.key);
    hide *;
    ReaderGetsArrived(e.key, jobs, checks, trace, t, n);
    JobsCount(e, chunks, jobs);
    ClientOfLog(e, task, chunks, jobs, t.log, Arrived(e.key, Nonces(t.log), Messages(t.log), n));
  }

  lemma JobsCount(e: Env, chunks: seq<seq<byte>>, jobs: seq<seq<Job<WireMsg>>>)
    requires TunnelJobs(e, chunks, jobs)
    ensures jobs != [] && |jobs[0]| == |chunks|
  {
  }
}
