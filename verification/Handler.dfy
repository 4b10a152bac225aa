/** `tcpHandler`: messages first, raw bytes for the linked peer once the link switch is seen. */
module Handler {
  import opened Bytes
  import opened Codec
  import opened StreamReader

  /** When the handler first finds linkSwitch set (other goroutines set it at any time): never, at
      the top of the loop before message m, or by the load before frame f while reading message m. */
  datatype Seen = Never | AtTop(m: nat) | InMsg(m: nat, f: nat)

  predicate SeenAtTop(seen: Seen, i: nat) {
    match seen
    case Never => false
    case AtTop(m) => m <= i
    case InMsg(m, f) => m < i
  }

  function SkipFor(seen: Seen, i: nat): Option<nat> {
    if seen.InMsg? && seen.m == i then Some(seen.f) else None
  }

  /** What the handler makes of the stream s, message i being next. */
  datatype Run<+M> = Run(msgs: seq<M>, used: nat, linked: bool)

  function Serve<M>(k: Suite<M>, s: seq<byte>, seen: Seen, i: nat): (r: Run<M>)
    ensures r.used <= |s|
    decreases |s|
  {
    if SeenAtTop(seen, i) then Run([], 0, true)
    else
      var p := ParseMsg(k, s, SkipFor(seen, i));
      match p.outcome
      case Fail(e) => Run([], p.used, e.SkipToLink?)
      case Msg(m) =>
        var r := Serve(k, s[p.used..], seen, i + 1);
        Run([m] + r.msgs, p.used + r.used, r.linked)
  }

  /** Serving ms from n bytes, then going on as r. */
  function After<M>(ms: seq<M>, n: nat, r: Run<M>): Run<M> {
    Run(ms + r.msgs, n + r.used, r.linked)
  }

  lemma ServeUnfold<M>(k: Suite<M>, s: seq<byte>, seen: Seen, i: nat)
    ensures var p := ParseMsg(k, s, SkipFor(seen, i));
      Serve(k, s, seen, i) ==
        if SeenAtTop(seen, i) then Run([], 0, true)
        else match p.outcome
          case Fail(e) => Run([], p.used, e.SkipToLink?)
          case Msg(m) => After([m], p.used, Serve(k, s[p.used..], seen, i + 1))
  {
    hide ParseMsg;
  }

  lemma AfterAfter<M>(ms: seq<M>, n: nat, m: M, u: nat, r: Run<M>)
    ensures After(ms, n, After([m], u, r)) == After(ms + [m], n + u, r)
  {
    assert ms + ([m] + r.msgs) == (ms + [m]) + r.msgs;
  }

  lemma AfterEnd<M>(ms: seq<M>, n: nat, u: nat, linked: bool)
    ensures After(ms, n, Run([], u, linked)) == Run(ms, n + u, linked)
  {
    assert ms + [] == ms;
  }

  lemma AfterNothing<M>(r: Run<M>)
    ensures After([], 0, r) == r
  {
    assert [] + r.msgs == r.msgs;
  }

  /** One turn of the handler's loop while it is not linked. */
  method ServeNext<M>(k: Suite<M>, rd: BufReader, seen: Seen, i: nat) returns (o: Outcome<M>, n: nat)
    requires rd.Valid() && rd.buf.Length == BUFFER_SIZE && !SeenAtTop(seen, i)
    modifies rd, rd.buf
    ensures rd.Valid() && n <= |old(rd.Stream())| && rd.Stream() == old(rd.Stream())[n..]
    ensures o.Msg? ==> n > 0
    ensures Serve(k, old(rd.Stream()), seen, i) ==
      match o
      case Fail(e) => Run([], n, e.SkipToLink?)
      case Msg(m) => After([m], n, Serve(k, rd.Stream(), seen, i + 1))
  {
    hide ParseMsg, Serve;
    ServeUnfold(k, rd.Stream(), seen, i);
    o, n := ReadCMsg(k, rd, SkipFor(seen, i));
  }

  /** The reading loop, until a failure or until the switch is seen: `TaskCbContext.ReadCMsg`, whose switch
      is `disable`, and the message half of `tcpHandler`. */
  method ServeMessages<M>(k: Suite<M>, rd: BufReader, seen: Seen) returns (msgs: seq<M>, used: nat, switched: bool)
    requires rd.Valid() && rd.buf.Length == BUFFER_SIZE
    modifies rd, rd.buf
    ensures rd.Valid() && Run(msgs, used, switched) == Serve(k, old(rd.Stream()), seen, 0)
    ensures used <= |old(rd.Stream())| && rd.Stream() == old(rd.Stream())[used..]
  {
    hide *;
    ghost var s := rd.Stream();
    ghost var whole := Serve(k, s, seen, 0);
    msgs, used := [], 0;
    assert s[0..] == s;
    AfterNothing(whole);
    while true
      invariant rd.Valid() && used <= |s| && rd.Stream() == s[used..]
      invariant whole == After(msgs, used, Serve(k, rd.Stream(), seen, |msgs|))
      decreases |rd.Stream()|
    {
      if SeenAtTop(seen, |msgs|) {
        ServeUnfold(k, rd.Stream(), seen, |msgs|);
        AfterEnd(msgs, used, 0, true);
        return msgs, used, true;
      }
      var o, n := ServeNext(k, rd, seen, |msgs|);
      DropDrop(s, used, n);
      match o {
        case Msg(m) =>
          AfterAfter(msgs, used, m, n, Serve(k, rd.Stream(), seen, |msgs| + 1));
          msgs := msgs + [m];
          used := used + n;
        case Fail(e) =>
          AfterEnd(msgs, used, n, e.SkipToLink?);
          used := used + n;
          return msgs, used, e.SkipToLink?;
      }
    }
  }

  /** The handler of one connection, without write errors. After a skipped read the source goes back to the top of
      its loop, where the switch, being set for good, sends it to the relay. No byte is lost or duplicated: the
      stream is what `ReadCMsg` consumed, then what was forwarded, then what is still to come. */
  method TcpHandler<M>(k: Suite<M>, rd: BufReader, seen: Seen) returns (msgs: seq<M>, used: nat, forwarded: seq<byte>)
    requires rd.Valid() && rd.buf.Length == BUFFER_SIZE
    modifies rd, rd.buf
    ensures rd.Valid() && used <= |old(rd.Stream())|
    ensures old(rd.Stream())[used..] == forwarded + rd.Stream()
    ensures var r := Serve(k, old(rd.Stream()), seen, 0);
      msgs == r.msgs && used == r.used && (if r.linked then rd.Stream() == [] else forwarded == [])
    ensures seen.Never? ==> forwarded == []
    ensures forwarded != [] ==> seen.m <= |msgs|
  {
    LinkedOnlyBySwitch(k, rd.Stream(), seen, 0);
    hide Serve;
    var switched;
    msgs, used, switched := ServeMessages(k, rd, seen);
    forwarded := [];
    if switched { forwarded := Relay(rd); }
    assert forwarded + [] == forwarded;
  }

  /** `writeLinkConn` for a linked peer, until the connection ends: each turn is one `Read` of at
      most a buffer, written whole to the peer. */
  method Relay(rd: BufReader) returns (out: seq<byte>)
    requires rd.Valid()
    modifies rd, rd.buf
    ensures rd.Valid() && rd.Stream() == [] && out == old(rd.Stream())
  {
    assert 0 < rd.buf.Length;
    hide *;
    ghost var all := rd.Stream();
    out := [];
    assert [] + all == all;
    while true
      invariant rd.Valid() && out + rd.Stream() == all
      decreases |rd.Stream()|
    {
      ghost var rest := rd.Stream();
      var b := rd.Read(rd.buf.Length);
      assert |rest| == |b| + |rd.Stream()|;
      if b == [] {
        assert out + [] == out;
        return;
      }
      Assoc(out, b, rd.Stream());
      out := out + b;
    }
  }

  // ---- Only the switch leads to the link ------------------------------------------------------------

  /** A read that ends in the switch had its flag, which the load before the next frame found set. */
  lemma {:induction false} SkipNeedsSwitch<M>(
    k: Suite<M>, s: seq<byte>, skipAt: Option<nat>, loads: nat, acc: seq<byte>)
    requires ParseFrom(k, s, skipAt, loads, acc).outcome == Fail(SkipToLink)
    ensures skipAt.Some? && ParseFrom(k, s, skipAt, loads, acc).used < |s|
    decreases |s|
  {
    var p := ParsePacket(k, s, Skips(skipAt, loads));
    PacketExactly(k, s, Skips(skipAt, loads), p);
    match p
    case Bad(e) =>
    case Last(c) => DecodeExactly(k, acc + c, Fail(SkipToLink));
    case More(c) => SkipNeedsSwitch(k, s[HEADER_SIZE + |c|..], skipAt, loads + 1, acc + c);
  }

  /** On any bytes: the handler goes over to the link exactly if it sees the switch at the top of its loop, or
      while it reads a message; the latter only with a byte waiting. A handler that never sees it never does. */
  lemma {:induction false} LinkedOnlyBySwitch<M>(k: Suite<M>, s: seq<byte>, seen: Seen, i: nat)
    ensures var r := Serve(k, s, seen, i);
      var n := i + |r.msgs|;
      match seen
      case Never => !r.linked
      case AtTop(m) => r.linked <==> m <= n
      case InMsg(m, f) => (m < n ==> r.linked) && (r.linked ==> m < n || (m == n && r.used < |s|))
    decreases |s|
  {
    hide ParseMsg;
    ServeUnfold(k, s, seen, i);
    var p := ParseMsg(k, s, SkipFor(seen, i));
    if SeenAtTop(seen, i) {
    } else if p.outcome == Fail(SkipToLink) {
      SkipOfMsg(k, s, seen, i);
    } else if p.outcome.Msg? {
      LinkedOnlyBySwitch(k, s[p.used..], seen, i + 1);
    }
  }

  lemma SkipOfMsg<M>(k: Suite<M>, s: seq<byte>, seen: Seen, i: nat)
    requires ParseMsg(k, s, SkipFor(seen, i)).outcome == Fail(SkipToLink)
    ensures seen.InMsg? && seen.m == i && ParseMsg(k, s, SkipFor(seen, i)).used < |s|
  {
    hide ParseFrom;
    SkipNeedsSwitch(k, s, SkipFor(seen, i), 0, []);
  }

  // ---- What a conforming client gets ---------------------------------------------------------

  /** A switch first seen before frame f of a message: the f frames before it are gone. */
  lemma {:induction false} SwitchInsideMessage<M>(
    k: Suite<M>, fs: seq<seq<byte>>, rest: seq<byte>, f: nat, loads: nat, acc: seq<byte>)
    requires MessageFrames(k, fs) && f < |fs|
    ensures ParseFrom(k, Flatten(fs) + rest, Some(loads + f), loads, acc)
         == ReadResult(Fail(SkipToLink), |Flatten(fs[..f])|)
    decreases f
  {
    hide *;
    MessageFramesStep(k, fs);
    RunStep(fs);
    assert Flatten(fs) + rest == fs[0] + (Flatten(fs[1..]) + rest);
    if f == 0 {
      assert fs[..0] == [];
      SkipNow(k, Flatten(fs) + rest, loads, acc);
    } else {
      NotYet(loads, f);
      FrameIsRead(k, fs[0], true, Flatten(fs[1..]) + rest, Some(loads + f), loads, acc);
      SwitchInsideMessage(k, fs[1..], rest, f - 1, loads + 1, acc + Body(fs[0]));
      RunStep(fs[..f]);
      assert fs[..f][1..] == fs[1..][..f - 1];
    }
  }

  lemma NotYet(loads: nat, f: nat)
    requires f > 0
    ensures !Skips(Some(loads + f), loads)
  {
  }

  lemma SkipNow<M>(k: Suite<M>, s: seq<byte>, loads: nat, acc: seq<byte>)
    requires s != []
    ensures Flatten([]) == []
    ensures ParseFrom(k, s, Some(loads), loads, acc) == ReadResult(Fail(SkipToLink), 0)
  {
  }

  /** The switch is first seen at the latest when the first byte after n messages has arrived, as it is
      when the peer is silent until it is set. */
  predicate SeenInTime(seen: Seen, n: nat) {
    match seen
    case Never => false
    case AtTop(m) => m <= n
    case InMsg(m, f) => m < n || (m == n && f == 0)
  }

  /** ... and not between two frames of a message (the messages ms start at index i). */
  predicate BetweenMessages<M(!new)>(k: Suite<M>, nonces: seq<nat>, ms: seq<M>, seen: Seen, i: nat)
    requires Valid(k) && |nonces| == |ms| && forall j | 0 <= j < |ms| :: Fits(k, ms[j])
  {
    seen.InMsg? && i <= seen.m < i + |ms| ==> !(0 < seen.f < |Encode(k, nonces[seen.m - i], ms[seen.m - i])|)
  }

  lemma PartOfMessage<M>(k: Suite<M>, fs: seq<seq<byte>>, f: nat)
    requires MessageFrames(k, fs) && f < |fs|
    ensures Flatten(fs[..f]) == [] <==> f == 0
    ensures |Flatten(fs[..f])| < |Flatten(fs)|
  {
    assert HEADER_SIZE < |fs[0]| by { MessageFramesStep(k, fs); }
    assert HEADER_SIZE < |fs[f]| by { if f < |fs| - 1 { assert WellFormed(k, fs[..|fs| - 1][f], true); } }
    hide *;
    RunStep(fs[f..]);
    FlattenConcat(fs[..f], fs[f..]);
    assert fs == fs[..f] + fs[f..];
    if f > 0 { RunStep(fs[..f]); } else { FlattenNothing(); assert fs[..f] == []; }
  }

  lemma FlattenNothing()
    ensures Flatten([]) == []
  {
  }

  /** The first of the messages, when the switch has not been seen at the top of the loop. */
  lemma ServeOne<M(!new)>(k: Suite<M>, nonce: nat, m: M, rest: seq<byte>, seen: Seen, i: nat)
    requires Valid(k) && Fits(k, m) && !SeenAtTop(seen, i)
    ensures var fs := Encode(k, nonce, m);
      var r := Serve(k, Flatten(fs) + rest, seen, i);
      if seen.InMsg? && seen.m == i && seen.f < |fs| then
        r == Run([], |Flatten(fs[..seen.f])|, true)
      else
        r == After([m], |Flatten(fs)|, Serve(k, rest, seen, i + 1))
  {
    hide *;
    var fs := Encode(k, nonce, m);
    var s := Flatten(fs) + rest;
    EncodedFrames(k, nonce, m);
    SkipForIs(seen, i);
    if seen.InMsg? && seen.m == i && seen.f < |fs| {
      SwitchInsideFirst(k, fs, rest, seen.f);
    } else {
      SkipForMisses(seen, i, |fs|);
      MessageRoundTrip(k, nonce, m, rest, SkipFor(seen, i));
    }
    ServeUnfold(k, s, seen, i);
    assert s[|Flatten(fs)|..] == rest;
  }

  lemma SkipForIs(seen: Seen, i: nat)
    ensures seen.InMsg? && seen.m == i ==> SkipFor(seen, i) == Some(seen.f)
  {
  }

  lemma SkipForMisses(seen: Seen, i: nat, n: nat)
    requires !(seen.InMsg? && seen.m == i && seen.f < n)
    ensures n > 0 ==> !Skips(SkipFor(seen, i), n - 1)
  {
  }

  lemma SwitchInsideFirst<M>(k: Suite<M>, fs: seq<seq<byte>>, rest: seq<byte>, f: nat)
    requires MessageFrames(k, fs) && f < |fs|
    ensures ParseMsg(k, Flatten(fs) + rest, Some(f)) == ReadResult(Fail(SkipToLink), |Flatten(fs[..f])|)
  {
    hide ParseFrom, MessageFrames, Flatten;
    SwitchInsideMessage(k, fs, rest, f, 0, []);
  }

  /** Handover: messages before the switch are served, whole and in order, and exactly what follows
      them is left for the link, if and only if the switch is not first seen between the frames of
      a message; then those frames are lost. */
  lemma {:induction false} HandoverLosesNothing<M(!new)>(
    k: Suite<M>, nonces: seq<nat>, ms: seq<M>, raw: seq<byte>, seen: Seen, i: nat)
    requires Valid(k) && |nonces| == |ms| && forall j | 0 <= j < |ms| :: Fits(k, ms[j])
    requires SeenInTime(seen, i + |ms|)
    ensures var r := Serve(k, Wire(k, nonces, ms) + raw, seen, i);
      && r.msgs <= ms && (r.linked || raw == [])
      && (r.used == |Wire(k, nonces[..|r.msgs|], ms[..|r.msgs|])| <==> BetweenMessages(k, nonces, ms, seen, i))
    decreases |ms|
  {
    hide Serve, Encode, ParseMsg, Flatten, Wire;
    if ms == [] {
      WireNothing(k, nonces, ms);
      assert [] + raw == raw;
      ServeEmpty(k, raw, seen, i);
    } else if SeenAtTop(seen, i) {
      WireNothing(k, nonces[..0], ms[..0]);
      ServeUnfold(k, Wire(k, nonces, ms) + raw, seen, i);
    } else {
      var fs := Encode(k, nonces[0], ms[0]);
      var rest := Wire(k, nonces[1..], ms[1..]) + raw;
      WireFirst(k, nonces, ms, raw);
      ServeOne(k, nonces[0], ms[0], rest, seen, i);
      if seen.InMsg? && seen.m == i && seen.f < |fs| {
        WireNothing(k, nonces[..0], ms[..0]);
        EncodedFrames(k, nonces[0], ms[0]);
        PartOfMessage(k, fs, seen.f);
      } else {
        HandoverLosesNothing(k, nonces[1..], ms[1..], raw, seen, i + 1);
        WirePrefix(k, nonces, ms, |Serve(k, rest, seen, i + 1).msgs|);
        assert [ms[0]] + ms[1..] == ms;
      }
    }
  }

  lemma WireNothing<M(!new)>(k: Suite<M>, nonces: seq<nat>, ms: seq<M>)
    requires Valid(k) && |nonces| == |ms| == 0
    ensures Wire(k, nonces, ms) == []
  {
  }

  lemma WireFirst<M(!new)>(k: Suite<M>, nonces: seq<nat>, ms: seq<M>, raw: seq<byte>)
    requires Valid(k) && |nonces| == |ms| > 0 && forall j | 0 <= j < |ms| :: Fits(k, ms[j])
    ensures Wire(k, nonces, ms) + raw == Flatten(Encode(k, nonces[0], ms[0])) + (Wire(k, nonces[1..], ms[1..]) + raw)
  {
    hide Encode, Flatten, Fits;
    Assoc(Flatten(Encode(k, nonces[0], ms[0])), Wire(k, nonces[1..], ms[1..]), raw);
  }

  lemma WirePrefix<M(!new)>(k: Suite<M>, nonces: seq<nat>, ms: seq<M>, c: nat)
    requires Valid(k) && |nonces| == |ms| && c + 1 <= |ms| && forall j | 0 <= j < |ms| :: Fits(k, ms[j])
    ensures Wire(k, nonces[..c + 1], ms[..c + 1])
         == Flatten(Encode(k, nonces[0], ms[0])) + Wire(k, nonces[1..][..c], ms[1..][..c])
  {
    hide Encode, Flatten, Fits;
    assert nonces[..c + 1][1..] == nonces[1..][..c] && ms[..c + 1][1..] == ms[1..][..c];
  }

  /** No more messages: the switch is seen now, at the latest when a byte arrives. */
  lemma ServeEmpty<M>(k: Suite<M>, raw: seq<byte>, seen: Seen, i: nat)
    requires SeenInTime(seen, i)
    ensures var r := Serve(k, raw, seen, i); r.msgs == [] && r.used == 0 && (r.linked || raw == [])
  {
    if !SeenAtTop(seen, i) && raw != [] { SkipNow(k, raw, 0, []); }
  }

  /** A client that sends its messages, then nothing until it is linked, then raw bytes: all the
      messages are served and all the raw bytes, and only those, go to the peer. */
  lemma ConformingHandover<M(!new)>(k: Suite<M>, nonces: seq<nat>, ms: seq<M>, raw: seq<byte>, seen: Seen)
    requires Valid(k) && |nonces| == |ms| && forall j | 0 <= j < |ms| :: Fits(k, ms[j])
    requires seen == AtTop(|ms|) || seen == InMsg(|ms|, 0)
    ensures var r := Serve(k, Wire(k, nonces, ms) + raw, seen, 0);
      r.msgs == ms && (Wire(k, nonces, ms) + raw)[r.used..] == raw && (r.linked || raw == [])
  {
    ConformingServes(k, nonces, ms, raw, seen, 0);
    HandoverLosesNothing(k, nonces, ms, raw, seen, 0);
    hide Serve, Encode, Wire;
    assert nonces[..|ms|] == nonces && ms[..|ms|] == ms;
  }

  lemma {:induction false} ConformingServes<M(!new)>(
    k: Suite<M>, nonces: seq<nat>, ms: seq<M>, raw: seq<byte>, seen: Seen, i: nat)
    requires Valid(k) && |nonces| == |ms| && forall j | 0 <= j < |ms| :: Fits(k, ms[j])
    requires seen == AtTop(i + |ms|) || seen == InMsg(i + |ms|, 0)
    ensures Serve(k, Wire(k, nonces, ms) + raw, seen, i).msgs == ms
    decreases |ms|
  {
    hide Serve, Encode, ParseMsg, Flatten;
    if ms == [] {
      assert Wire(k, nonces, ms) + raw == raw;
      ServeEmpty(k, raw, seen, i);
    } else {
      var fs := Encode(k, nonces[0], ms[0]);
      var rest := Wire(k, nonces[1..], ms[1..]) + raw;
      assert Wire(k, nonces, ms) + raw == Flatten(fs) + rest;
      ServeOne(k, nonces[0], ms[0], rest, seen, i);
      ConformingServes(k, nonces[1..], ms[1..], raw, seen, i + 1);
    }
  }
}
