/** The buffered reader over a connection, and `ReadCPacket` / `ReadCMsg` working in place
    on its buffer. What they return depends only on the bytes still to come, never on how the
    transport cut them into reads. */
module StreamReader {
  import opened Bytes
  import opened Codec

  /** A slice that aliases the reader's buffer: buf[lo..lo + len]. */
  datatype View = View(lo: nat, len: nat)

  datatype Peeked = PeekOk(view: View) | PeekEnded | PeekFull

  /** Taking n bytes off the first piece. */
  lemma PiecesSplit(pieces: seq<seq<byte>>, n: nat)
    requires pieces != [] && n <= |pieces[0]|
    ensures Flatten(pieces) == pieces[0][..n] + Flatten(pieces[0 := pieces[0][n..]])
    ensures n == |pieces[0]| ==> Flatten(pieces[0 := pieces[0][n..]]) == Flatten(pieces[1..])
  {
    var head := pieces[0];
    assert head == head[..n] + head[n..];
    assert pieces == [head] + pieces[1..] && pieces[0 := head[n..]] == [head[n..]] + pieces[1..];
    FlattenCons(head, pieces[1..]);
    FlattenCons(head[n..], pieces[1..]);
    Assoc(head[..n], head[n..], Flatten(pieces[1..]));
    if n == |head| { assert head[n..] == []; }
  }

  /** A `bufio.Reader`. The connection delivers `pieces`, one non-empty piece (or a part of
      it) per read, and then fails for good. */
  class BufReader {
    const buf: array<byte>
    var r: nat
    var w: nat
    var failed: bool           // an error of the connection that is still to be reported
    var pieces: seq<seq<byte>>

    ghost predicate Valid() reads this, buf {
      && 0 < buf.Length
      && r <= w <= buf.Length
      && (failed ==> pieces == [])
      && forall i | 0 <= i < |pieces| :: pieces[i] != []
    }

    /** Every byte not yet consumed: buffered ones, then those the connection still delivers. */
    ghost function Stream(): seq<byte> reads this, buf requires Valid() {
      buf[r..w] + Flatten(pieces)
    }

    /** The bytes a view shows now. */
    function Bytes(v: View): seq<byte> reads buf requires v.lo + v.len <= buf.Length {
      buf[v.lo..v.lo + v.len]
    }

    constructor (size: nat, pieces: seq<seq<byte>>)
      requires 0 < size && forall i | 0 <= i < |pieces| :: pieces[i] != []
      ensures Valid() && fresh(buf) && buf.Length == size && Stream() == Flatten(pieces)
    {
      buf := new byte[size](_ => 0);
      r, w, failed := 0, 0, false;
      this.pieces := pieces;
    }

    /** The connection's read into buf[w..]: at most one piece, at most the room there is. */
    method ReadConn()
      requires Valid() && w < buf.Length && !failed
      modifies this, buf
      ensures Valid() && Stream() == old(Stream()) && r == old(r)
      ensures failed <==> old(pieces) == []
      ensures if failed then w == old(w) else w > old(w)
      ensures buf[..old(w)] == old(buf[..w])
    {
      if pieces == [] {
        failed := true;
        return;
      }
      var head := pieces[0];
      var n := if |head| <= buf.Length - w then |head| else buf.Length - w;
      ghost var before := buf[r..w];
      PiecesSplit(pieces, n);
      CopyIn(head[..n]);
      Assoc(before, head[..n], Flatten(pieces[0 := head[n..]]));
      pieces := if n == |head| then pieces[1..] else pieces[0 := head[n..]];
      hide Flatten;
    }

    /** The transport's copy into the slice it is given. */
    method CopyIn(b: seq<byte>)
      requires r <= w && w + |b| <= buf.Length
      modifies this`w, buf
      ensures w == old(w) + |b| && buf[..old(w)] == old(buf[..w])
      ensures buf[r..w] == old(buf[r..w]) + b
    {
      forall i | 0 <= i < |b| { buf[w + i] := b[i]; }
      w := w + |b|;
    }

    /** `bufio.Reader.fill`: slide what is buffered to the front, then read once. */
    method Fill()
      requires Valid() && w - r < buf.Length && !failed
      modifies this, buf
      ensures Valid() && Stream() == old(Stream())
      ensures failed <==> old(pieces) == []
      ensures if failed then w - r == old(w - r) else w - r > old(w - r)
    {
      if r > 0 {
        ghost var kept := buf[r..w];
        forall i | 0 <= i < w - r { buf[i] := buf[r + i]; }
        assert buf[0..w - r] == kept;
        w := w - r;
        r := 0;
      }
      ReadConn();
    }

    /** `bufio.Reader.Peek`: a view of the next n bytes, consuming nothing. */
    method Peek(n: nat) returns (p: Peeked)
      requires Valid()
      modifies this, buf
      ensures Valid() && Stream() == old(Stream())
      ensures match p
        case PeekOk(v) => n <= |Stream()| && v == View(r, n) && r + n <= w && Bytes(v) == Stream()[..n]
        case PeekEnded => |Stream()| < n <= buf.Length
        case PeekFull => buf.Length < n
    {
      while w - r < n && w - r < buf.Length && !failed
        invariant Valid() && Stream() == old(Stream())
        decreases buf.Length - (w - r), !failed
      {
        Fill();
      }
      if n > buf.Length { return PeekFull; }
      if w - r < n {
        assert failed && Flatten(pieces) == [];
        failed := false;
        return PeekEnded;
      }
      assert buf[r..r + n] == Stream()[..n];
      p := PeekOk(View(r, n));
    }

    /** `bufio.Reader.Discard`, for bytes already buffered: the buffer itself does not move. */
    method Discard(n: nat)
      requires Valid() && n <= w - r
      modifies this`r
      ensures Valid() && Stream() == old(Stream())[n..]
    {
      assert buf[r..w] == buf[r..r + n] + buf[r + n..w];
      assert (buf[r..w] + Flatten(pieces))[n..] == buf[r + n..w] + Flatten(pieces);
      r := r + n;
    }

    /** `bufio.Reader.Read` into a slice of `max` bytes: at least one byte, at most one read. */
    method Read(max: nat) returns (b: seq<byte>)
      requires Valid() && 0 < max
      modifies this, buf
      ensures Valid() && b + Stream() == old(Stream()) && |b| <= max
      ensures b == [] <==> old(Stream()) == []
    {
      if r == w {
        if failed {
          assert Flatten(pieces) == [];
          failed := false;
          return [];
        }
        if max >= buf.Length {
          b := ReadDirect(max);
          return;
        }
        r, w := 0, 0;
        ReadConn();
        if failed {
          assert Flatten(pieces) == [];
          failed := false;
          return [];
        }
      }
      hide Flatten;
      b := Take(max);
    }

    /** The end of `Read`: what is buffered, as far as it goes. */
    method Take(max: nat) returns (b: seq<byte>)
      requires Valid() && 0 < max && r < w
      modifies this`r
      ensures Valid() && b + Stream() == old(Stream()) && 0 < |b| <= max
    {
      var n := if w - r <= max then w - r else max;
      b := buf[r..r + n];
      assert buf[r..w] == b + buf[r + n..w];
      hide Flatten;
      Assoc(b, buf[r + n..w], Flatten(pieces));
      r := r + n;
    }

    /** A read as large as the buffer goes past it, straight into the caller's slice. */
    method ReadDirect(max: nat) returns (b: seq<byte>)
      requires Valid() && 0 < max && r == w
      modifies this`pieces
      ensures Valid() && b + Stream() == old(Stream()) && |b| <= max
      ensures b == [] <==> old(Stream()) == []
    {
      if pieces == [] { return []; }
      var head := pieces[0];
      var n := if |head| <= max then |head| else max;
      b := head[..n];
      PiecesSplit(pieces, n);
      pieces := if n == |head| then pieces[1..] else pieces[0 := head[n..]];
      assert buf[r..w] == [];
      hide Flatten;
    }
  }

  datatype PacketView = MoreAt(view: View) | LastAt(view: View) | BadPacket(error: ReadError)

  /** What a packet view denotes while the buffer has not moved. */
  ghost function Denotes(v: PacketView, buf: array<byte>): Packet
    reads buf
    requires v.BadPacket? || v.view.lo + v.view.len <= buf.Length
  {
    match v
    case MoreAt(x) => More(buf[x.lo..x.lo + x.len])
    case LastAt(x) => Last(buf[x.lo..x.lo + x.len])
    case BadPacket(e) => Bad(e)
  }

  /** `Key.ReadCPacket`: peeks at ever longer prefixes, checks the frame, consumes nothing.
      The payload it returns is a view into the buffer. */
  method ReadCPacket<M>(k: Suite<M>, rd: BufReader, skip: bool) returns (p: PacketView)
    requires rd.Valid() && rd.buf.Length == BUFFER_SIZE
    modifies rd, rd.buf
    ensures rd.Valid() && rd.Stream() == old(rd.Stream())
    ensures !p.BadPacket? ==> p.view.lo == rd.r + HEADER_SIZE && p.view.lo + p.view.len <= rd.w
    ensures Denotes(p, rd.buf) == ParsePacket(k, rd.Stream(), skip)
    ensures PacketIs(k, rd.Stream(), skip, Denotes(p, rd.buf))
  {
    hide Int64Value, OpenFrame, PacketIs;
    ghost var s := rd.Stream();
    PacketExactly(k, s, skip, ParsePacket(k, s, skip));
    var one := rd.Peek(1);
    if !one.PeekOk? { return BadPacket(TransportEnded); }
    if skip { return BadPacket(SkipToLink); }
    var ver := rd.Peek(16);
    if !ver.PeekOk? { return BadPacket(TransportEnded); }
    if rd.Bytes(ver.view) != VERSION { return BadPacket(NotGoCFC); }
    var lenb := rd.Peek(24);
    if !lenb.PeekOk? { return BadPacket(TransportEnded); }
    assert s[..24][16..24] == s[16..24];
    var lens := Int64Value(rd.Bytes(lenb.view)[16..24]);
    if lens <= HEADER_SIZE { return BadPacket(LensTooShort); }
    if lens > BUFFER_SIZE { return BadPacket(LensTooLong); }
    var pack := rd.Peek(lens);
    if !pack.PeekOk? { return BadPacket(TransportEnded); }
    p := CheckFrame(k, rd, pack.view);
  }

  /** The last checks of `ReadCPacket`, on a view of the whole frame. */
  method CheckFrame<M>(k: Suite<M>, rd: BufReader, pack: View) returns (p: PacketView)
    requires HEADER_SIZE < pack.len <= BUFFER_SIZE && pack.lo + pack.len <= rd.buf.Length
    ensures !p.BadPacket? ==> p.view == View(pack.lo + HEADER_SIZE, pack.len - HEADER_SIZE)
    ensures Denotes(p, rd.buf) == OpenFrame(k, rd.Bytes(pack))
  {
    var f := rd.Bytes(pack);
    var h := k.decrypt(f[24..84]);
    if h.None? { return BadPacket(DecryptFailed); }
    if h.value != k.hash(f[84..]) { return BadPacket(HashMismatch); }
    var view := View(pack.lo + HEADER_SIZE, pack.len - HEADER_SIZE);
    assert rd.Bytes(view) == f[HEADER_SIZE..];
    if Int64Value(f[84..92]) != 0 { return MoreAt(view); }
    p := LastAt(view);
  }

  lemma ParseStep<M>(k: Suite<M>, s: seq<byte>, skipAt: Option<nat>, loads: nat, acc: seq<byte>)
    ensures var r := ParseFrom(k, s, skipAt, loads, acc);
      match ParsePacket(k, s, Skips(skipAt, loads))
      case Bad(e) => r == ReadResult(Fail(e), 0)
      case Last(c) => r == ReadResult(Decode(k, acc + c), HEADER_SIZE + |c|)
      case More(c) => Ahead(r, HEADER_SIZE + |c|, ParseFrom(k, s[HEADER_SIZE + |c|..], skipAt, loads + 1, acc + c))
  {
  }

  /** One turn of the loop in `ReadCMsg`: the payload is copied out of the buffer before the
      frame is discarded. */
  method TakeFrame<M>(k: Suite<M>, rd: BufReader, skip: bool) returns (p: Packet, n: nat)
    requires rd.Valid() && rd.buf.Length == BUFFER_SIZE
    modifies rd, rd.buf
    ensures rd.Valid()
    ensures p == ParsePacket(k, old(rd.Stream()), skip)
    ensures n == if p.Bad? then 0 else HEADER_SIZE + |p.chunk|
    ensures n <= |old(rd.Stream())| && rd.Stream() == old(rd.Stream())[n..]
  {
    hide ParsePacket;
    var v := ReadCPacket(k, rd, skip);
    if v.BadPacket? { return Bad(v.error), 0; }
    var b := rd.Bytes(v.view);
    n := HEADER_SIZE + v.view.len;
    rd.Discard(n);
    p := if v.MoreAt? then More(b) else Last(b);
  }

  /** `Key.ReadCMsg`. `speed` is what was handed to the speed counter. */
  method ReadCMsg<M>(k: Suite<M>, rd: BufReader, skipAt: Option<nat>) returns (o: Outcome<M>, speed: nat)
    requires rd.Valid() && rd.buf.Length == BUFFER_SIZE
    modifies rd, rd.buf
    ensures rd.Valid()
    ensures var r := ParseMsg(k, old(rd.Stream()), skipAt);
      o == r.outcome && speed == r.used <= |old(rd.Stream())| && rd.Stream() == old(rd.Stream())[r.used..]
  {
    hide ParsePacket, Decode, ParseFrom, Flatten;
    ghost var s := rd.Stream();
    var b: seq<byte> := [];
    var loads := 0;
    speed := 0;
    assert s[0..] == s;
    while true
      invariant rd.Valid() && speed <= |s| && rd.Stream() == s[speed..]
      invariant Ahead(ParseMsg(k, s, skipAt), speed, ParseFrom(k, s[speed..], skipAt, loads, b))
      decreases |rd.Stream()|
    {
      ghost var here := s[speed..];
      ParseStep(k, here, skipAt, loads, b);
      var p, n := TakeFrame(k, rd, Skips(skipAt, loads));
      assert here[n..] == s[speed + n..];
      speed := speed + n;
      match p {
        case Bad(e) => return Fail(e), speed;
        case Last(c) => return Decode(k, b + c), speed;
        case More(c) => b := b + c;
      }
      loads := loads + 1;
    }
  }

  /** The whole result t is what is left to find, r, after n bytes were consumed. */
  ghost predicate Ahead<M>(t: ReadResult<M>, n: nat, r: ReadResult<M>) {
    t == ReadResult(r.outcome, n + r.used)
  }

  ghost predicate AllAhead<M>(t: AllRead<M>, ms: seq<M>, n: nat, r: AllRead<M>) {
    t == AllRead(ms + r.msgs, r.error, n + r.used)
  }

  lemma AllStep<M>(k: Suite<M>, s: seq<byte>)
    ensures var p := ParseMsg(k, s, None);
      match p.outcome
      case Fail(e) => ParseAll(k, s) == AllRead([], e, p.used)
      case Msg(m) => AllAhead(ParseAll(k, s), [m], p.used, ParseAll(k, s[p.used..]))
  {
    hide ParseMsg;
  }

  lemma AllAheadTwice<M>(t: AllRead<M>, ms: seq<M>, n: nat, u: AllRead<M>, m: M, i: nat, r: AllRead<M>)
    requires AllAhead(t, ms, n, u) && AllAhead(u, [m], i, r)
    ensures AllAhead(t, ms + [m], n + i, r)
  {
    Assoc(ms, [m], r.msgs);
  }

  lemma AllAheadEnds<M>(t: AllRead<M>, ms: seq<M>, n: nat, e: ReadError, i: nat)
    requires AllAhead(t, ms, n, AllRead([], e, i))
    ensures t == AllRead(ms, e, n + i)
  {
    assert ms + [] == ms;
  }

  lemma AllAheadStarts<M>(t: AllRead<M>)
    ensures AllAhead(t, [], 0, t)
  {
    assert [] + t.msgs == t.msgs;
  }

  /** What the callback of `ReadCMsgCb` says to a message: true, false, or an error. */
  datatype Answer = GoOn | Leave | CbFailed

  datatype Stopped = ReadFailed(error: ReadError) | Answered(a: Answer)

  /** The callback said yes to all of ms but the last, and to that one too if `all`. */
  predicate SaidYes<M>(fn: (nat, M) -> Answer, ms: seq<M>, all: bool) {
    forall i | 0 <= i < |ms| :: fn(i, ms[i]).GoOn? <==> i < |ms| - 1 || all
  }

  lemma SaidYesNothing<M>(fn: (nat, M) -> Answer)
    ensures SaidYes(fn, [], true)
  {
  }

  lemma SaidYesMore<M>(fn: (nat, M) -> Answer, ms: seq<M>, m: M)
    requires SaidYes(fn, ms, true)
    ensures SaidYes(fn, ms + [m], fn(|ms|, m).GoOn?)
  {
    assert forall i | 0 <= i < |ms| :: (ms + [m])[i] == ms[i];
  }

  /** So far ms were read from s, fn said yes to all of them (to the last if `all`), and rest is left. */
  ghost predicate SoFar<M>(
    k: Suite<M>, fn: (nat, M) -> Answer, s: seq<byte>, ms: seq<M>, all: bool, used: nat, rest: seq<byte>)
  {
    && used <= |s| && rest == s[used..] && SaidYes(fn, ms, all)
    && AllAhead(ParseAll(k, s), ms, used, ParseAll(k, rest))
  }

  lemma SoFarMeans<M>(
    k: Suite<M>, fn: (nat, M) -> Answer, s: seq<byte>, ms: seq<M>, all: bool, used: nat, rest: seq<byte>)
    requires SoFar(k, fn, s, ms, all, used, rest)
    ensures used <= |s| && rest == s[used..] && SaidYes(fn, ms, all)
    ensures AllAhead(ParseAll(k, s), ms, used, ParseAll(k, rest))
  {
  }

  lemma SoFarNothing<M>(k: Suite<M>, fn: (nat, M) -> Answer, s: seq<byte>)
    ensures SoFar(k, fn, s, [], true, 0, s)
  {
    hide ParseAll;
    AllAheadStarts(ParseAll(k, s));
  }

  lemma SoFarMore<M>(k: Suite<M>, fn: (nat, M) -> Answer, s: seq<byte>, ms: seq<M>, used: nat, rest: seq<byte>, m: M)
    requires SoFar(k, fn, s, ms, true, used, rest) && ParseMsg(k, rest, None).outcome == Msg(m)
    ensures var n := ParseMsg(k, rest, None).used;
      n <= |rest| && SoFar(k, fn, s, ms + [m], fn(|ms|, m).GoOn?, used + n, rest[n..])
  {
    hide ParseMsg, ParseAll, AllAhead, SaidYes;
    var n := ParseMsg(k, rest, None).used;
    AllStep(k, rest);
    DropDrop(s, used, n);
    SaidYesMore(fn, ms, m);
    AllAheadTwice(ParseAll(k, s), ms, used, ParseAll(k, rest), m, n, ParseAll(k, rest[n..]));
  }

  lemma SoFarEnds<M>(
    k: Suite<M>, fn: (nat, M) -> Answer, s: seq<byte>, ms: seq<M>, used: nat, rest: seq<byte>, e: ReadError)
    requires SoFar(k, fn, s, ms, true, used, rest) && ParseMsg(k, rest, None).outcome == Fail(e)
    ensures var n := ParseMsg(k, rest, None).used;
      && n <= |rest| && used + n <= |s| && rest[n..] == s[used + n..]
      && ParseAll(k, s) == AllRead(ms, e, used + n)
  {
    hide ParseMsg, ParseAll, AllAhead, SaidYes;
    var n := ParseMsg(k, rest, None).used;
    AllStep(k, rest);
    DropDrop(s, used, n);
    AllAheadEnds(ParseAll(k, s), ms, used, e, n);
  }

  /** `ReadCMsgCb`, for any callback; fn(i, m) is what it says to the i-th message m. It is given the
      messages of the stream in order, each once, until it says no or reading fails; what comes after the message
      it said no to is still to be read. */
  method ReadMessages<M>(k: Suite<M>, rd: BufReader, fn: (nat, M) -> Answer)
    returns (ms: seq<M>, end: Stopped, ghost used: nat)
    requires rd.Valid() && rd.buf.Length == BUFFER_SIZE
    modifies rd, rd.buf
    ensures rd.Valid() && used <= |old(rd.Stream())| && rd.Stream() == old(rd.Stream())[used..]
    ensures SaidYes(fn, ms, end.ReadFailed?)
    ensures var all := ParseAll(k, old(rd.Stream()));
      match end
      case ReadFailed(e) => all == AllRead(ms, e, used)
      case Answered(a) =>
        ms != [] && a == fn(|ms| - 1, ms[|ms| - 1]) && AllAhead(all, ms, used, ParseAll(k, rd.Stream()))
  {
    hide *;
    ghost var s := rd.Stream();
    ms, used := [], 0;
    SoFarNothing(k, fn, s);
    while true
      invariant rd.Valid() && SoFar(k, fn, s, ms, true, used, rd.Stream())
      decreases |rd.Stream()|
    {
      ghost var rest := rd.Stream();
      var o, n := ReadCMsg(k, rd, None);
      match o {
        case Fail(err) =>
          SoFarEnds(k, fn, s, ms, used, rest, err);
          SoFarMeans(k, fn, s, ms, true, used, rest);
          return ms, ReadFailed(err), used + n;
        case Msg(m) =>
          SoFarMore(k, fn, s, ms, used, rest, m);
          var a := fn(|ms|, m);
          ms, used := ms + [m], used + n;
          if !a.GoOn? {
            SoFarMeans(k, fn, s, ms, false, used, rd.Stream());
            return ms, Answered(a), used;
          }
      }
    }
  }
}
