/** The framed, encrypted message format of tool/cMsgCrypto.go and tool/cMsgRead.go:
    how a message becomes frames, and what a reader makes of any byte stream. */
module Codec {
  import opened Bytes

  // "go-CFC-v01.02.00"
  const VERSION: seq<byte> := [103, 111, 45, 67, 70, 67, 45, 118, 48, 49, 46, 48, 50, 46, 48, 48]
  const BUFFER_SIZE: nat := 4096
  const HEADER_SIZE: nat := 92
  const CHUNK_SIZE: nat := 4004

  /** AES-GCM under one fixed key, SHA-256 and JSON, all left abstract. The nonce that
      `Encrypt` draws at random is an argument here, so every statement holds for all nonces. */
  datatype Suite<!M> = Suite(
    encrypt: (nat, seq<byte>) -> seq<byte>,
    decrypt: seq<byte> -> Option<seq<byte>>,
    hash: seq<byte> -> seq<byte>,
    marshal: M -> seq<byte>,
    unmarshal: seq<byte> -> Option<M>)

  /** What the library code behind tool/tool.go provides. */
  ghost predicate Valid<M(!new)>(k: Suite<M>) {
    && (forall n: nat, p :: |k.encrypt(n, p)| == |p| + 28 && k.decrypt(k.encrypt(n, p)) == Some(p))
    && (forall b :: |k.hash(b)| == 32)
    && (forall m :: k.unmarshal(k.marshal(m)) == Some(m))
  }

  datatype ReadError =
    | TransportEnded | SkipToLink | NotGoCFC | LensTooShort | LensTooLong
    | DecryptFailed | HashMismatch | NoData | BadJson

  datatype Outcome<+M> = Msg(msg: M) | Fail(error: ReadError)

  // ---- Writing ----------------------------------------------------------------

  function Chunks(b: seq<byte>): seq<seq<byte>> {
    if b == [] then [] else if |b| <= CHUNK_SIZE then [b] else [b[..CHUNK_SIZE]] + Chunks(b[CHUNK_SIZE..])
  }

  function Frame<M>(k: Suite<M>, nonce: nat, num: int, chunk: seq<byte>): seq<byte>
    requires |chunk| <= CHUNK_SIZE && 0 <= num < INT64_LIMIT
  {
    var body := Int64Bytes(num) + chunk;
    VERSION + Int64Bytes(|chunk| + HEADER_SIZE) + k.encrypt(nonce, k.hash(body)) + body
  }

  predicate ChunkList(cs: seq<seq<byte>>) {
    |cs| <= INT64_LIMIT && forall i | 0 <= i < |cs| :: 0 < |cs[i]| <= CHUNK_SIZE
  }

  /** Frames for the given chunks; each countdown is the number of frames still to come. */
  function Assemble<M>(k: Suite<M>, nonce: nat, cs: seq<seq<byte>>): (fs: seq<seq<byte>>)
    requires ChunkList(cs)
    ensures |fs| == |cs|
    decreases |cs|
  {
    if cs == [] then [] else [Frame(k, nonce, |cs| - 1, cs[0])] + Assemble(k, nonce + 1, cs[1..])
  }

  /** A Go slice is shorter than 2^63 bytes. */
  predicate Fits<M>(k: Suite<M>, m: M) {
    |k.marshal(m)| + 28 < INT64_LIMIT
  }

  lemma {:induction false} ChunksPartition(b: seq<byte>)
    ensures Flatten(Chunks(b)) == b
    ensures forall i | 0 <= i < |Chunks(b)| :: 0 < |Chunks(b)[i]| <= CHUNK_SIZE
    ensures forall i | 0 <= i < |Chunks(b)| - 1 :: |Chunks(b)[i]| == CHUNK_SIZE
    ensures |Chunks(b)| == (|b| + CHUNK_SIZE - 1) / CHUNK_SIZE <= |b|
  {
    if |b| > CHUNK_SIZE {
      ChunksPartition(b[CHUNK_SIZE..]);
      assert b == b[..CHUNK_SIZE] + b[CHUNK_SIZE..];
    } else if b != [] {
      assert [b][1..] == [];
    }
  }

  function Encode<M(!new)>(k: Suite<M>, nonce: nat, m: M): (fs: seq<seq<byte>>)
    requires Valid(k) && Fits(k, m)
  {
    var b := k.encrypt(nonce, k.marshal(m));
    ChunksPartition(b);
    Assemble(k, nonce + 1, Chunks(b))
  }

  lemma AssembleStep<M>(k: Suite<M>, nonce: nat, cs: seq<seq<byte>>, i: nat, done: seq<seq<byte>>)
    requires ChunkList(cs) && i < |cs|
    ensures ChunkList(cs[i + 1..])
    ensures done + Assemble(k, nonce, cs[i..])
         == done + [Frame(k, nonce, |cs| - i - 1, cs[i])] + Assemble(k, nonce + 1, cs[i + 1..])
  {
    hide Frame;
    assert cs[i..][1..] == cs[i + 1..];
  }

  /** `Key.assemblyBytes`. */
  method AssemblyBytes<M(!new)>(k: Suite<M>, nonce: nat, cs: seq<seq<byte>>) returns (fs: seq<seq<byte>>)
    requires Valid(k) && ChunkList(cs)
    ensures fs == Assemble(k, nonce, cs)
  {
    hide Assemble;
    fs := [];
    var l := |cs|;
    assert cs[0..] == cs;
    for i := 0 to l
      invariant ChunkList(cs[i..])
      invariant fs + Assemble(k, nonce + i, cs[i..]) == Assemble(k, nonce, cs)
    {
      AssembleStep(k, nonce + i, cs, i, fs);
      var pkg: seq<byte> := VERSION;
      pkg := pkg + Int64Bytes(|cs[i]| + HEADER_SIZE);
      var body := Int64Bytes(l - i - 1) + cs[i];
      var sealed := k.encrypt(nonce + i, k.hash(body));
      assert |sealed| == 60;  // the source panics otherwise
      pkg := pkg + sealed;
      pkg := pkg + body;
      fs := fs + [pkg];
    }
  }

  ghost function ChunksFrom(b: seq<byte>, j: nat): seq<seq<byte>> {
    Chunks(if j < |b| then b[j..] else [])
  }

  lemma ChunksStep(b: seq<byte>, j: nat)
    requires j < |b|
    ensures var next := if |b| <= j + CHUNK_SIZE then |b| else j + CHUNK_SIZE;
      ChunksFrom(b, j) == [b[j..next]] + ChunksFrom(b, j + CHUNK_SIZE)
  {
    if |b| <= j + CHUNK_SIZE {
      assert b[j..] == b[j..|b|];
    } else {
      DropDrop(b, j, CHUNK_SIZE);
      assert b[j..][..CHUNK_SIZE] == b[j..j + CHUNK_SIZE];
    }
  }

  lemma ChunksEnd(b: seq<byte>, j: nat)
    requires |b| <= j
    ensures ChunksFrom(b, j) == []
  {
  }

  /** `Key.Encode`: marshal, encrypt, cut into chunks, frame. */
  method EncodeMsg<M(!new)>(k: Suite<M>, nonce: nat, m: M) returns (fs: seq<seq<byte>>)
    requires Valid(k) && Fits(k, m)
    ensures fs == Encode(k, nonce, m)
  {
    hide Assemble, Chunks;
    var bk := k.encrypt(nonce, k.marshal(m));
    ChunksPartition(bk);
    var bs: seq<seq<byte>> := [];
    var lens := |bk|;
    var j := 0;
    assert bk[0..] == bk;
    while j < lens
      invariant 0 <= j
      invariant bs + ChunksFrom(bk, j) == Chunks(bk)
      decreases lens - j
    {
      var next := j + CHUNK_SIZE;
      ChunksStep(bk, j);
      if lens <= next { next := lens; }
      bs := bs + [bk[j..next]];
      j := j + CHUNK_SIZE;
    }
    ChunksEnd(bk, j);
    assert bs + [] == bs;
    fs := AssemblyBytes(k, nonce + 1, bs);
  }

  // ---- Reading ----------------------------------------------------------------

  datatype Packet = More(chunk: seq<byte>) | Last(chunk: seq<byte>) | Bad(error: ReadError)

  /** `Key.ReadCPacket` on the stream s, which ends where the transport fails. */
  function ParsePacket<M>(k: Suite<M>, s: seq<byte>, skip: bool): (p: Packet)
    ensures p.More? || p.Last? ==> 0 < |p.chunk| <= CHUNK_SIZE && HEADER_SIZE + |p.chunk| <= |s|
  {
    if |s| < 1 then Bad(TransportEnded)
    else if skip then Bad(SkipToLink)
    else if |s| < 16 then Bad(TransportEnded)
    else if s[..16] != VERSION then Bad(NotGoCFC)
    else if |s| < 24 then Bad(TransportEnded)
    else
      var lens := Int64Value(s[16..24]);
      if lens <= HEADER_SIZE then Bad(LensTooShort)
      else if lens > BUFFER_SIZE then Bad(LensTooLong)
      else if |s| < lens then Bad(TransportEnded)
      else OpenFrame(k, s[..lens])
  }

  /** The checks of `ReadCPacket` on a frame of the announced length. */
  function OpenFrame<M>(k: Suite<M>, f: seq<byte>): (p: Packet)
    requires HEADER_SIZE < |f| <= BUFFER_SIZE
    ensures p.More? || p.Last? ==> 0 < |p.chunk| <= CHUNK_SIZE && HEADER_SIZE + |p.chunk| == |f|
  {
    var h := k.decrypt(f[24..84]);
    if h.None? then Bad(DecryptFailed)
    else if h.value != k.hash(f[84..]) then Bad(HashMismatch)
    else if Int64Value(f[84..92]) != 0 then More(f[HEADER_SIZE..])
    else Last(f[HEADER_SIZE..])
  }

  /** `Key.Decode`. */
  function Decode<M>(k: Suite<M>, data: seq<byte>): Outcome<M> {
    if data == [] then Fail(NoData)
    else match k.decrypt(data)
      case None => Fail(DecryptFailed)
      case Some(b) =>
        match k.unmarshal(b)
        case None => Fail(BadJson)
        case Some(m) => Msg(m)
  }

  datatype ReadResult<+M> = ReadResult(outcome: Outcome<M>, used: nat)

  /** The skip flag is loaded once per frame; `Some(n)` means that load n (and every later
      one) finds it set. */
  predicate Skips(skipAt: Option<nat>, load: nat) {
    skipAt.Some? && skipAt.value <= load
  }

  /** `Key.ReadCMsg` on the stream s; `loads` frames were accepted before, carrying acc. */
  function ParseFrom<M>(k: Suite<M>, s: seq<byte>, skipAt: Option<nat>, loads: nat, acc: seq<byte>): (r: ReadResult<M>)
    ensures r.used <= |s|
    ensures r.outcome.Msg? ==> r.used > HEADER_SIZE
    decreases |s|
  {
    match ParsePacket(k, s, Skips(skipAt, loads))
    case Bad(e) => ReadResult(Fail(e), 0)
    case Last(c) => ReadResult(Decode(k, acc + c), HEADER_SIZE + |c|)
    case More(c) =>
      var n := HEADER_SIZE + |c|;
      var r := ParseFrom(k, s[n..], skipAt, loads + 1, acc + c);
      ReadResult(r.outcome, n + r.used)
  }

  function ParseMsg<M>(k: Suite<M>, s: seq<byte>, skipAt: Option<nat>): (r: ReadResult<M>)
    ensures r.used <= |s|
    ensures r.outcome.Msg? ==> r.used > HEADER_SIZE
  {
    ParseFrom(k, s, skipAt, 0, [])
  }

  datatype AllRead<+M> = AllRead(msgs: seq<M>, error: ReadError, used: nat)

  /** Reading messages until the first failure. */
  function ParseAll<M>(k: Suite<M>, s: seq<byte>): (r: AllRead<M>)
    ensures r.used <= |s|
    decreases |s|
  {
    var r := ParseMsg(k, s, None);
    match r.outcome
    case Fail(e) => AllRead([], e, r.used)
    case Msg(m) =>
      var rest := ParseAll(k, s[r.used..]);
      AllRead([m] + rest.msgs, rest.error, r.used + rest.used)
  }

  // ---- Every answer to arbitrary bytes -----------------------------------------------------------

  /** s announces a frame of this length. */
  predicate Announces(s: seq<byte>, lens: int) {
    |s| >= 24 && s[..16] == VERSION && Int64Value(s[16..24]) == lens
  }

  /** ... which is an allowed one, and all there. */
  predicate HasFrame(s: seq<byte>, lens: int) {
    Announces(s, lens) && HEADER_SIZE < lens <= BUFFER_SIZE && lens <= |s|
  }

  /** ... and carries the hash of its content. */
  predicate Opens<M>(k: Suite<M>, s: seq<byte>, lens: int) {
    HasFrame(s, lens) && k.decrypt(s[24..84]) == Some(k.hash(s[84..lens]))
  }

  /** The frame announces another one. */
  predicate SaysMore(s: seq<byte>) { |s| >= 92 && Int64Value(s[84..92]) != 0 }

  /** When `ReadCPacket` answers what, said on the bytes: the flag only ever stops it when a byte is there, and
      only with the flag set does it answer so. */
  ghost predicate PacketIs<M>(k: Suite<M>, s: seq<byte>, skip: bool, p: Packet) {
    match p
    case Bad(SkipToLink) => skip && s != []
    case Bad(TransportEnded) =>
      || s == []
      || (!skip && |s| < 16)
      || (!skip && s[..16] == VERSION && |s| < 24)
      || (!skip && exists lens :: Announces(s, lens) && HEADER_SIZE < lens <= BUFFER_SIZE && |s| < lens)
    case Bad(NotGoCFC) => !skip && |s| >= 16 && s[..16] != VERSION
    case Bad(LensTooShort) => !skip && exists lens :: Announces(s, lens) && lens <= HEADER_SIZE
    case Bad(LensTooLong) => !skip && exists lens :: Announces(s, lens) && lens > BUFFER_SIZE
    case Bad(DecryptFailed) => !skip && exists lens :: HasFrame(s, lens) && k.decrypt(s[24..84]) == None
    case Bad(HashMismatch) =>
      !skip && exists lens :: HasFrame(s, lens) && k.decrypt(s[24..84]).Some? && !Opens(k, s, lens)
    case Bad(_) => false
    case More(c) => !skip && SaysMore(s) && exists lens :: Opens(k, s, lens) && c == s[HEADER_SIZE..lens]
    case Last(c) => !skip && !SaysMore(s) && exists lens :: Opens(k, s, lens) && c == s[HEADER_SIZE..lens]
  }

  /** ... and with no other answer: the bytes and the flag decide. */
  lemma PacketExactly<M>(k: Suite<M>, s: seq<byte>, skip: bool, p: Packet)
    ensures ParsePacket(k, s, skip) == p <==> PacketIs(k, s, skip, p)
  {
    hide *;
    PacketAnswers(k, s, skip);
    if PacketIs(k, s, skip, p) { OneAnswer(k, s, skip, p, ParsePacket(k, s, skip)); }
  }

  lemma PacketAnswers<M>(k: Suite<M>, s: seq<byte>, skip: bool)
    ensures PacketIs(k, s, skip, ParsePacket(k, s, skip))
  {
    hide Int64Value;
    if s != [] && !skip && |s| >= 24 && s[..16] == VERSION {
      var lens := Int64Value(s[16..24]);
      assert Announces(s, lens);
      if HEADER_SIZE < lens <= BUFFER_SIZE && lens <= |s| { FrameAnswers(k, s, lens); }
    }
  }

  lemma FrameAnswers<M>(k: Suite<M>, s: seq<byte>, lens: int)
    requires Announces(s, lens) && HEADER_SIZE < lens <= BUFFER_SIZE && lens <= |s|
    ensures PacketIs(k, s, false, OpenFrame(k, s[..lens]))
  {
    hide Int64Value;
    var f := s[..lens];
    assert f[24..84] == s[24..84] && f[84..] == s[84..lens] && f[84..92] == s[84..92];
    assert f[HEADER_SIZE..] == s[HEADER_SIZE..lens];
    assert HasFrame(s, lens);
    assert Opens(k, s, lens) <==> k.decrypt(f[24..84]) == Some(k.hash(f[84..]));
  }

  lemma OneAnswer<M>(k: Suite<M>, s: seq<byte>, skip: bool, p: Packet, q: Packet)
    requires PacketIs(k, s, skip, p) && PacketIs(k, s, skip, q)
    ensures p == q
  {
    hide Int64Value;
  }

  /** What a payload decodes to, and why it does not. */
  lemma DecodeExactly<M>(k: Suite<M>, data: seq<byte>, o: Outcome<M>)
    ensures Decode(k, data) == o <==>
      match o
      case Msg(m) => data != [] && exists b :: k.decrypt(data) == Some(b) && k.unmarshal(b) == Some(m)
      case Fail(NoData) => data == []
      case Fail(DecryptFailed) => data != [] && k.decrypt(data) == None
      case Fail(BadJson) => data != [] && exists b :: k.decrypt(data) == Some(b) && k.unmarshal(b) == None
      case Fail(_) => false
  {
  }

  // ---- The grammar of the wire ---------------------------------------------------

  /** One well-formed frame, stated without the parser; `more` says its countdown is not zero. */
  predicate WellFormed<M>(k: Suite<M>, f: seq<byte>, more: bool) {
    && HEADER_SIZE < |f| <= BUFFER_SIZE
    && f[..16] == VERSION
    && Int64Value(f[16..24]) == |f|
    && k.decrypt(f[24..84]) == Some(k.hash(f[84..]))
    && (Int64Value(f[84..92]) != 0) == more
  }

  /** Frames that all announce another one. */
  predicate Unfinished<M>(k: Suite<M>, fs: seq<seq<byte>>) {
    forall i | 0 <= i < |fs| :: WellFormed(k, fs[i], true)
  }

  /** The frames of exactly one message: only the last has countdown zero. */
  predicate MessageFrames<M>(k: Suite<M>, fs: seq<seq<byte>>) {
    fs != [] && Unfinished(k, fs[..|fs| - 1]) && WellFormed(k, fs[|fs| - 1], false)
  }

  function Body(f: seq<byte>): seq<byte> {
    if |f| < HEADER_SIZE then [] else f[HEADER_SIZE..]
  }

  function Payload(fs: seq<seq<byte>>): seq<byte> {
    if fs == [] then [] else Body(fs[0]) + Payload(fs[1..])
  }

  lemma PacketAccepts<M>(k: Suite<M>, f: seq<byte>, more: bool, rest: seq<byte>)
    requires WellFormed(k, f, more)
    ensures ParsePacket(k, f + rest, false) == if more then More(f[HEADER_SIZE..]) else Last(f[HEADER_SIZE..])
  {
    var s := f + rest;
    assert s[..16] == f[..16] && s[16..24] == f[16..24] && s[..|f|] == f;
  }

  lemma PacketSound<M>(k: Suite<M>, s: seq<byte>, skip: bool)
    ensures var p := ParsePacket(k, s, skip);
      p.More? || p.Last? ==>
        && !skip && WellFormed(k, s[..HEADER_SIZE + |p.chunk|], p.More?)
        && p.chunk == s[..HEADER_SIZE + |p.chunk|][HEADER_SIZE..]
  {
    var p := ParsePacket(k, s, skip);
    if p.More? || p.Last? {
      var f := s[..HEADER_SIZE + |p.chunk|];
      assert f[..16] == s[..16] && f[16..24] == s[16..24];
    }
  }

  lemma FrameIsRead<M>(
    k: Suite<M>, f: seq<byte>, more: bool, tail: seq<byte>, skipAt: Option<nat>, loads: nat, acc: seq<byte>)
    requires WellFormed(k, f, more) && !Skips(skipAt, loads)
    ensures ParseFrom(k, f + tail, skipAt, loads, acc) ==
      if more then
        var r := ParseFrom(k, tail, skipAt, loads + 1, acc + Body(f));
        ReadResult(r.outcome, |f| + r.used)
      else
        ReadResult(Decode(k, acc + Body(f)), |f|)
  {
    PacketAccepts(k, f, more, tail);
    hide ParsePacket, Decode;
    assert (f + tail)[|f|..] == tail;
  }

  lemma MessageFramesStep<M>(k: Suite<M>, fs: seq<seq<byte>>)
    requires MessageFrames(k, fs)
    ensures fs != [] && WellFormed(k, fs[0], |fs| > 1) && HEADER_SIZE < |fs[0]|
    ensures |fs| > 1 ==> MessageFrames(k, fs[1..])
  {
    if |fs| > 1 {
      assert fs[..|fs| - 1][0] == fs[0];
      assert fs[1..][..|fs| - 2] == fs[..|fs| - 1][1..];
    }
  }

  lemma MessageFramesCons<M>(k: Suite<M>, f: seq<byte>, gs: seq<seq<byte>>)
    requires WellFormed(k, f, true)
    ensures Unfinished(k, gs) ==> Unfinished(k, [f] + gs)
    ensures MessageFrames(k, gs) ==> MessageFrames(k, [f] + gs)
  {
    hide WellFormed;
    if MessageFrames(k, gs) {
      assert ([f] + gs)[..|gs|] == [f] + gs[..|gs| - 1];
    }
  }

  lemma RunStep(fs: seq<seq<byte>>)
    requires fs != []
    ensures Flatten(fs) == fs[0] + Flatten(fs[1..])
    ensures Payload(fs) == Body(fs[0]) + Payload(fs[1..])
    ensures |fs| == 1 ==> Flatten(fs[1..]) == Payload(fs[1..]) == []
  {
  }

  lemma SkipsEarlier(skipAt: Option<nat>, i: nat, j: nat)
    requires i <= j && !Skips(skipAt, j)
    ensures !Skips(skipAt, i)
  {
  }

  /** Completeness: a message's frames are read whole and nothing beyond them, unless the
      skip flag is seen during them. */
  lemma {:induction false} FramesAreRead<M>(k: Suite<M>, fs: seq<seq<byte>>, rest: seq<byte>,
                                            skipAt: Option<nat>, loads: nat, acc: seq<byte>)
    requires MessageFrames(k, fs)
    requires !Skips(skipAt, loads + |fs| - 1)
    ensures ParseFrom(k, Flatten(fs) + rest, skipAt, loads, acc)
         == ReadResult(Decode(k, acc + Payload(fs)), |Flatten(fs)|)
    decreases |fs|
  {
    hide *;
    MessageFramesStep(k, fs);
    RunStep(fs);
    var f, gs := fs[0], fs[1..];
    SkipsEarlier(skipAt, loads, loads + |fs| - 1);
    FrameIsRead(k, f, |fs| > 1, Flatten(gs) + rest, skipAt, loads, acc);
    assert Flatten(fs) + rest == f + (Flatten(gs) + rest);
    assert acc + Payload(fs) == (acc + Body(f)) + Payload(gs);
    if gs == [] {
      assert Flatten(gs) + rest == rest && acc + Payload(fs) == acc + Body(f);
    } else {
      FramesAreRead(k, gs, rest, skipAt, loads + 1, acc + Body(f));
    }
  }

  /** What the frames fs, taken from the front of s by one call, have to do with its result. */
  ghost predicate Accounts<M>(k: Suite<M>, fs: seq<seq<byte>>, s: seq<byte>, skipAt: Option<nat>, loads: nat,
                        acc: seq<byte>, r: ReadResult<M>)
  {
    && r.used <= |s|
    && Flatten(fs) == s[..r.used]
    && !(fs != [] && Skips(skipAt, loads + |fs| - 1))
    && (   (MessageFrames(k, fs) && r.outcome == Decode(k, acc + Payload(fs)))
        || (Unfinished(k, fs) && r.outcome.Fail?
            && ParsePacket(k, s[r.used..], Skips(skipAt, loads + |fs|)) == Bad(r.outcome.error)))
  }

  lemma PayloadCons(f: seq<byte>, gs: seq<seq<byte>>)
    ensures Payload([f] + gs) == Body(f) + Payload(gs)
  {
    assert ([f] + gs)[1..] == gs;
  }

  lemma AccountsBytes(f: seq<byte>, gs: seq<seq<byte>>, s: seq<byte>, used: nat)
    requires f <= s && used <= |s| - |f| && Flatten(gs) == s[|f|..][..used]
    ensures Flatten([f] + gs) == s[..|f| + used]
    ensures s[|f|..][used..] == s[|f| + used..]
  {
    hide Flatten;
    FlattenCons(f, gs);
    DropDrop(s, |f|, used);
    TakePast(f, s[|f|..], |f| + used);
    assert f + s[|f|..] == s;
  }

  lemma AccountsPayload(f: seq<byte>, gs: seq<seq<byte>>, acc: seq<byte>)
    ensures (acc + Body(f)) + Payload(gs) == acc + Payload([f] + gs)
  {
    PayloadCons(f, gs);
    hide Payload, Body;
    Assoc(acc, Body(f), Payload(gs));
  }

  lemma AccountsCons<M>(k: Suite<M>, f: seq<byte>, gs: seq<seq<byte>>, s: seq<byte>, skipAt: Option<nat>, loads: nat,
                        acc: seq<byte>, r: ReadResult<M>)
    requires WellFormed(k, f, true) && f <= s && !Skips(skipAt, loads)
    requires Accounts(k, gs, s[|f|..], skipAt, loads + 1, acc + Body(f), r)
    ensures Accounts(k, [f] + gs, s, skipAt, loads, acc, ReadResult(r.outcome, |f| + r.used))
  {
    hide WellFormed, ParsePacket, Decode, Unfinished, MessageFrames, Payload, Body, Flatten, Skips;
    MessageFramesCons(k, f, gs);
    AccountsBytes(f, gs, s, r.used);
    AccountsPayload(f, gs, acc);
    assert |[f] + gs| == 1 + |gs|;
  }

  lemma AccountsLast<M>(k: Suite<M>, c: seq<byte>, s: seq<byte>, skipAt: Option<nat>, loads: nat, acc: seq<byte>)
    requires ParsePacket(k, s, Skips(skipAt, loads)) == Last(c)
    ensures HEADER_SIZE + |c| <= |s|
    ensures var n := HEADER_SIZE + |c|;
      Accounts(k, [s[..n]], s, skipAt, loads, acc, ReadResult(Decode(k, acc + c), n))
  {
    PacketSound(k, s, Skips(skipAt, loads));
    hide ParsePacket, WellFormed, Decode;
    var f := s[..HEADER_SIZE + |c|];
    assert Flatten([f]) == f + Flatten([f][1..]) == f;
    assert Payload([f]) == Body(f) + Payload([f][1..]) == c;
    assert MessageFrames(k, [f]);
  }

  lemma AccountsBad<M>(k: Suite<M>, e: ReadError, s: seq<byte>, skipAt: Option<nat>, loads: nat, acc: seq<byte>)
    requires ParsePacket(k, s, Skips(skipAt, loads)) == Bad(e)
    ensures Accounts(k, [], s, skipAt, loads, acc, ReadResult(Fail(e), 0))
  {
    hide ParsePacket;
    assert s[0..] == s;
  }

  /** Soundness on arbitrary bytes: what one call consumes is exactly a run of well-formed
      frames, none of them after the skip flag was seen; a message comes from a finished run, and
      any failure but one of `Decode` leaves an unfinished run consumed and the offending
      packet unread. */
  lemma {:induction false} OnlyFramesAreRead<M>(
    k: Suite<M>, s: seq<byte>, skipAt: Option<nat>, loads: nat, acc: seq<byte>)
    ensures exists fs :: Accounts(k, fs, s, skipAt, loads, acc, ParseFrom(k, s, skipAt, loads, acc))
    decreases |s|
  {
    PacketSound(k, s, Skips(skipAt, loads));
    hide ParsePacket, WellFormed, Decode, Accounts, Skips;
    var r := ParseFrom(k, s, skipAt, loads, acc);
    match ParsePacket(k, s, Skips(skipAt, loads))
    case Bad(e) => AccountsBad(k, e, s, skipAt, loads, acc);
    case Last(c) => AccountsLast(k, c, s, skipAt, loads, acc);
    case More(c) =>
      var f := s[..HEADER_SIZE + |c|];
      OnlyFramesAreRead(k, s[|f|..], skipAt, loads + 1, acc + c);
      var r' := ParseFrom(k, s[|f|..], skipAt, loads + 1, acc + c);
      var gs :| Accounts(k, gs, s[|f|..], skipAt, loads + 1, acc + c, r');
      AccountsCons(k, f, gs, s, skipAt, loads, acc, r');
  }

  // ---- Round trips ------------------------------------------------------------------

  lemma FrameIsWellFormed<M(!new)>(k: Suite<M>, nonce: nat, num: int, chunk: seq<byte>)
    requires Valid(k) && 0 < |chunk| <= CHUNK_SIZE && 0 <= num < INT64_LIMIT
    ensures WellFormed(k, Frame(k, nonce, num, chunk), num != 0)
    ensures Body(Frame(k, nonce, num, chunk)) == chunk
  {
    var f := Frame(k, nonce, num, chunk);
    var body := Int64Bytes(num) + chunk;
    Int64RoundTrip(num);
    Int64RoundTrip(|chunk| + HEADER_SIZE);
    assert f[..16] == VERSION;
    assert f[16..24] == Int64Bytes(|chunk| + HEADER_SIZE);
    assert f[24..84] == k.encrypt(nonce, k.hash(body));
    assert f[84..] == body;
    assert f[84..92] == body[..8] == Int64Bytes(num);
    assert f[HEADER_SIZE..] == body[8..] == chunk;
  }

  lemma {:induction false} AssembledFrames<M(!new)>(k: Suite<M>, nonce: nat, cs: seq<seq<byte>>)
    requires Valid(k) && ChunkList(cs) && cs != []
    ensures MessageFrames(k, Assemble(k, nonce, cs))
    ensures Payload(Assemble(k, nonce, cs)) == Flatten(cs)
    decreases |cs|
  {
    var fs := Assemble(k, nonce, cs);
    FrameIsWellFormed(k, nonce, |cs| - 1, cs[0]);
    hide Frame, WellFormed, Body;
    assert fs[1..] == Assemble(k, nonce + 1, cs[1..]);
    if |cs| == 1 {
      assert cs[1..] == [] && fs[1..] == [];
    } else {
      AssembledFrames(k, nonce + 1, cs[1..]);
      MessageFramesCons(k, fs[0], fs[1..]);
      assert fs == [fs[0]] + fs[1..];
    }
  }

  /** The countdown of a frame is the number of frames after it. */
  lemma {:induction false} CountdownAt<M(!new)>(k: Suite<M>, nonce: nat, cs: seq<seq<byte>>, i: nat)
    requires Valid(k) && ChunkList(cs) && i < |cs|
    ensures |Assemble(k, nonce, cs)[i]| >= HEADER_SIZE
    ensures Int64Value(Assemble(k, nonce, cs)[i][84..92]) == |cs| - 1 - i
    decreases i
  {
    hide Frame;
    if i == 0 { FrameCountdown(k, nonce, |cs| - 1, cs[0]); } else { CountdownAt(k, nonce + 1, cs[1..], i - 1); }
  }

  lemma FrameCountdown<M(!new)>(k: Suite<M>, nonce: nat, num: int, chunk: seq<byte>)
    requires Valid(k) && 0 < |chunk| <= CHUNK_SIZE && 0 <= num < INT64_LIMIT
    ensures var f := Frame(k, nonce, num, chunk); |f| >= HEADER_SIZE && Int64Value(f[84..92]) == num
  {
    var f := Frame(k, nonce, num, chunk);
    var body := Int64Bytes(num) + chunk;
    Int64RoundTrip(num);
    assert f[84..] == body;
    assert f[84..92] == body[..8] == Int64Bytes(num);
  }

  /** Every encoded message is a run of frames that decodes to that message. */
  lemma EncodedFrames<M(!new)>(k: Suite<M>, nonce: nat, m: M)
    requires Valid(k) && Fits(k, m)
    ensures MessageFrames(k, Encode(k, nonce, m))
    ensures Decode(k, Payload(Encode(k, nonce, m))) == Msg(m)
  {
    var b := k.encrypt(nonce, k.marshal(m));
    ChunksPartition(b);
    assert b != [];
    AssembledFrames(k, nonce + 1, Chunks(b));
  }

  /** One message, with anything after it. */
  lemma MessageRoundTrip<M(!new)>(k: Suite<M>, nonce: nat, m: M, rest: seq<byte>, skipAt: Option<nat>)
    requires Valid(k) && Fits(k, m)
    requires !Skips(skipAt, |Encode(k, nonce, m)| - 1)
    ensures ParseMsg(k, Flatten(Encode(k, nonce, m)) + rest, skipAt)
         == ReadResult(Msg(m), |Flatten(Encode(k, nonce, m))|)
  {
    hide Encode, ParseFrom, Decode, MessageFrames;
    var fs := Encode(k, nonce, m);
    EncodedFrames(k, nonce, m);
    FramesAreRead(k, fs, rest, skipAt, 0, []);
    assert [] + Payload(fs) == Payload(fs);
  }

  lemma PartialFrameWaits<M>(k: Suite<M>, f: seq<byte>, more: bool, n: nat)
    requires WellFormed(k, f, more) && n < |f|
    ensures ParsePacket(k, f[..n], false) == Bad(TransportEnded)
  {
    if n >= 16 { assert f[..n][..16] == f[..16]; }
    if n >= 24 { assert f[..n][16..24] == f[16..24]; }
  }

  /** A strict prefix of a message's bytes yields no message: the read waits for more. */
  lemma {:induction false} PartialMessageWaits<M>(k: Suite<M>, fs: seq<seq<byte>>, n: nat, loads: nat, acc: seq<byte>)
    requires MessageFrames(k, fs) && n < |Flatten(fs)|
    ensures ParseFrom(k, Flatten(fs)[..n], None, loads, acc).outcome == Fail(TransportEnded)
    decreases |fs|
  {
    MessageFramesStep(k, fs);
    var s := Flatten(fs)[..n];
    var f := fs[0];
    if n < |f| {
      assert s == f[..n];
      PartialFrameWaits(k, f, |fs| > 1, n);
    } else {
      var tail := Flatten(fs[1..])[..n - |f|];
      TakePast(f, Flatten(fs[1..]), n);
      hide MessageFrames, WellFormed, ParseFrom, Flatten, Body;
      FrameIsRead(k, f, true, tail, None, loads, acc);
      PartialMessageWaits(k, fs[1..], n - |f|, loads + 1, acc + Body(f));
    }
  }

  /** The bytes of messages written one after the other, with any nonces. */
  function Wire<M(!new)>(k: Suite<M>, nonces: seq<nat>, ms: seq<M>): seq<byte>
    requires Valid(k) && |nonces| == |ms| && forall i | 0 <= i < |ms| :: Fits(k, ms[i])
  {
    if ms == [] then [] else Flatten(Encode(k, nonces[0], ms[0])) + Wire(k, nonces[1..], ms[1..])
  }

  /** Stream round trip: messages come back exactly, in order, and what follows them is
      parsed as if it stood alone. */
  lemma {:induction false} WireRoundTrip<M(!new)>(k: Suite<M>, nonces: seq<nat>, ms: seq<M>, rest: seq<byte>)
    requires Valid(k) && |nonces| == |ms| && forall i | 0 <= i < |ms| :: Fits(k, ms[i])
    ensures var r := ParseAll(k, rest);
      ParseAll(k, Wire(k, nonces, ms) + rest) == AllRead(ms + r.msgs, r.error, |Wire(k, nonces, ms)| + r.used)
    decreases |ms|
  {
    hide Encode, ParseMsg;
    if ms == [] {
      assert Wire(k, nonces, ms) + rest == rest;
      assert ms + ParseAll(k, rest).msgs == ParseAll(k, rest).msgs;
    } else {
      var w := Flatten(Encode(k, nonces[0], ms[0]));
      var tail := Wire(k, nonces[1..], ms[1..]) + rest;
      assert Wire(k, nonces, ms) + rest == w + tail;
      MessageRoundTrip(k, nonces[0], ms[0], tail, None);
      assert (w + tail)[|w|..] == tail;
      WireRoundTrip(k, nonces[1..], ms[1..], rest);
      assert [ms[0]] + (ms[1..] + ParseAll(k, rest).msgs) == ms + ParseAll(k, rest).msgs;
    }
  }

  /** With a message only partly arrived, exactly the complete ones before it are returned. */
  lemma WireWithPartialTail<M(!new)>(k: Suite<M>, nonces: seq<nat>, ms: seq<M>, nonce: nat, m: M, n: nat)
    requires Valid(k) && |nonces| == |ms| && forall i | 0 <= i < |ms| :: Fits(k, ms[i])
    requires Fits(k, m) && n < |Flatten(Encode(k, nonce, m))|
    ensures var r := ParseAll(k, Wire(k, nonces, ms) + Flatten(Encode(k, nonce, m))[..n]);
      r.msgs == ms && r.error == TransportEnded
  {
    EncodedFrames(k, nonce, m);
    PartialMessageWaits(k, Encode(k, nonce, m), n, 0, []);
    WireRoundTrip(k, nonces, ms, Flatten(Encode(k, nonce, m))[..n]);
  }

  /** How many of the messages are wholly within the first n bytes of their wire. */
  ghost function Arrived<M(!new)>(k: Suite<M>, nonces: seq<nat>, ms: seq<M>, n: nat): (c: nat)
    requires Valid(k) && |nonces| == |ms| && forall i | 0 <= i < |ms| :: Fits(k, ms[i])
    ensures c <= |ms|
    decreases |ms|
  {
    if ms == [] then 0
    else
      var len := |Flatten(Encode(k, nonces[0], ms[0]))|;
      if n < len then 0 else 1 + Arrived(k, nonces[1..], ms[1..], n - len)
  }

  lemma ParseAllOne<M(!new)>(k: Suite<M>, nonce: nat, m: M, rest: seq<byte>)
    requires Valid(k) && Fits(k, m)
    ensures var r := ParseAll(k, rest);
      var w := Flatten(Encode(k, nonce, m));
      ParseAll(k, w + rest) == AllRead([m] + r.msgs, r.error, |w| + r.used)
  {
    hide Encode, ParseMsg, Flatten;
    var w := Flatten(Encode(k, nonce, m));
    MessageRoundTrip(k, nonce, m, rest, None);
    assert (w + rest)[|w|..] == rest;
  }

  lemma ParseAllPartial<M(!new)>(k: Suite<M>, nonce: nat, m: M, n: nat)
    requires Valid(k) && Fits(k, m) && n < |Flatten(Encode(k, nonce, m))|
    ensures var r := ParseAll(k, Flatten(Encode(k, nonce, m))[..n]); r.msgs == [] && r.error == TransportEnded
  {
    hide Encode, ParseFrom, Flatten;
    EncodedFrames(k, nonce, m);
    PartialMessageWaits(k, Encode(k, nonce, m), n, 0, []);
  }

  lemma ParseAllNothing<M>(k: Suite<M>)
    ensures ParseAll(k, []).msgs == [] && ParseAll(k, []).error == TransportEnded
  {
  }

  /** However much of the wire has arrived, cut at any byte: exactly the messages that arrived whole are read. */
  lemma {:induction false} WirePrefixRead<M(!new)>(k: Suite<M>, nonces: seq<nat>, ms: seq<M>, n: nat)
    requires Valid(k) && |nonces| == |ms| && forall i | 0 <= i < |ms| :: Fits(k, ms[i])
    requires n <= |Wire(k, nonces, ms)|
    ensures var r := ParseAll(k, Wire(k, nonces, ms)[..n]);
      r.msgs == ms[..Arrived(k, nonces, ms, n)] && r.error == TransportEnded
    ensures n == |Wire(k, nonces, ms)| ==> Arrived(k, nonces, ms, n) == |ms|
    decreases |ms|
  {
    hide Encode, ParseAll, Flatten, Fits;
    var c := Arrived(k, nonces, ms, n);
    if ms == [] {
      ParseAllNothing(k);
      assert Wire(k, nonces, ms)[..n] == [] && ms[..0] == [];
    } else {
      var w := Flatten(Encode(k, nonces[0], ms[0]));
      var rest := Wire(k, nonces[1..], ms[1..]);
      if n < |w| {
        ParseAllPartial(k, nonces[0], ms[0], n);
        assert (w + rest)[..n] == w[..n] && ms[..0] == [];
      } else {
        WirePrefixRead(k, nonces[1..], ms[1..], n - |w|);
        TakePast(w, rest, n);
        ParseAllOne(k, nonces[0], ms[0], rest[..n - |w|]);
        assert [ms[0]] + ms[1..][..c - 1] == ms[..c];
      }
    }
  }

  // ---- The hypothesis is satisfiable -------------------------------------------------

  function Zeros(n: nat): (s: seq<byte>) ensures |s| == n { seq(n, _ => 0) }

  function ToySuite<M>(show: M -> seq<byte>, parse: seq<byte> -> Option<M>): Suite<M> {
    Suite((n: nat, p: seq<byte>) => Zeros(28) + p,
          (c: seq<byte>) => if |c| < 28 then None else Some(c[28..]),
          (b: seq<byte>) => Zeros(32), show, parse)
  }

  lemma ToySuiteIsValid<M(!new)>(show: M -> seq<byte>, parse: seq<byte> -> Option<M>)
    requires forall m :: parse(show(m)) == Some(m)
    ensures Valid(ToySuite(show, parse))
  {
    var k := ToySuite(show, parse);
    forall n: nat, p: seq<byte> ensures |k.encrypt(n, p)| == |p| + 28 && k.decrypt(k.encrypt(n, p)) == Some(p) {
      assert (Zeros(28) + p)[28..] == p;
    }
  }
}
