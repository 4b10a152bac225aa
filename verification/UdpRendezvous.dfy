/** `proxyUP2P`: two clients find each other's public UDP address through datagrams that may be
    lost, repeated and reordered. */
module UdpRendezvous {
  import opened Bytes

  type ClientId = nat
  type Addr = nat

  /** A P2PUdpO datagram for the rendezvous: whether its SrcName is registered just then, to whom;
      the intranet address it carries and the public address it came from. */
  datatype Datagram = Datagram(known: bool, client: ClientId, name: string, inner: Addr, public: Addr)

  datatype SubInfo = SubInfo(
    localName: string, remoteName: string, localIntranet: Addr, remoteIntranet: Addr,
    localPublic: Addr, remotePublic: Addr)

  /** A P2PUdpA1 message to a client. */
  datatype Reply = Reply(to: ClientId, addr: Addr, info: SubInfo)

  /** r goes to the sender of a and tells it about the sender of b: the address to send to, and the two names
      and addresses, its own as the local ones. */
  predicate Tells(r: Reply, a: Datagram, b: Datagram) {
    && r.to == a.client && r.addr == b.public
    && r.info.localName == a.name && r.info.remoteName == b.name
    && r.info.localIntranet == a.inner && r.info.remoteIntranet == b.inner
    && r.info.localPublic == a.public && r.info.remotePublic == b.public
  }

  /** The replies to a rendezvous of a and b: one to each, about the other. */
  predicate PairOf(sent: seq<Reply>, a: Datagram, b: Datagram) {
    |sent| == 2 && Tells(sent[0], a, b) && Tells(sent[1], b, a)
  }

  class ProxyUP2P {
    var step: nat
    var c1: Option<Datagram>   // c1, c1IAddr and c1PAddr
    var c2: Option<Datagram>

    ghost predicate Valid() reads this {
      (step > 0 ==> c1.Some?) && (step > 1 ==> c2.Some?)
    }

    constructor ()
      ensures Valid() && step == 0
    {
      step, c1, c2 := 0, None, None;
    }

    /** True once the rendezvous is over. */
    method Handle(d: Datagram) returns (done: bool, sent: seq<Reply>)
      requires Valid()
      modifies this
      ensures Valid() && step >= old(step)
      ensures old(step) == 0 ==> step == 1 && c1 == Some(d) && !done && sent == []
      ensures old(step) == 1 && d.public == old(c1).value.public ==> step == 1 && c1 == old(c1) && !done && sent == []
      ensures old(step) == 1 && d.public != old(c1).value.public ==>
        step == 2 && done && PairOf(sent, old(c1).value, d) && c1 == old(c1) && c2 == Some(d)
      ensures old(step) > 1 ==> step == old(step) && done && sent == []
    {
      sent := [];
      if step == 0 {
        c1 := Some(d);
        step := step + 1;
        done := false;
      } else if step == 1 {
        var a := c1.value;
        if d.public == a.public { return false, []; }
        c2 := Some(d);
        step := step + 1;
        var resp1 := SubInfo(a.name, d.name, a.inner, d.inner, a.public, d.public);
        var resp2 := SubInfo(d.name, a.name, d.inner, a.inner, d.public, a.public);
        sent := [Reply(a.client, d.public, resp1)];
        sent := sent + [Reply(d.client, a.public, resp2)];
        done := true;
      } else {
        done := true;
      }
    }
  }

  function Known(ds: seq<Datagram>): seq<Datagram> {
    if ds == [] then [] else
      var rest := Known(ds[..|ds| - 1]);
      if ds[|ds| - 1].known then rest + [ds[|ds| - 1]] else rest
  }

  /** Exactly the datagrams of known clients are looked at, in their order. */
  lemma {:induction false} KnownExactly(a: seq<Datagram>, b: seq<Datagram>, d: Datagram)
    ensures Known(a + b) == Known(a) + Known(b)
    ensures Known([d]) == if d.known then [d] else []
  {
    assert [d][..0] == [];
    if b == [] {
      assert a + b == a;
    } else {
      var n := |b| - 1;
      KnownExactly(a, b[..n], d);
      assert (a + b)[..|a + b| - 1] == a + b[..n];
    }
  }

  /** The first n datagrams came from one public address. */
  predicate OneSource(ks: seq<Datagram>, n: nat) {
    n <= |ks| && forall i | 0 <= i < n :: ks[i].public == ks[0].public
  }

  /** What must have been sent after the datagrams ks: nothing while all came from one address;
      from then on, the pair made of the first datagram and the first from elsewhere. */
  ghost predicate Expected(ks: seq<Datagram>, sent: seq<Reply>) {
    || (OneSource(ks, |ks|) && sent == [])
    || (exists j :: 0 < j < |ks| && OneSource(ks, j) && ks[j].public != ks[0].public && PairOf(sent, ks[0], ks[j]))
  }

  /** The server's datagram loop, for one rendezvous entered in its map: datagrams of unknown
      clients are ignored, and the entry is deleted when the rendezvous is over. */
  method Listen(ds: seq<Datagram>) returns (sent: seq<Reply>)
    ensures Expected(Known(ds), sent)
  {
    sent := [];
    var up2p := new ProxyUP2P();
    var listed := true;
    ghost var j := 0;
    assert ds[..0] == [];
    for n := 0 to |ds|
      invariant up2p.Valid() && fresh(up2p)
      invariant listed ==> sent == [] && up2p.step <= 1 && OneSource(Known(ds[..n]), |Known(ds[..n])|)
      invariant listed ==>
        if Known(ds[..n]) == [] then up2p.step == 0 else up2p.step == 1 && up2p.c1 == Some(Known(ds[..n])[0])
      invariant !listed ==> (var ks := Known(ds[..n]);
        0 < j < |ks| && OneSource(ks, j) && ks[j].public != ks[0].public && PairOf(sent, ks[0], ks[j]))
    {
      assert ds[..n + 1][..n] == ds[..n];
      if ds[n].known && listed {
        var done, out := up2p.Handle(ds[n]);
        sent := sent + out;
        if done {
          j := |Known(ds[..n])|;
          listed := false;
        }
      }
    }
    assert ds[..|ds|] == ds;
  }

  /** Nothing else can have been sent: the datagrams decide. */
  lemma ExpectedIsUnique(ks: seq<Datagram>, s: seq<Reply>, t: seq<Reply>)
    requires Expected(ks, s) && Expected(ks, t)
    ensures s == t
  {
    if s != [] && t != [] {
      var i :| 0 < i < |ks| && OneSource(ks, i) && ks[i].public != ks[0].public && PairOf(s, ks[0], ks[i]);
      var j :| 0 < j < |ks| && OneSource(ks, j) && ks[j].public != ks[0].public && PairOf(t, ks[0], ks[j]);
      assert i == j;
    }
  }

  /** Further datagrams never change or add to what was sent. */
  lemma RepliesAreFinal(ks: seq<Datagram>, more: seq<Datagram>, sent: seq<Reply>, later: seq<Reply>)
    requires Expected(ks, sent) && sent != [] && Expected(ks + more, later)
    ensures later == sent
  {
    var j :| 0 < j < |ks| && OneSource(ks, j) && ks[j].public != ks[0].public && PairOf(sent, ks[0], ks[j]);
    var all := ks + more;
    assert OneSource(all, j) && all[j] == ks[j] && all[0] == ks[0];
    assert Expected(all, sent);
    ExpectedIsUnique(all, sent, later);
  }

  /** The two replies go to the two ends, the first to the sender of the first datagram, each with the
      other's address, in mirror image. */
  lemma PairIsMirrored(ks: seq<Datagram>, sent: seq<Reply>)
    requires Expected(ks, sent) && sent != []
    ensures |sent| == 2
    ensures var (a, b) := (sent[0].info, sent[1].info);
      && a.localName == b.remoteName && a.remoteName == b.localName
      && a.localIntranet == b.remoteIntranet && a.remoteIntranet == b.localIntranet
      && a.localPublic == b.remotePublic && a.remotePublic == b.localPublic
      && a.localPublic != b.localPublic
      && sent[0].addr == b.localPublic && sent[1].addr == a.localPublic
    ensures |ks| > 0 && sent[0].to == ks[0].client && sent[0].info.localPublic == ks[0].public
    ensures exists j ::
      && 0 < j < |ks| && OneSource(ks, j) && ks[j].public != ks[0].public
      && sent[1].to == ks[j].client && sent[1].info.localPublic == ks[j].public
  {
  }
}
