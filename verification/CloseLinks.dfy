/** Links between clients: that a close reaches the peer, however often links are made, and that the links
    are a matching if no connection asks for more than one. */
module CloseLinks {
  import opened Bytes
  import opened CloseProtocol
  import opened CloseInvariants

  /** The label is a request for a link of x. */
  predicate Joins(l: Label, x: nat) {
    (l.StartLink? && (l.c1 == x || l.c2 == x)) || (l.LinkForeign? && l.x == x)
  }

  predicate NeverJoins(trace: seq<Label>, x: nat) {
    forall i | 0 <= i < |trace| :: !Joins(trace[i], x)
  }

  // ---- A close reaches the peer ----------------------------------------------------------------

  predicate LinksOne(op: Op, a: nat) {
    op.LinkUp? && !op.l.LDone? && (op.c1 == a || op.c2 == a)
  }

  /** a's link is this one, and nobody is about to change that. */
  predicate LinkStands(st: State, a: nat, link: Link) {
    && a < |st.clients| && st.clients[a].link == link
    && (forall i | 0 <= i < |st.ops| :: !LinksOne(st.ops[i], a))
  }

  /** Whom a body closes that reads this link. */
  function Target(link: Link): Option<nat> {
    if link.Peer? then Some(link.y) else None
  }

  /** ... and a's body has not yet read its link, or has read this one. */
  predicate WillReadLink(st: State, a: nat, link: Link) {
    LinkStands(st, a, link) && (st.clients[a].pc.BeforeLink() || st.clients[a].saw == Target(link))
  }

  lemma WillReadLinkBody(st: State, x: nat, pick: nat, a: nat, link: Link)
    requires CloseEnabled(st, x, pick) && WillReadLink(st, a, link)
    requires st.clients[a].pc.BeforeLink() ==> st.clients[a].saw.None?
    ensures WillReadLink(CloseNext(st, x, pick), a, link)
  {
    BodyReadsLink(st, x, pick, a);
    hide CloseNext, LinksOne;
  }

  /** A body's step leaves operations and links alone; reading the link is its step past BeforeLink. */
  lemma BodyReadsLink(st: State, x: nat, pick: nat, a: nat)
    requires CloseEnabled(st, x, pick) && a < |st.clients|
    requires st.clients[a].pc.BeforeLink() ==> st.clients[a].saw.None?
    ensures var t := CloseNext(st, x, pick);
      && t.ops == st.ops && |t.clients| == |st.clients| && t.clients[a].link == st.clients[a].link
      && (st.clients[a].pc.BeforeLink() ==>
            t.clients[a].pc.BeforeLink() || t.clients[a].saw == Target(st.clients[a].link))
      && (!st.clients[a].pc.BeforeLink() ==> t.clients[a].saw == st.clients[a].saw)
  {
  }

  /** What a step of operation i does to a client that no unfinished linking operation is about. */
  lemma OpSparesLink(st: State, i: nat, pick: Name, a: nat)
    requires OpEnabled(st, i, pick) && a < |st.clients| && !LinksOne(st.ops[i], a)
    ensures var t := OpNext(st, i, pick);
      && |t.clients| == |st.clients| && t.clients[a].link == st.clients[a].link && t.clients[a].saw == st.clients[a].saw
      && (st.clients[a].pc.BeforeLink() ==> t.clients[a].pc.BeforeLink())
  {
  }

  lemma OpSparesOps(st: State, i: nat, pick: Name, a: nat)
    requires OpEnabled(st, i, pick) && !LinksOne(st.ops[i], a)
    ensures var t := OpNext(st, i, pick);
      && |t.ops| == |st.ops| && !LinksOne(t.ops[i], a)
      && (forall j | 0 <= j < |st.ops| && j != i :: t.ops[j] == st.ops[j])
  {
  }

  lemma WillReadLinkOp(st: State, i: nat, pick: Name, a: nat, link: Link)
    requires OpEnabled(st, i, pick) && WillReadLink(st, a, link)
    ensures WillReadLink(OpNext(st, i, pick), a, link)
  {
    assert !LinksOne(st.ops[i], a);
    OpSparesLink(st, i, pick, a);
    OpSparesOps(st, i, pick, a);
    hide OpNext, LinksOne;
    forall j | 0 <= j < |st.ops| ensures !LinksOne(OpNext(st, i, pick).ops[j], a) {
      if j != i { assert OpNext(st, i, pick).ops[j] == st.ops[j]; }
    }
  }

  lemma WillReadLinkStep(st: State, l: Label, a: nat, link: Link)
    requires Enabled(st, l) && WillReadLink(st, a, link) && !Joins(l, a)
    requires st.clients[a].pc.BeforeLink() ==> st.clients[a].saw.None?
    ensures WillReadLink(Next(st, l), a, link)
  {
    hide CloseEnabled, CloseNext, OpEnabled, OpNext;
    if l.StepClose? {
      WillReadLinkBody(st, l.x, l.pick, a, link);
    } else if l.StepOp? {
      WillReadLinkOp(st, l.i, l.pickName, a, link);
    }
  }

  lemma NothingRead(st: State, a: nat)
    requires Inv(st) && a < |st.clients|
    ensures st.clients[a].pc.BeforeLink() ==> st.clients[a].saw.None?
  {
    assert ClientInv(st, a);
  }

  lemma {:induction false} WillReadLinkRun(st: State, trace: seq<Label>, t: State, a: nat, link: Link)
    requires Inv(st) && Leads(st, trace, t) && Conforming(trace) && NeverJoins(trace, a) && WillReadLink(st, a, link)
    ensures WillReadLink(t, a, link)
    decreases |trace|
  {
    if trace != [] {
      assert a < |st.clients|;
      NothingRead(st, a);
      hide Inv, Next, Enabled, WillReadLink, Joins;
      assert trace[0].Connect? ==> !trace[0].role.Both?;
      assert !Joins(trace[0], a);
      StepInv(st, trace[0]);
      WillReadLinkStep(st, trace[0], a, link);
      WillReadLinkRun(Next(st, trace[0]), trace[1..], t, a, link);
    }
  }

  /** Close propagates: if a's link stands (at st) and it asks for no other, and its body begins then and has
      finished (at t), it has closed exactly whom the link names: with a peer b, b is disabled; with a foreign
      connection, it closed no client over its link. This holds whatever links a had before, and if b is a. */
  lemma CloseReachesPeer(before: seq<Label>, st: State, after: seq<Label>, t: State, a: nat, link: Link)
    requires Leads(EMPTY, before, st) && Leads(st, after, t) && Conforming(before) && Conforming(after)
    requires LinkStands(st, a, link) && NeverJoins(after, a)
    requires st.clients[a].pc.Unclosed? && a < |t.clients| && t.clients[a].pc.Done?
    ensures t.clients[a].saw == Target(link)
    ensures link.Peer? ==> link.y < |t.clients| && t.clients[link.y].disable
  {
    ReachableInv(before, st);
    hide Inv, Leads, LinkStands;
    WillReadLinkRun(st, after, t, a, link);
    RunInv(st, after, t);
    DoneDisabledPeer(t, a, link);
  }

  lemma DoneDisabledPeer(t: State, a: nat, link: Link)
    requires Inv(t) && WillReadLink(t, a, link) && t.clients[a].pc.Done?
    ensures t.clients[a].saw == Target(link)
    ensures link.Peer? ==> link.y < |t.clients| && t.clients[link.y].disable
  {
    hide OpInv, RegistryInv;
    assert ClientInv(t, a);
  }

  /** A VPN request links to the foreign connection, whatever the link was. */
  lemma ForeignStands(st: State, x: nat)
    requires Enabled(st, LinkForeign(x)) && forall i | 0 <= i < |st.ops| :: !LinksOne(st.ops[i], x)
    ensures LinkStands(Next(st, LinkForeign(x)), x, Foreign)
  {
  }

  // ---- At most one link a connection -------------------------------------------------------------

  /** No connection asks for a link twice, or takes part in a room with itself. */
  ghost predicate OneJoinEach(trace: seq<Label>) {
    && (forall i | 0 <= i < |trace| && trace[i].StartLink? :: trace[i].c1 != trace[i].c2)
    && (forall i, k, x: nat | 0 <= i < k < |trace| && Joins(trace[i], x) :: !Joins(trace[k], x))
  }

  /** The requests still to come are from clients without one so far. */
  ghost predicate StillToJoin(st: State, trace: seq<Label>) {
    forall i, x: nat | 0 <= i < |trace| && Joins(trace[i], x) && x < |st.clients| :: st.clients[x].room.NoRoom?
  }

  /** Client x takes part in linking operation i, and is linked to nobody but the other one. */
  predicate LinkedBy(st: State, x: nat, i: nat) requires x < |st.clients| {
    && i < |st.ops| && st.ops[i].LinkUp?
    && (x == st.ops[i].c1 || x == st.ops[i].c2)
    && (st.clients[x].link.Peer? ==> st.clients[x].link.y == (if x == st.ops[i].c1 then st.ops[i].c2 else st.ops[i].c1))
  }

  predicate JoinedInv(st: State, x: nat) requires x < |st.clients| {
    var c := st.clients[x];
    && (c.link.Peer? ==> c.room.Joined?)
    && (c.room.NoRoom? ==> c.link.NoLink?)
    && (c.room.Joined? ==> LinkedBy(st, x, c.room.i))
  }

  predicate LinkingInv(st: State, i: nat) requires i < |st.ops| && st.ops[i].LinkUp? {
    var LinkUp(c1, c2, l) := st.ops[i];
    && c1 < |st.clients| && c2 < |st.clients| && c1 != c2
    && st.clients[c1].room == st.clients[c2].room == Joined(i)
    && st.clients[c1].link == (if l.LFirst? then NoLink else Peer(c2))
    && st.clients[c2].link == (if l.LDone? then Peer(c1) else NoLink)
  }

  predicate JoinInv(st: State) {
    && (forall x | 0 <= x < |st.clients| :: JoinedInv(st, x))
    && (forall i | 0 <= i < |st.ops| && st.ops[i].LinkUp? :: LinkingInv(st, i))
  }

  predicate SameLink(c: Client, d: Client) { d.link == c.link && d.room == c.room }

  /** Linking operations and links are as they were, what is new is neither. */
  predicate Aside(st: State, t: State) {
    && |st.clients| <= |t.clients| && |st.ops| <= |t.ops|
    && (forall x | 0 <= x < |st.clients| :: SameLink(st.clients[x], t.clients[x]))
    && (forall x | |st.clients| <= x < |t.clients| :: t.clients[x].link.NoLink? && t.clients[x].room.NoRoom?)
    && (forall i | 0 <= i < |st.ops| :: if st.ops[i].LinkUp? then t.ops[i] == st.ops[i] else !t.ops[i].LinkUp?)
    && (forall i | |st.ops| <= i < |t.ops| :: !t.ops[i].LinkUp?)
  }

  lemma AsideJoined(st: State, t: State, x: nat)
    requires JoinInv(st) && Aside(st, t) && x < |t.clients|
    ensures JoinedInv(t, x)
  {
    if x < |st.clients| { assert JoinedInv(st, x) && SameLink(st.clients[x], t.clients[x]); }
  }

  lemma AsideLinking(st: State, t: State, i: nat)
    requires JoinInv(st) && Aside(st, t) && i < |t.ops| && t.ops[i].LinkUp?
    ensures LinkingInv(t, i)
  {
    assert i < |st.ops| && t.ops[i] == st.ops[i] && LinkingInv(st, i);
    var LinkUp(c1, c2, l) := st.ops[i];
    assert SameLink(st.clients[c1], t.clients[c1]) && SameLink(st.clients[c2], t.clients[c2]);
  }

  lemma AsideInv(st: State, t: State)
    requires JoinInv(st) && Aside(st, t)
    ensures JoinInv(t)
  {
    hide Aside, JoinedInv, LinkingInv;
    forall x | 0 <= x < |t.clients| ensures JoinedInv(t, x) { AsideJoined(st, t, x); }
    forall i | 0 <= i < |t.ops| && t.ops[i].LinkUp? ensures LinkingInv(t, i) { AsideLinking(st, t, i); }
  }

  lemma BodyAside(st: State, x: nat, pick: nat)
    requires CloseEnabled(st, x, pick)
    ensures Aside(st, CloseNext(st, x, pick))
  {
  }

  lemma OpAside(st: State, i: nat, pick: Name)
    requires OpEnabled(st, i, pick) && !st.ops[i].LinkUp?
    ensures Aside(st, OpNext(st, i, pick))
  {
    hide Aside, AttachNext, RegisterNext, ShutdownNext;
    match st.ops[i]
    case Closing(call) => ClosingAside(st, i);
    case Attach(_, _, _) => AttachAside(st, i);
    case Register(_, _, _, _) => RegisterAside(st, i);
    case Shutdown(_) => ShutdownAside(st, i, pick);
    case _ =>
  }

  lemma ClosingAside(st: State, i: nat)
    requires OpEnabled(st, i, "") && st.ops[i].Closing?
    ensures Aside(st, OpNext(st, i, ""))
  {
  }

  lemma AttachAside(st: State, i: nat)
    requires OpEnabled(st, i, "") && st.ops[i].Attach?
    ensures Aside(st, AttachNext(st, i))
  {
  }

  lemma RegisterAside(st: State, i: nat)
    requires OpEnabled(st, i, "") && st.ops[i].Register?
    ensures Aside(st, RegisterNext(st, i))
  {
  }

  lemma ShutdownAside(st: State, i: nat, pick: Name)
    requires OpEnabled(st, i, pick) && st.ops[i].Shutdown?
    ensures Aside(st, ShutdownNext(st, i, pick))
  {
  }

  predicate IsLinking(st: State, l: Label) {
    l.StartLink? || l.LinkForeign? || (l.StepOp? && l.i < |st.ops| && st.ops[l.i].LinkUp?)
  }

  lemma StartAside(st: State, l: Label)
    requires Enabled(st, l) && !IsLinking(st, l) && !l.StepClose? && !l.StepOp?
    ensures Aside(st, Next(st, l))
  {
  }

  lemma LinkingStepInv(st: State, l: Label)
    requires JoinInv(st) && Enabled(st, l) && l.StepOp? && st.ops[l.i].LinkUp?
    ensures JoinInv(Next(st, l))
  {
    var t, i := Next(st, l), l.i;
    var LinkUp(c1, c2, _) := st.ops[i];
    assert LinkingInv(st, i);
    forall x | 0 <= x < |t.clients| ensures JoinedInv(t, x) { assert JoinedInv(st, x); }
    forall j | 0 <= j < |t.ops| && t.ops[j].LinkUp? ensures LinkingInv(t, j) { assert LinkingInv(st, j); }
  }

  lemma StartLinkInv(st: State, l: Label)
    requires JoinInv(st) && Enabled(st, l) && (l.StartLink? || l.LinkForeign?) && (l.StartLink? ==> l.c1 != l.c2)
    requires forall x: nat | Joins(l, x) && x < |st.clients| :: st.clients[x].room.NoRoom?
    ensures JoinInv(Next(st, l))
  {
    var t := Next(st, l);
    if l.StartLink? {
      assert Joins(l, l.c1) && Joins(l, l.c2) && JoinedInv(st, l.c1) && JoinedInv(st, l.c2);
    } else {
      assert Joins(l, l.x) && JoinedInv(st, l.x);
    }
    forall x | 0 <= x < |t.clients| ensures JoinedInv(t, x) { assert JoinedInv(st, x); }
    forall j | 0 <= j < |t.ops| && t.ops[j].LinkUp? ensures LinkingInv(t, j) {
      if j < |st.ops| { assert LinkingInv(st, j); }
    }
  }

  lemma JoinStep(st: State, l: Label)
    requires JoinInv(st) && Enabled(st, l) && (l.StartLink? ==> l.c1 != l.c2)
    requires forall x: nat | Joins(l, x) && x < |st.clients| :: st.clients[x].room.NoRoom?
    ensures JoinInv(Next(st, l))
  {
    hide JoinInv, CloseEnabled, CloseNext, OpEnabled, OpNext, Joins, Aside;
    if l.StepClose? {
      BodyAside(st, l.x, l.pick);
      AsideInv(st, Next(st, l));
    } else if l.StartLink? || l.LinkForeign? {
      StartLinkInv(st, l);
    } else if l.StepOp? {
      assert l.i < |st.ops| by { OpInRange(st, l.i, l.pickName); }
      if st.ops[l.i].LinkUp? {
        LinkingStepInv(st, l);
      } else {
        OpAside(st, l.i, l.pickName);
        AsideInv(st, Next(st, l));
      }
    } else {
      StartAside(st, l);
      AsideInv(st, Next(st, l));
    }
  }

  lemma OpInRange(st: State, i: nat, pick: Name)
    requires OpEnabled(st, i, pick)
    ensures i < |st.ops|
  {
  }

  /** Only the clients a label is a request of enter a room by it. */
  lemma RoomsStep(st: State, l: Label, x: nat)
    requires Enabled(st, l) && x < |Next(st, l).clients| && !Joins(l, x)
    requires x < |st.clients| ==> st.clients[x].room.NoRoom?
    ensures Next(st, l).clients[x].room.NoRoom?
  {
    hide CloseEnabled, CloseNext, OpEnabled, OpNext;
    if l.StepClose? { BodyRooms(st, l.x, l.pick, x); } else if l.StepOp? { OpRooms(st, l.i, l.pickName, x); }
  }

  lemma BodyRooms(st: State, y: nat, pick: nat, x: nat)
    requires CloseEnabled(st, y, pick)
    ensures |CloseNext(st, y, pick).clients| == |st.clients|
    ensures x < |st.clients| ==> CloseNext(st, y, pick).clients[x].room == st.clients[x].room
  {
  }

  lemma OpRooms(st: State, i: nat, pick: Name, x: nat)
    requires OpEnabled(st, i, pick)
    ensures |OpNext(st, i, pick).clients| == |st.clients|
    ensures x < |st.clients| ==> OpNext(st, i, pick).clients[x].room == st.clients[x].room
  {
  }

  lemma ClientsStay(st: State, l: Label)
    requires Enabled(st, l)
    ensures |st.clients| <= |Next(st, l).clients|
  {
    hide CloseEnabled, CloseNext, OpEnabled, OpNext;
    if l.StepClose? { BodyRooms(st, l.x, l.pick, 0); } else if l.StepOp? { OpRooms(st, l.i, l.pickName, 0); }
  }

  lemma StillToJoinStep(st: State, trace: seq<Label>)
    requires trace != [] && Enabled(st, trace[0]) && StillToJoin(st, trace) && OneJoinEach(trace)
    ensures StillToJoin(Next(st, trace[0]), trace[1..]) && OneJoinEach(trace[1..])
  {
    var t := Next(st, trace[0]);
    hide Enabled, Next, Joins;
    forall i, x: nat | 0 <= i < |trace[1..]| && Joins(trace[1..][i], x) && x < |t.clients|
      ensures t.clients[x].room.NoRoom?
    {
      assert trace[1..][i] == trace[i + 1];
      ClientsStay(st, trace[0]);
      RoomsStep(st, trace[0], x);
    }
  }

  lemma {:induction false} JoinRun(st: State, trace: seq<Label>, t: State)
    requires JoinInv(st) && Leads(st, trace, t) && StillToJoin(st, trace) && OneJoinEach(trace)
    ensures JoinInv(t)
    decreases |trace|
  {
    hide JoinInv, Next, Enabled, Joins;
    if trace != [] {
      JoinStep(st, trace[0]);
      StillToJoinStep(st, trace);
      JoinRun(Next(st, trace[0]), trace[1..], t);
    }
  }

  lemma JoinHolds(trace: seq<Label>, t: State)
    requires Leads(EMPTY, trace, t) && OneJoinEach(trace)
    ensures JoinInv(t)
  {
    JoinRun(EMPTY, trace, t);
  }

  /** If no connection asks for a link twice, the links form a symmetric matching as soon as both ends are set. */
  lemma LinksMatch(trace: seq<Label>, t: State, x: nat)
    requires Leads(EMPTY, trace, t) && OneJoinEach(trace)
    requires x < |t.clients| && t.clients[x].link.Peer?
    ensures var y := t.clients[x].link.y;
      && y != x && y < |t.clients|
      && (t.clients[y].link == Peer(x) || t.clients[y].link == NoLink)
  {
    JoinHolds(trace, t);
    assert JoinedInv(t, x);
    assert LinkingInv(t, t.clients[x].room.i);
  }

  /** ... and when a linking operation has returned both are set, for good. */
  lemma LinkedAfterReturn(trace: seq<Label>, t: State, i: nat)
    requires Leads(EMPTY, trace, t) && OneJoinEach(trace)
    requires i < |t.ops| && t.ops[i].LinkUp? && t.ops[i].l.LDone?
    ensures var LinkUp(c1, c2, _) := t.ops[i];
      LinkStands(t, c1, Peer(c2)) && LinkStands(t, c2, Peer(c1))
  {
    JoinHolds(trace, t);
    assert LinkingInv(t, i);
    forall j | 0 <= j < |t.ops| ensures !LinksOne(t.ops[j], t.ops[i].c1) && !LinksOne(t.ops[j], t.ops[i].c2) {
      if t.ops[j].LinkUp? { assert LinkingInv(t, j); }
    }
  }
}
