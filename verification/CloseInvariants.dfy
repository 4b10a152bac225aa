/** What every step of the closing protocol keeps, for conforming clients. */
module CloseInvariants {
  import opened Bytes
  import opened CloseProtocol

  /** Nobody holds a reference to a client whose registration is under way but its own handler. */
  predicate CanTarget(c: Client) { c.role.Sub? || c.stored || c.retired }

  predicate CallOk(st: State, c: Call) {
    && c.x < |st.clients|
    && CanTarget(st.clients[c.x])
    && (c.Await? ==> !st.clients[c.x].pc.Unclosed?)
  }

  predicate RoleInv(st: State, x: nat) requires x < |st.clients| {
    var c := st.clients[x];
    && !c.role.Both?
    && (c.name.Some? ==> c.role.Box?)
    && (c.stored ==> c.name.Some?)
    && (c.retired ==> c.name.None?)
    && (c.subs != {} ==> c.role.Box?)
    && (forall k | k in c.subs :: k < |st.clients| && st.clients[k].role.Sub?)
  }

  predicate HeldByAttach(st: State, x: nat, i: nat) {
    i < |st.ops| && st.ops[i].Attach? && st.ops[i].p == x && st.ops[i].a.Holds()
  }

  /** The body's program counter against the client's fields and its locks. */
  predicate BodyInv(st: State, x: nat) requires x < |st.clients| {
    var c := st.clients[x];
    && (!c.pc.Unclosed? ==> CanTarget(c))
    && (c.disable <==> !c.pc.Unclosed? && !c.pc.StoreDisable?)
    && (c.disable ==> c.stamp < st.clock)
    && (c.subLock.Closer? <==> c.pc.HoldsSubs())
    && (c.subLock.ByOp? ==> c.role.Box? && HeldByAttach(st, x, c.subLock.i))
    && (c.pc.CloseSub? ==> CallOk(st, c.pc.call) && !c.pc.call.Load? && c.pc.call.x in c.subs)
    && (c.pc.DropSub? ==> c.pc.key in c.subs && c.pc.key < |st.clients| && st.clients[c.pc.key].pc.Done?)
    && (c.pc.DelName? || c.pc.NameGone() ==> c.subs == {})
  }

  /** Links: the Dekker argument. A body that is past loading its peer's `disable` stored its own
      before, and found the peer's not yet stored. */
  predicate LinkInv(st: State, x: nat) requires x < |st.clients| {
    var c := st.clients[x];
    && (c.link.Peer? ==> c.link.y < |st.clients| && st.clients[c.link.y].role.Sub? && c.role.Sub?)
    && (c.pc.BeforeLink() ==> c.saw.None?)
    && (c.saw.Some? ==> c.saw.value < |st.clients|)
    && (c.pc.CloseLink? ==>
          && CallOk(st, c.pc.call) && c.role.Sub? && st.clients[c.pc.call.x].role.Sub? && c.saw == Some(c.pc.call.x)
          && (!c.pc.call.Load? && st.clients[c.pc.call.x].disable ==> c.stamp < st.clients[c.pc.call.x].stamp))
    && (c.saw.Some? && !c.pc.CloseLink? ==> st.clients[c.saw.value].disable)
  }

  predicate ClientInv(st: State, x: nat) requires x < |st.clients| {
    RoleInv(st, x) && BodyInv(st, x) && LinkInv(st, x)
  }

  predicate AttachInv(st: State, i: nat, p: nat, s: nat, a: AttachPc) {
    && p < |st.clients| && s < |st.clients|
    && st.clients[p].role.Box? && st.clients[s].role.Sub?
    && (a.Holds() ==> st.clients[p].subLock == ByOp(i))
    && (a.AClose? ==> CallOk(st, a.call) && !a.call.Load? && a.call.x == s)
    && (a.AStore? ==> st.clients[p].pc.BeforeSubs())
    && (a.AUnlock? || a.ADone? ==> st.clients[s].pc.Done? || s in st.clients[p].subs)
  }

  predicate RegisterInv(st: State, i: nat, c: nat, n: Name, r: RegisterPc) {
    && c < |st.clients|
    && st.clients[c].name == Some(n) && st.clients[c].regOp == Some(i)
    && (r.Holds() ==> st.regLock == ByOp(i))
    && (st.clients[c].stored <==> r.RUnlock? || r.RDone?)
    && (r.RClose? ==> CallOk(st, r.call) && !r.call.Load? && (n in st.registry ==> st.registry[n] == r.call.x))
    && (r.RStore? ==> n !in st.registry)
  }

  predicate ShutdownInv(st: State, i: nat, d: ShutdownPc) {
    && st.shutdownOp == Some(i)
    && (d.Holds() ==> st.regLock == ByOp(i))
    && (d.SClose? ==> CallOk(st, d.call) && !d.call.Load?)
    && (forall n | n in st.registry :: StillToClose(st, d, n))
  }

  /** While shutdown holds the registry lock, names only go away, and those left are still to come. */
  predicate StillToClose(st: State, d: ShutdownPc, n: Name)
    requires n in st.registry
  {
    match d
    case SRange(todo) => n in todo
    case SClose(call, rest) => n in rest || st.registry[n] == call.x
    case SUnlock => false
    case _ => true
  }

  predicate LinkUpInv(st: State, c1: nat, c2: nat) {
    c1 < |st.clients| && c2 < |st.clients| && st.clients[c1].role.Sub? && st.clients[c2].role.Sub?
  }

  predicate OpInv(st: State, i: nat) requires i < |st.ops| {
    match st.ops[i]
    case Closing(call) => CallOk(st, call) && !call.Load?
    case Closed(x) => x < |st.clients| && st.clients[x].pc.Done?
    case Attach(p, s, a) => AttachInv(st, i, p, s, a)
    case Register(c, n, r, found) => RegisterInv(st, i, c, n, r)
    case Shutdown(d) => ShutdownInv(st, i, d)
    case LinkUp(c1, c2, _) => LinkUpInv(st, c1, c2)
  }

  /** The registry holds exactly the stored clients whose body has not deleted their name. */
  predicate RegistryInv(st: State) {
    && (forall n | n in st.registry ::
          && st.registry[n] < |st.clients|
          && st.clients[st.registry[n]].stored
          && st.clients[st.registry[n]].name == Some(n)
          && !st.clients[st.registry[n]].pc.NameGone())
    && (forall x | 0 <= x < |st.clients| ::
          var c := st.clients[x];
          c.stored && c.name.Some? && !c.pc.NameGone() ==>
            c.name.value in st.registry && st.registry[c.name.value] == x)
    && !st.regLock.Closer?
    && (st.regLock.ByOp? ==> HoldsRegistry(st, st.regLock.i))
  }

  predicate HoldsRegistry(st: State, i: nat) {
    i < |st.ops| &&
    match st.ops[i]
    case Register(c, n, r, found) => r.Holds()
    case Shutdown(d) => d.Holds()
    case _ => false
  }

  predicate Inv(st: State) {
    && (forall x | 0 <= x < |st.clients| :: ClientInv(st, x))
    && (forall i | 0 <= i < |st.ops| :: OpInv(st, i))
    && RegistryInv(st)
  }

  // ---- Frames: what a step on one client and one operation leaves alone -----------------

  predicate SameKind(a: Op, b: Op) {
    match a
    case Attach(p, s, _) => b.Attach? && b.p == p && b.s == s
    case Register(c, n, _, _) => b.Register? && b.c == c && b.n == n
    case LinkUp(c1, c2, _) => b.LinkUp? && b.c1 == c1 && b.c2 == c2
    case Shutdown(_) => b.Shutdown?
    case _ => !b.Attach? && !b.LinkUp?
  }

  /** What everybody else relies on about a client that changes from c to d in a step of operation i. */
  predicate Keeps(st: State, c: Client, d: Client, i: nat) {
    && d.role == c.role && d.retired == c.retired
    && d.name == c.name && d.regOp == c.regOp
    && (c.stored ==> d.stored) && (d.stored != c.stored ==> c.regOp == Some(i))
    && (c.disable ==> d.disable && d.stamp == c.stamp)
    && (d.disable && !c.disable ==> d.stamp == st.clock)
    && (!c.pc.Unclosed? ==> !d.pc.Unclosed?) && (c.pc.Done? ==> d.pc.Done?)
    && (c.subLock.ByOp? && c.subLock.i != i ==> d.subLock == c.subLock && (c.pc.BeforeSubs() ==> d.pc.BeforeSubs()))
    && (forall k | k in c.subs && k !in d.subs :: k < |st.clients| && st.clients[k].pc.Done?)
  }

  /** t comes from st by a step that touches at most client x (|clients|: none) and operation i. */
  predicate Local(st: State, t: State, x: nat, i: nat) {
    && x <= |st.clients| == |t.clients| && |st.ops| == |t.ops|
    && (forall y | 0 <= y < |st.clients| && y != x :: t.clients[y] == st.clients[y])
    && (forall j | 0 <= j < |st.ops| && j != i :: t.ops[j] == st.ops[j])
    && (i < |st.ops| ==> SameKind(st.ops[i], t.ops[i]) && (st.ops[i].Attach? ==> st.ops[i].p == x))
    && (x < |st.clients| ==> Keeps(st, st.clients[x], t.clients[x], i))
    && st.clock <= t.clock && t.shutdownOp == st.shutdownOp
    && (st.regLock.ByOp? && st.regLock.i != i ==>
          && t.regLock == st.regLock
          && (forall n | n in t.registry :: n in st.registry && t.registry[n] == st.registry[n]))
  }

  lemma CallOkKept(st: State, t: State, x: nat, i: nat, c: Call)
    requires Local(st, t, x, i) && CallOk(st, c)
    ensures CallOk(t, c)
  {
    if c.x != x { assert t.clients[c.x] == st.clients[c.x]; }
  }

  lemma OtherClientKept(st: State, t: State, x: nat, i: nat, y: nat)
    requires Inv(st) && Local(st, t, x, i) && y < |st.clients| && y != x
    ensures ClientInv(t, y)
  {
    hide RegistryInv, OpInv;
    assert t.clients[y] == st.clients[y];
    assert ClientInv(st, y);
    var c := st.clients[y];
    if c.pc.CloseSub? || c.pc.CloseLink? { CallOkKept(st, t, x, i, c.pc.call); }
    assert RoleInv(t, y);
    assert BodyInv(t, y);
    assert LinkInv(t, y);
  }

  lemma OtherOpKept(st: State, t: State, x: nat, i: nat, j: nat)
    requires Inv(st) && Local(st, t, x, i) && j < |st.ops| && j != i
    ensures OpInv(t, j)
  {
    hide ClientInv, RegistryInv;
    assert t.ops[j] == st.ops[j];
    assert OpInv(st, j);
    match st.ops[j]
    case Closing(call) => CallOkKept(st, t, x, i, call);
    case Closed(z) =>
    case Attach(p, s, a) =>
      if a.AClose? { CallOkKept(st, t, x, i, a.call); }
    case Register(c, n, r, found) =>
      if r.RClose? { CallOkKept(st, t, x, i, r.call); }
    case Shutdown(d) =>
      if d.SClose? { CallOkKept(st, t, x, i, d.call); }
    case LinkUp(c1, c2, l) =>
  }

  lemma LocalStepInv(st: State, t: State, x: nat, i: nat)
    requires Inv(st) && Local(st, t, x, i)
    requires (x < |t.clients| ==> ClientInv(t, x)) && RegistryInv(t) && (i < |t.ops| ==> OpInv(t, i))
    ensures Inv(t)
  {
    hide ClientInv, RegistryInv, OpInv, Local;
    assert |t.clients| == |st.clients| && |t.ops| == |st.ops| by { LocalSizes(st, t, x, i); }
    forall y | 0 <= y < |t.clients| ensures ClientInv(t, y) { if y != x { OtherClientKept(st, t, x, i, y); } }
    forall j | 0 <= j < |t.ops| ensures OpInv(t, j) { if j != i { OtherOpKept(st, t, x, i, j); } }
  }

  lemma LocalSizes(st: State, t: State, x: nat, i: nat)
    requires Local(st, t, x, i)
    ensures |t.clients| == |st.clients| && |t.ops| == |st.ops|
  {
  }

  lemma RegistryKept(st: State, t: State, x: nat, i: nat)
    requires Inv(st) && Local(st, t, x, i)
    requires t.registry == st.registry && t.regLock == st.regLock
    requires st.regLock == ByOp(i) ==> HoldsRegistry(t, i)
    requires x < |t.clients| ==> t.clients[x].stored == st.clients[x].stored
    requires x < |t.clients| ==> t.clients[x].pc.NameGone() == st.clients[x].pc.NameGone()
    ensures RegistryInv(t)
  {
    hide ClientInv, OpInv;
    forall y | 0 <= y < |t.clients|
      ensures var c := t.clients[y];
        c.stored && c.name.Some? && !c.pc.NameGone() ==> c.name.value in t.registry && t.registry[c.name.value] == y
    {
      assert t.clients[y].name == st.clients[y].name;
    }
  }

  // ---- Steps ---------------------------------------------------------------------------------

  lemma AfterCallInv(st: State, c: Call)
    requires Inv(st) && CallOk(st, c)
    ensures Inv(AfterCall(st, c))
    ensures AfterCall(st, c).ops == st.ops && |AfterCall(st, c).clients| == |st.clients|
  {
    var t := AfterCall(st, c);
    if t != st {
      assert ClientInv(st, c.x);
      RegistryKept(st, t, c.x, |st.ops|);
      LocalStepInv(st, t, c.x, |st.ops|);
    }
  }

  /** A body's own step when it makes no call and deletes no name. */
  lemma BodyStepInv(st: State, x: nat, pick: nat)
    requires Inv(st) && CloseEnabled(st, x, pick)
    requires !st.clients[x].pc.CloseLink? && !st.clients[x].pc.CloseSub? && !st.clients[x].pc.DelName?
    ensures Inv(CloseNext(st, x, pick))
  {
    var t := CloseNext(st, x, pick);
    BodyStepLocal(st, x, pick);
    BodyStepSelf(st, x, pick);
    hide OpInv, CloseNext, Keeps;
    RegistryKept(st, t, x, |st.ops|);
    LocalStepInv(st, t, x, |st.ops|);
  }

  lemma BodyStepLocal(st: State, x: nat, pick: nat)
    requires Inv(st) && CloseEnabled(st, x, pick)
    requires !st.clients[x].pc.CloseLink? && !st.clients[x].pc.CloseSub? && !st.clients[x].pc.DelName?
    ensures var t := CloseNext(st, x, pick);
      && Local(st, t, x, |st.ops|)
      && t.registry == st.registry && t.regLock == st.regLock
      && t.clients[x].pc.NameGone() == st.clients[x].pc.NameGone()
  {
    hide RegistryInv, OpInv, LinkInv;
    assert ClientInv(st, x);
  }

  lemma BodyStepSelf(st: State, x: nat, pick: nat)
    requires Inv(st) && CloseEnabled(st, x, pick)
    requires !st.clients[x].pc.CloseLink? && !st.clients[x].pc.CloseSub? && !st.clients[x].pc.DelName?
    ensures ClientInv(CloseNext(st, x, pick), x)
  {
    assert ClientInv(st, x);
    hide Inv, CloseNext, RoleInv, BodyInv, LinkInv;
    BodyStepRole(st, x, pick);
    BodyStepBody(st, x, pick);
    BodyStepLink(st, x, pick);
  }

  lemma BodyStepRole(st: State, x: nat, pick: nat)
    requires CloseEnabled(st, x, pick) && RoleInv(st, x)
    requires !st.clients[x].pc.CloseLink? && !st.clients[x].pc.CloseSub? && !st.clients[x].pc.DelName?
    ensures |CloseNext(st, x, pick).clients| == |st.clients| && RoleInv(CloseNext(st, x, pick), x)
  {
    var c, t := st.clients[x], CloseNext(st, x, pick);
    var d := t.clients[x];
    assert d.role == c.role && d.name == c.name && d.stored == c.stored && d.retired == c.retired;
    assert d.subs <= c.subs;
    assert forall k | 0 <= k < |st.clients| :: t.clients[k].role == st.clients[k].role;
    hide CloseNext;
  }

  lemma BodyStepBody(st: State, x: nat, pick: nat)
    requires CloseEnabled(st, x, pick) && RoleInv(st, x) && BodyInv(st, x)
    requires !st.clients[x].pc.CloseLink? && !st.clients[x].pc.CloseSub? && !st.clients[x].pc.DelName?
    ensures |CloseNext(st, x, pick).clients| == |st.clients| && BodyInv(CloseNext(st, x, pick), x)
  {
  }

  lemma BodyStepLink(st: State, x: nat, pick: nat)
    requires CloseEnabled(st, x, pick) && RoleInv(st, x) && BodyInv(st, x) && LinkInv(st, x)
    requires !st.clients[x].pc.CloseLink? && !st.clients[x].pc.CloseSub? && !st.clients[x].pc.DelName?
    ensures |CloseNext(st, x, pick).clients| == |st.clients| && LinkInv(CloseNext(st, x, pick), x)
  {
    var c, t := st.clients[x], CloseNext(st, x, pick);
    assert c.disable ==> t.clients[x].disable by { hide LinkInv; }
    hide BodyInv, RoleInv;
  }

  /** A closing client deletes its own entry, never a newcomer's. */
  lemma DelNameInv(st: State, x: nat)
    requires Inv(st) && CloseEnabled(st, x, 0) && st.clients[x].pc.DelName?
    ensures Inv(CloseNext(st, x, 0))
    ensures forall n | n in st.registry && n !in CloseNext(st, x, 0).registry :: st.registry[n] == x
  {
    var t := CloseNext(st, x, 0);
    var c := st.clients[x];
    assert ClientInv(st, x);
    assert c.name.Some? ==> c.stored;
    assert Local(st, t, x, |st.ops|);
    assert ClientInv(t, x);
    DelNameRegistry(st, x);
    hide OpInv, ClientInv, RegistryInv, Local;
    LocalStepInv(st, t, x, |st.ops|);
  }

  lemma DelNameRegistry(st: State, x: nat)
    requires RegistryInv(st) && CloseEnabled(st, x, 0) && st.clients[x].pc.DelName?
    requires st.clients[x].name.Some? ==> st.clients[x].stored
    ensures RegistryInv(CloseNext(st, x, 0))
    ensures forall n | n in st.registry && n !in CloseNext(st, x, 0).registry :: st.registry[n] == x
  {
    var t := CloseNext(st, x, 0);
    forall y | 0 <= y < |t.clients|
      ensures var c := t.clients[y];
        c.stored && c.name.Some? && !c.pc.NameGone() ==> c.name.value in t.registry && t.registry[c.name.value] == y
    {
      assert t.clients[y].name == st.clients[y].name;
    }
  }

  /** The caller's part of a call step: its body's counter moves on. */
  lemma CallStepInv(st: State, x: nat, pick: nat)
    requires Inv(st) && CloseEnabled(st, x, pick)
    requires st.clients[x].pc.CloseLink? || st.clients[x].pc.CloseSub?
    ensures Inv(CloseNext(st, x, pick))
  {
    var call := st.clients[x].pc.call;
    assert ClientInv(st, x);
    AfterCallInv(st, call);
    var m := AfterCall(st, call);
    var t := CloseNext(st, x, pick);
    CallStepLocal(st, x, pick);
    hide OpInv, CloseNext, Keeps, AfterCall;
    RegistryKept(m, t, x, |m.ops|);
    LocalStepInv(m, t, x, |m.ops|);
  }

  lemma CallStepLocal(st: State, x: nat, pick: nat)
    requires Inv(st) && CloseEnabled(st, x, pick)
    requires st.clients[x].pc.CloseLink? || st.clients[x].pc.CloseSub?
    requires Inv(AfterCall(st, st.clients[x].pc.call))
    ensures var m, t := AfterCall(st, st.clients[x].pc.call), CloseNext(st, x, pick);
      && Local(m, t, x, |m.ops|) && ClientInv(t, x)
      && t.registry == m.registry && t.regLock == m.regLock
      && t.clients[x].pc.NameGone() == m.clients[x].pc.NameGone()
  {
    var call := st.clients[x].pc.call;
    var m, t := AfterCall(st, call), CloseNext(st, x, pick);
    assert ClientInv(st, x) && ClientInv(m, x) && ClientInv(st, call.x);
    hide Inv, CloseNext, RoleInv, BodyInv, LinkInv, Local;
    CallStepFrame(st, x, pick);
    CallStepRole(st, x, pick);
    CallStepBody(st, x, pick);
    CallStepLink(st, x, pick);
  }

  lemma CallStepRole(st: State, x: nat, pick: nat)
    requires CloseEnabled(st, x, pick) && (st.clients[x].pc.CloseLink? || st.clients[x].pc.CloseSub?)
    requires RoleInv(AfterCall(st, st.clients[x].pc.call), x)
    ensures |CloseNext(st, x, pick).clients| == |st.clients| && RoleInv(CloseNext(st, x, pick), x)
  {
  }

  lemma CallStepBody(st: State, x: nat, pick: nat)
    requires CloseEnabled(st, x, pick) && (st.clients[x].pc.CloseLink? || st.clients[x].pc.CloseSub?)
    requires BodyInv(st, x) && LinkInv(st, x) && BodyInv(AfterCall(st, st.clients[x].pc.call), x)
    ensures |CloseNext(st, x, pick).clients| == |st.clients| && BodyInv(CloseNext(st, x, pick), x)
  {
  }

  lemma CallStepLink(st: State, x: nat, pick: nat)
    requires CloseEnabled(st, x, pick) && (st.clients[x].pc.CloseLink? || st.clients[x].pc.CloseSub?)
    requires BodyInv(st, x) && LinkInv(st, x) && LinkInv(AfterCall(st, st.clients[x].pc.call), x)
    requires BodyInv(st, st.clients[x].pc.call.x)
    ensures |CloseNext(st, x, pick).clients| == |st.clients| && LinkInv(CloseNext(st, x, pick), x)
  {
    var call := st.clients[x].pc.call;
    var m, t := AfterCall(st, call), CloseNext(st, x, pick);
    CallStepShape(st, x, pick);
    assert call.Await? ==> st.clients[call.x].disable by { hide LinkInv; }
    hide CloseNext, BodyInv;
  }

  lemma CallStepShape(st: State, x: nat, pick: nat)
    requires CloseEnabled(st, x, pick) && (st.clients[x].pc.CloseLink? || st.clients[x].pc.CloseSub?)
    ensures var m, t := AfterCall(st, st.clients[x].pc.call), CloseNext(st, x, pick);
      && |t.clients| == |m.clients| == |st.clients|
      && t.clients == m.clients[x := m.clients[x].(pc := t.clients[x].pc)] && t.ops == m.ops
      && (m.clients[x].pc == st.clients[x].pc)
      && var r := CallNext(st, st.clients[x].pc.call);
         t.clients[x].pc ==
           if st.clients[x].pc.CloseLink? then (if r.None? then LockSubs else CloseLink(r.value))
           else if r.None? then DropSub(st.clients[x].pc.call.x) else CloseSub(r.value)
  {
  }

  lemma CallStepFrame(st: State, x: nat, pick: nat)
    requires CloseEnabled(st, x, pick) && BodyInv(st, x)
    requires st.clients[x].pc.CloseLink? || st.clients[x].pc.CloseSub?
    ensures var m, t := AfterCall(st, st.clients[x].pc.call), CloseNext(st, x, pick);
      && Local(m, t, x, |m.ops|)
      && t.registry == m.registry && t.regLock == m.regLock
      && t.clients[x].pc.NameGone() == m.clients[x].pc.NameGone()
  {
  }

  lemma CloseStepInv(st: State, x: nat, pick: nat)
    requires Inv(st) && CloseEnabled(st, x, pick)
    ensures Inv(CloseNext(st, x, pick))
  {
    hide Inv, CloseNext;
    match st.clients[x].pc
    case CloseLink(_) => CallStepInv(st, x, pick);
    case CloseSub(_) => CallStepInv(st, x, pick);
    case DelName => DelNameAnyPick(st, x, pick); DelNameInv(st, x);
    case _ => BodyStepInv(st, x, pick);
  }

  lemma DelNameAnyPick(st: State, x: nat, pick: nat)
    requires CloseEnabled(st, x, pick) && st.clients[x].pc.DelName?
    ensures CloseEnabled(st, x, 0) && CloseNext(st, x, pick) == CloseNext(st, x, 0)
  {
  }

  // ---- Operation steps -----------------------------------------------------------------------

  /** Steps of operation i that call nobody: `c` is the client they may touch. */
  lemma AttachStepInv(st: State, i: nat)
    requires Inv(st) && OpEnabled(st, i, "") && st.ops[i].Attach? && !st.ops[i].a.AClose?
    ensures Inv(AttachNext(st, i))
  {
    var t := AttachNext(st, i);
    var p := st.ops[i].p;
    AttachStepLocal(st, i);
    AttachStepSelf(st, i);
    hide OpInv, ClientInv, AttachNext, Keeps;
    RegistryKept(st, t, p, i);
    LocalStepInv(st, t, p, i);
  }

  lemma AttachStepLocal(st: State, i: nat)
    requires Inv(st) && OpEnabled(st, i, "") && st.ops[i].Attach? && !st.ops[i].a.AClose?
    ensures var t, p := AttachNext(st, i), st.ops[i].p;
      && Local(st, t, p, i)
      && t.registry == st.registry && t.regLock == st.regLock
      && t.clients[p].pc == st.clients[p].pc && t.clients[p].stored == st.clients[p].stored
      && st.regLock != ByOp(i)
  {
    assert OpInv(st, i) && ClientInv(st, st.ops[i].p);
    assert st.regLock != ByOp(i);
    hide Inv;
    AttachStepKeeps(st, i);
    hide LinkInv, RoleInv, BodyInv, OpInv, Keeps;
  }

  lemma AttachStepKeeps(st: State, i: nat)
    requires OpEnabled(st, i, "") && st.ops[i].Attach? && !st.ops[i].a.AClose? && OpInv(st, i)
    ensures var t, p := AttachNext(st, i), st.ops[i].p;
      && p < |st.clients| == |t.clients|
      && Keeps(st, st.clients[p], t.clients[p], i)
      && t.clients[p].pc == st.clients[p].pc && t.clients[p].stored == st.clients[p].stored
  {
  }

  lemma AttachStepSelf(st: State, i: nat)
    requires Inv(st) && OpEnabled(st, i, "") && st.ops[i].Attach? && !st.ops[i].a.AClose?
    ensures var t, p := AttachNext(st, i), st.ops[i].p;
      && p < |t.clients| && ClientInv(t, p) && |t.ops| == |st.ops| && OpInv(t, i)
  {
    assert OpInv(st, i) && ClientInv(st, st.ops[i].p);
    hide Inv;
    AttachStepClient(st, i);
    AttachStepOp(st, i);
    hide ClientInv, OpInv, AttachNext;
  }

  lemma AttachStepOp(st: State, i: nat)
    requires OpEnabled(st, i, "") && st.ops[i].Attach? && !st.ops[i].a.AClose?
    requires OpInv(st, i) && ClientInv(st, st.ops[i].p)
    ensures |AttachNext(st, i).ops| == |st.ops| && OpInv(AttachNext(st, i), i)
  {
    hide RoleInv, LinkInv;
  }

  lemma AttachStepClient(st: State, i: nat)
    requires OpEnabled(st, i, "") && st.ops[i].Attach? && !st.ops[i].a.AClose?
    requires OpInv(st, i) && ClientInv(st, st.ops[i].p)
    ensures st.ops[i].p < |AttachNext(st, i).clients| && ClientInv(AttachNext(st, i), st.ops[i].p)
  {
    var t, p := AttachNext(st, i), st.ops[i].p;
    assert RoleInv(t, p) by { hide BodyInv, LinkInv; }
    assert BodyInv(t, p) by { hide LinkInv; }
    assert LinkInv(t, p) by { hide BodyInv, RoleInv; }
  }

  lemma AttachCallInv(st: State, i: nat)
    requires Inv(st) && OpEnabled(st, i, "") && st.ops[i].Attach? && st.ops[i].a.AClose?
    ensures Inv(AttachNext(st, i))
  {
    var call := st.ops[i].a.call;
    assert OpInv(st, i);
    AfterCallInv(st, call);
    var m := AfterCall(st, call);
    var t := AttachNext(st, i);
    var p := st.ops[i].p;
    assert ClientInv(m, p) && OpInv(m, i);
    assert Local(m, t, p, i);
    assert ClientInv(t, p) && OpInv(t, i);
    hide OpInv, ClientInv, AttachNext, Keeps;
    RegistryKept(m, t, p, i);
    LocalStepInv(m, t, p, i);
  }

  lemma ClosingStepInv(st: State, i: nat)
    requires Inv(st) && OpEnabled(st, i, "") && st.ops[i].Closing?
    ensures Inv(OpNext(st, i, ""))
  {
    var call := st.ops[i].call;
    assert OpInv(st, i);
    AfterCallInv(st, call);
    var m, t := AfterCall(st, call), OpNext(st, i, "");
    var none := |st.clients|;
    assert OpInv(m, i) && ClientInv(m, call.x);
    assert Local(m, t, none, i) && OpInv(t, i);
    hide OpInv, ClientInv, OpNext;
    RegistryKept(m, t, none, i);
    LocalStepInv(m, t, none, i);
  }

  /** A registration's steps: at most one goroutine is between lookup and store, so at the store
      no live client holds the name. */
  lemma RegisterStepInv(st: State, i: nat)
    requires Inv(st) && OpEnabled(st, i, "") && st.ops[i].Register? && !st.ops[i].r.RClose?
    ensures Inv(RegisterNext(st, i))
  {
    var t, c := RegisterNext(st, i), st.ops[i].c;
    RegisterStepSelf(st, i);
    RegisterStepRegistry(st, i);
    hide OpInv, ClientInv, RegistryInv, RegisterNext, Local;
    LocalStepInv(st, t, c, i);
  }

  lemma RegisterStepSelf(st: State, i: nat)
    requires Inv(st) && OpEnabled(st, i, "") && st.ops[i].Register? && !st.ops[i].r.RClose?
    ensures var t, c := RegisterNext(st, i), st.ops[i].c;
      && Local(st, t, c, i) && ClientInv(t, c) && OpInv(t, i)
  {
    assert OpInv(st, i) && ClientInv(st, st.ops[i].c) && RegistryInv(st);
    hide Inv;
    RegisterStepLocal(st, i);
    RegisterStepClient(st, i);
    hide Local, ClientInv, RoleInv, LinkInv;
  }

  lemma RegisterStepLocal(st: State, i: nat)
    requires OpEnabled(st, i, "") && st.ops[i].Register? && !st.ops[i].r.RClose?
    requires OpInv(st, i) && RegistryInv(st)
    ensures Local(st, RegisterNext(st, i), st.ops[i].c, i)
  {
    hide ClientInv, RoleInv, BodyInv, LinkInv;
  }

  /** The client's fields, but for `stored`, stay. */
  lemma RegisterStepClient(st: State, i: nat)
    requires OpEnabled(st, i, "") && st.ops[i].Register? && !st.ops[i].r.RClose?
    requires OpInv(st, i) && ClientInv(st, st.ops[i].c)
    ensures st.ops[i].c < |RegisterNext(st, i).clients| && ClientInv(RegisterNext(st, i), st.ops[i].c)
  {
    var t, c := RegisterNext(st, i), st.ops[i].c;
    hide RegistryInv;
    assert RoleInv(t, c) by { hide BodyInv, LinkInv; }
    assert BodyInv(t, c) by { hide LinkInv; }
    assert LinkInv(t, c) by { hide BodyInv, RoleInv; }
  }

  lemma RegisterStepRegistry(st: State, i: nat)
    requires Inv(st) && OpEnabled(st, i, "") && st.ops[i].Register? && !st.ops[i].r.RClose?
    ensures RegistryInv(RegisterNext(st, i))
  {
    assert OpInv(st, i) && ClientInv(st, st.ops[i].c);
    hide Inv;
    if st.ops[i].r.RStore? { StoreRegistry(st, i); } else { hide BodyInv, LinkInv, RoleInv; }
  }

  /** The store: the name was free, and the client's body, having no target before, has not begun. */
  lemma StoreRegistry(st: State, i: nat)
    requires RegistryInv(st) && OpEnabled(st, i, "") && st.ops[i].Register? && st.ops[i].r.RStore?
    requires OpInv(st, i) && RoleInv(st, st.ops[i].c) && BodyInv(st, st.ops[i].c)
    ensures RegistryInv(RegisterNext(st, i))
  {
    var t, c, n := RegisterNext(st, i), st.ops[i].c, st.ops[i].n;
    assert st.clients[c].pc.Unclosed?;
    hide RoleInv, BodyInv;
    forall y | 0 <= y < |t.clients|
      ensures var c := t.clients[y];
        c.stored && c.name.Some? && !c.pc.NameGone() ==> c.name.value in t.registry && t.registry[c.name.value] == y
    {
      if y != c { assert t.clients[y] == st.clients[y]; }
    }
  }

  lemma RegisterCallInv(st: State, i: nat)
    requires Inv(st) && OpEnabled(st, i, "") && st.ops[i].Register? && st.ops[i].r.RClose?
    ensures Inv(RegisterNext(st, i))
  {
    var call := st.ops[i].r.call;
    assert OpInv(st, i);
    AfterCallInv(st, call);
    var m, t := AfterCall(st, call), RegisterNext(st, i);
    var none := |st.clients|;
    assert OpInv(m, i) && ClientInv(m, call.x);
    assert Local(m, t, none, i) && OpInv(t, i);
    hide OpInv, ClientInv, RegisterNext;
    RegistryKept(m, t, none, i);
    LocalStepInv(m, t, none, i);
  }

  lemma ShutdownStepInv(st: State, i: nat, pick: Name)
    requires Inv(st) && OpEnabled(st, i, pick) && st.ops[i].Shutdown?
    ensures Inv(ShutdownNext(st, i, pick))
  {
    var t := ShutdownNext(st, i, pick);
    var none := |st.clients|;
    assert OpInv(st, i);
    if st.ops[i].d.SClose? {
      var call := st.ops[i].d.call;
      AfterCallInv(st, call);
      var m := AfterCall(st, call);
      assert OpInv(m, i) && ClientInv(m, call.x);
      assert Local(m, t, none, i) && OpInv(t, i);
      hide OpInv, ClientInv, ShutdownNext;
      RegistryKept(m, t, none, i);
      LocalStepInv(m, t, none, i);
    } else {
      assert Local(st, t, none, i) && OpInv(t, i);
      assert RegistryInv(t);
      hide OpInv, ClientInv, RegistryInv, ShutdownNext, Local;
      LocalStepInv(st, t, none, i);
    }
  }

  lemma LinkStepInv(st: State, i: nat)
    requires Inv(st) && OpEnabled(st, i, "") && st.ops[i].LinkUp?
    ensures Inv(OpNext(st, i, ""))
  {
    var t := OpNext(st, i, "");
    var x := if st.ops[i].l.LFirst? then st.ops[i].c1 else st.ops[i].c2;
    assert OpInv(st, i) && ClientInv(st, x);
    assert Local(st, t, x, i) && OpInv(t, i);
    assert RoleInv(t, x) && BodyInv(t, x);
    assert LinkInv(t, x);
    hide OpInv, ClientInv, OpNext, Keeps;
    RegistryKept(st, t, x, i);
    LocalStepInv(st, t, x, i);
  }

  lemma OpStepInv(st: State, i: nat, pick: Name)
    requires Inv(st) && OpEnabled(st, i, pick)
    ensures Inv(OpNext(st, i, pick))
  {
    hide Inv, AttachNext, RegisterNext, ShutdownNext;
    match st.ops[i]
    case Closing(_) => ClosingStepInv(st, i);
    case Closed(_) =>
    case Attach(_, _, a) => if a.AClose? { AttachCallInv(st, i); } else { AttachStepInv(st, i); }
    case Register(_, _, r, _) => if r.RClose? { RegisterCallInv(st, i); } else { RegisterStepInv(st, i); }
    case Shutdown(_) => ShutdownStepInv(st, i, pick);
    case LinkUp(_, _, _) => LinkStepInv(st, i);
  }

  // ---- New calls and connections -----------------------------------------------------------

  predicate IsStart(l: Label) { !l.StepClose? && !l.StepOp? && (l.Connect? ==> !l.role.Both?) }

  /** What a start may change of a client: its name while it has none, its room, and its link to a foreign one. */
  predicate GrowsTo(c: Client, d: Client) {
    && d == c.(name := d.name, regOp := d.regOp, retired := d.retired, room := d.room, link := d.link)
    && (c.name.Some? ==> d.name == c.name && d.regOp == c.regOp && d.retired == c.retired)
    && (c.retired ==> d.retired && d.name == c.name)
    && (d.link != c.link ==> d.link.Foreign?)
    && (d.name.Some? && c.name.None? ==> d.role.Box? && !d.retired)
    && (d.retired ==> d.name.None?)
  }

  predicate Grows(st: State, t: State) {
    && |st.clients| <= |t.clients| && |st.ops| <= |t.ops|
    && (forall i | 0 <= i < |st.ops| :: t.ops[i] == st.ops[i])
    && (forall y | 0 <= y < |st.clients| :: GrowsTo(st.clients[y], t.clients[y]))
    && t.registry == st.registry && t.regLock == st.regLock && t.clock == st.clock
    && (st.shutdownOp.Some? ==> t.shutdownOp == st.shutdownOp)
  }

  lemma StartGrows(st: State, l: Label)
    requires Inv(st) && Enabled(st, l) && IsStart(l)
    ensures Grows(st, Next(st, l))
  {
    hide LinkInv, BodyInv, OpInv, RegistryInv;
    var t := Next(st, l);
    forall y | 0 <= y < |st.clients| ensures GrowsTo(st.clients[y], t.clients[y]) { assert ClientInv(st, y); }
  }

  lemma CallOkGrows(st: State, t: State, c: Call)
    requires Grows(st, t) && CallOk(st, c)
    ensures CallOk(t, c)
  {
    assert GrowsTo(st.clients[c.x], t.clients[c.x]);
  }

  lemma OldOpGrows(st: State, t: State, i: nat)
    requires Inv(st) && Grows(st, t) && i < |st.ops|
    ensures OpInv(t, i)
  {
    hide ClientInv, RegistryInv;
    assert OpInv(st, i) && t.ops[i] == st.ops[i];
    match st.ops[i]
    case Closing(call) => CallOkGrows(st, t, call);
    case Closed(x) => assert GrowsTo(st.clients[x], t.clients[x]);
    case Attach(p, s, a) =>
      assert GrowsTo(st.clients[p], t.clients[p]) && GrowsTo(st.clients[s], t.clients[s]);
      if a.AClose? { CallOkGrows(st, t, a.call); }
    case Register(c, n, r, found) =>
      assert GrowsTo(st.clients[c], t.clients[c]);
      if r.RClose? { CallOkGrows(st, t, r.call); }
    case Shutdown(d) =>
      if d.SClose? { CallOkGrows(st, t, d.call); }
    case LinkUp(c1, c2, l) =>
      assert GrowsTo(st.clients[c1], t.clients[c1]) && GrowsTo(st.clients[c2], t.clients[c2]);
  }

  lemma OldClientGrows(st: State, t: State, y: nat)
    requires Inv(st) && Grows(st, t) && y < |st.clients|
    ensures ClientInv(t, y)
  {
    hide RegistryInv, OpInv;
    assert ClientInv(st, y) && GrowsTo(st.clients[y], t.clients[y]);
    var c := st.clients[y];
    forall k | 0 <= k < |st.clients| ensures t.clients[k].role == st.clients[k].role {
      assert GrowsTo(st.clients[k], t.clients[k]);
    }
    if c.pc.CloseSub? || c.pc.CloseLink? {
      CallOkGrows(st, t, c.pc.call);
      assert GrowsTo(st.clients[c.pc.call.x], t.clients[c.pc.call.x]);
    }
    if c.pc.DropSub? { assert GrowsTo(st.clients[c.pc.key], t.clients[c.pc.key]); }
    if c.saw.Some? { assert GrowsTo(st.clients[c.saw.value], t.clients[c.saw.value]); }
    assert RoleInv(t, y);
    assert BodyInv(t, y) by { hide LinkInv, RoleInv; }
    assert LinkInv(t, y) by { hide BodyInv, RoleInv; }
  }

  lemma StartClientInv(st: State, l: Label, x: nat)
    requires Inv(st) && Enabled(st, l) && IsStart(l) && x < |Next(st, l).clients|
    ensures ClientInv(Next(st, l), x)
  {
    var t := Next(st, l);
    StartGrows(st, l);
    if x < |st.clients| {
      hide Inv, Grows;
      OldClientGrows(st, t, x);
    }
  }

  lemma StartOpInv(st: State, l: Label, i: nat)
    requires Inv(st) && Enabled(st, l) && IsStart(l) && i < |Next(st, l).ops|
    ensures OpInv(Next(st, l), i)
  {
    var t := Next(st, l);
    StartGrows(st, l);
    if i < |st.ops| {
      hide Inv, Grows, Next, OpInv;
      OldOpGrows(st, t, i);
    } else {
      NewOpInv(st, l);
    }
  }

  lemma NewOpInv(st: State, l: Label)
    requires Inv(st) && Enabled(st, l) && IsStart(l) && |Next(st, l).ops| > |st.ops|
    ensures |Next(st, l).ops| == |st.ops| + 1 && OpInv(Next(st, l), |st.ops|)
  {
    hide RegistryInv, BodyInv;
    match l
    case StartClose(x) => assert ClientInv(st, x);
    case StartAttach(p, s) => assert ClientInv(st, p) && ClientInv(st, s);
    case StartRegister(c, n) => assert ClientInv(st, c);
    case StartShutdown =>
    case StartLink(c1, c2) => assert ClientInv(st, c1) && ClientInv(st, c2);
    case _ =>
  }

  lemma StartRegistryInv(st: State, l: Label)
    requires Inv(st) && Enabled(st, l) && IsStart(l)
    ensures RegistryInv(Next(st, l))
  {
    StartGrows(st, l);
    StartKeepsRegistered(st, l);
    hide Inv, Next, Enabled;
    GrownRegistryInv(st, Next(st, l));
  }

  /** A start neither stores a client nor moves a body, and leaves the names of stored clients alone. */
  lemma StartKeepsRegistered(st: State, l: Label)
    requires Inv(st) && Enabled(st, l) && IsStart(l)
    ensures RegistryInv(st)
    ensures forall y | 0 <= y < |st.clients| && st.clients[y].stored :: st.clients[y].name.Some?
    ensures forall y | |st.clients| <= y < |Next(st, l).clients| :: !Next(st, l).clients[y].stored
  {
    hide LinkInv, BodyInv, OpInv;
    forall y | 0 <= y < |st.clients| && st.clients[y].stored ensures st.clients[y].name.Some? {
      assert ClientInv(st, y);
    }
  }

  lemma GrownRegistryInv(st: State, t: State)
    requires RegistryInv(st) && Grows(st, t)
    requires forall y | 0 <= y < |st.clients| && st.clients[y].stored :: st.clients[y].name.Some?
    requires forall y | |st.clients| <= y < |t.clients| :: !t.clients[y].stored
    ensures RegistryInv(t)
  {
    forall n | n in t.registry ensures GrowsTo(st.clients[t.registry[n]], t.clients[t.registry[n]]) { }
    forall y | 0 <= y < |t.clients|
      ensures var c := t.clients[y];
        c.stored && c.name.Some? && !c.pc.NameGone() ==> c.name.value in t.registry && t.registry[c.name.value] == y
    {
      if y < |st.clients| { assert GrowsTo(st.clients[y], t.clients[y]); }
    }
  }

  /** Every step of conforming clients keeps the invariant. */
  lemma StepInv(st: State, l: Label)
    requires Inv(st) && Enabled(st, l) && (l.Connect? ==> !l.role.Both?)
    ensures Inv(Next(st, l))
  {
    if l.StepClose? {
      CloseStepInv(st, l.x, l.pick);
    } else if l.StepOp? {
      OpStepInv(st, l.i, l.pickName);
    } else {
      var t := Next(st, l);
      StartRegistryInv(st, l);
      forall x | 0 <= x < |t.clients| ensures ClientInv(t, x) { StartClientInv(st, l, x); }
      forall i | 0 <= i < |t.ops| ensures OpInv(t, i) { StartOpInv(st, l, i); }
    }
  }

  lemma {:induction false} RunInv(st: State, trace: seq<Label>, t: State)
    requires Inv(st) && Leads(st, trace, t) && Conforming(trace)
    ensures Inv(t)
    decreases |trace|
  {
    hide Inv, Next, Enabled;
    if trace != [] {
      assert trace[0].Connect? ==> !trace[0].role.Both?;
      StepInv(st, trace[0]);
      RunInv(Next(st, trace[0]), trace[1..], t);
    }
  }

  /** Every state conforming clients can reach satisfies the invariant. */
  lemma ReachableInv(trace: seq<Label>, t: State)
    requires Leads(EMPTY, trace, t) && Conforming(trace)
    ensures Inv(t)
  {
    RunInv(EMPTY, trace, t);
  }
}
