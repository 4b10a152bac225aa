/** What the closing protocol promises, in every state conforming clients can reach. */
module CloseTheorems {
  import opened Bytes
  import opened CloseProtocol
  import opened CloseInvariants

  // ---- Safety -----------------------------------------------------------------------

  /** The registry maps n to exactly the stored client named n whose body has not deleted its
      name; so no two live clients hold one name, and no closing client deletes a newcomer. */
  lemma RegistryAgreement(trace: seq<Label>, t: State, n: Name, x: nat)
    requires Leads(EMPTY, trace, t) && Conforming(trace) && x < |t.clients|
    ensures n in t.registry && t.registry[n] == x
      <==> t.clients[x].stored && t.clients[x].name == Some(n) && !t.clients[x].pc.NameGone()
  {
    ReachableInv(trace, t);
    assert RegistryInv(t);
  }

  lemma OneLiveClientPerName(trace: seq<Label>, t: State, x: nat, y: nat)
    requires Leads(EMPTY, trace, t) && Conforming(trace) && x < |t.clients| && y < |t.clients|
    requires t.clients[x].stored && t.clients[y].stored && t.clients[x].name == t.clients[y].name
    requires !t.clients[x].pc.NameGone() && !t.clients[y].pc.NameGone()
    ensures x == y
  {
    ReachableInv(trace, t);
    assert ClientInv(t, x);
    RegistryAgreement(trace, t, t.clients[x].name.value, x);
    RegistryAgreement(trace, t, t.clients[x].name.value, y);
  }

  /** Shutdown closes everybody: when its range is over, every client ever registered has closed as far as
      deleting its name, and the registry is empty. */
  lemma ShutdownClosesAll(trace: seq<Label>, t: State, i: nat)
    requires Leads(EMPTY, trace, t) && Conforming(trace) && i < |t.ops| && t.ops[i] == Shutdown(SUnlock)
    ensures t.registry == map[]
    ensures forall x | 0 <= x < |t.clients| && t.clients[x].stored :: t.clients[x].pc.NameGone()
  {
    ReachableInv(trace, t);
    assert OpInv(t, i) && RegistryInv(t);
    assert forall n :: n !in t.registry;
    forall x | 0 <= x < |t.clients| && t.clients[x].stored ensures t.clients[x].pc.NameGone() {
      assert ClientInv(t, x);
    }
  }

  /** No orphans: once a parent's body has finished, every sub whose attach call returned, before
      or after, has finished closing too. */
  lemma NoOrphanSubs(trace: seq<Label>, t: State, i: nat)
    requires Leads(EMPTY, trace, t) && Conforming(trace)
    requires i < |t.ops| && t.ops[i].Attach? && t.ops[i].a.ADone?
    requires t.ops[i].p < |t.clients| && t.clients[t.ops[i].p].pc.Done?
    ensures t.ops[i].s < |t.clients| && t.clients[t.ops[i].s].pc.Done?
  {
    ReachableInv(trace, t);
    assert OpInv(t, i) && ClientInv(t, t.ops[i].p);
  }

  // ---- Deadlock freedom ------------------------------------------------------------------

  predicate Active(c: Client) { !c.pc.Unclosed? && !c.pc.Done? }

  predicate Finished(op: Op) {
    match op
    case Closing(_) => false
    case Closed(_) => true
    case Attach(_, _, a) => a.ADone?
    case Register(_, _, r, _) => r.RDone?
    case Shutdown(d) => d.SDone?
    case LinkUp(_, _, l) => l.LDone?
  }

  /** Every close body and every call has finished. */
  predicate Quiet(st: State) {
    && (forall x | 0 <= x < |st.clients| :: !Active(st.clients[x]))
    && (forall i | 0 <= i < |st.ops| :: Finished(st.ops[i]))
  }

  ghost predicate CanStep(st: State) {
    || (exists x: nat, pick: nat :: CloseEnabled(st, x, pick))
    || (exists i: nat, pick :: OpEnabled(st, i, pick))
  }

  /** The body of a sub never waits in a cycle: the peer it waits for stored its own `disable`
      later, or is just about to. How often links were made and remade does not matter. */
  lemma SubBodySteps(st: State, s: nat)
    requires Inv(st) && s < |st.clients| && st.clients[s].role.Sub? && Active(st.clients[s])
    ensures CanStep(st)
    decreases st.clock - st.clients[s].stamp, !st.clients[s].disable
  {
    var c := st.clients[s];
    assert ClientInv(st, s);
    if CloseEnabled(st, s, 0) { return; }
    assert c.pc.CloseLink? && c.pc.call.Await?;
    var y := c.pc.call.x;
    assert ClientInv(st, y);
    if CloseEnabled(st, y, 0) { return; }
    SubBodySteps(st, y);
  }

  lemma AttachSteps(st: State, i: nat)
    requires Inv(st) && i < |st.ops| && st.ops[i].Attach? && st.ops[i].a.Holds()
    ensures CanStep(st)
  {
    assert OpInv(st, i);
    if !OpEnabled(st, i, "") { SubBodySteps(st, st.ops[i].s); }
  }

  lemma BoxBodySteps(st: State, b: nat)
    requires Inv(st) && b < |st.clients| && st.clients[b].role.Box? && Active(st.clients[b])
    ensures CanStep(st)
  {
    var c := st.clients[b];
    assert ClientInv(st, b);
    if CloseEnabled(st, b, 0) { return; }
    if c.pc.LockSubs? {
      AttachSteps(st, c.subLock.i);
    } else if c.pc.RangeSubs? {
      var k :| k in c.subs;
      assert CloseEnabled(st, b, k);
    } else {
      SubBodySteps(st, c.pc.call.x);
    }
  }

  lemma BodySteps(st: State, x: nat)
    requires Inv(st) && x < |st.clients| && Active(st.clients[x])
    ensures CanStep(st)
  {
    assert ClientInv(st, x);
    if st.clients[x].role.Sub? { SubBodySteps(st, x); } else { BoxBodySteps(st, x); }
  }

  lemma CallSteps(st: State, c: Call)
    requires Inv(st) && CallOk(st, c) && !CallEnabled(st, c)
    ensures CanStep(st)
  {
    BodySteps(st, c.x);
  }

  lemma RegistryHolderSteps(st: State, i: nat)
    requires Inv(st) && HoldsRegistry(st, i)
    ensures CanStep(st)
  {
    assert OpInv(st, i);
    if OpEnabled(st, i, "") { return; }
    if st.ops[i].Register? {
      CallSteps(st, st.ops[i].r.call);
    } else if st.ops[i].d.SClose? {
      CallSteps(st, st.ops[i].d.call);
    } else {
      var n :| n in st.ops[i].d.todo;
      assert OpEnabled(st, i, n);
    }
  }

  lemma OpSteps(st: State, i: nat)
    requires Inv(st) && i < |st.ops| && !Finished(st.ops[i])
    ensures CanStep(st)
  {
    assert OpInv(st, i);
    if OpEnabled(st, i, "") { return; }
    var op := st.ops[i];
    if op.Closing? {
      CallSteps(st, op.call);
    } else if op.Attach? && op.a.Holds() {
      AttachSteps(st, i);
    } else if op.Attach? {
      assert ClientInv(st, op.p);
      if st.clients[op.p].subLock.Closer? {
        BoxBodySteps(st, op.p);
      } else {
        AttachSteps(st, st.clients[op.p].subLock.i);
      }
    } else if HoldsRegistry(st, i) {
      RegistryHolderSteps(st, i);
    } else {
      RegistryHolderSteps(st, st.regLock.i);
    }
  }

  /** No deadlock: while any close body or call is unfinished, some goroutine can go on. */
  lemma NoDeadlock(trace: seq<Label>, t: State)
    requires Leads(EMPTY, trace, t) && Conforming(trace) && !Quiet(t)
    ensures CanStep(t)
  {
    ReachableInv(trace, t);
    SomeoneSteps(t);
  }

  lemma SomeoneSteps(t: State)
    requires Inv(t) && !Quiet(t)
    ensures CanStep(t)
  {
    hide Inv;
    if x :| 0 <= x < |t.clients| && Active(t.clients[x]) {
      BodySteps(t, x);
    } else {
      var i :| 0 <= i < |t.ops| && !Finished(t.ops[i]);
      OpSteps(t, i);
    }
  }
}
