/** No client is closed without a cause, and what registering, attaching and linking leave behind. */
module CloseCauses {
  import opened Bytes
  import opened CloseProtocol
  import opened CloseInvariants

  /** The operation is a call of x's `close` by a handler or after a failed write. */
  predicate ClosesIt(op: Op, x: nat) {
    (op.Closing? && op.call.x == x) || (op.Closed? && op.x == x)
  }

  predicate AttachesTo(op: Op, p: nat, x: nat) {
    op.Attach? && op.p == p && op.s == x
  }

  /** The operation registers another client under x's name, and found x registered there. */
  predicate Displaces(op: Op, x: nat, name: Option<Name>) {
    op.Register? && op.c != x && name == Some(op.n) && op.found == Some(x)
  }

  predicate LinkedClosed(c: Client, x: nat) {
    c.disable && c.saw == Some(x)
  }

  predicate ByParent(st: State, op: Op, x: nat) {
    op.Attach? && op.s == x && op.p < |st.clients| && st.clients[op.p].disable
  }

  /** x's close was called for, a client linked with x closed, a client x was attached to closed, another
      client found x under the name it registers, or x is registered and the server shuts down. */
  predicate Cause(st: State, x: nat) {
    && x < |st.clients|
    && (|| (exists i | 0 <= i < |st.ops| :: ClosesIt(st.ops[i], x))
        || (exists y | 0 <= y < |st.clients| :: LinkedClosed(st.clients[y], x))
        || (exists i | 0 <= i < |st.ops| :: ByParent(st, st.ops[i], x))
        || (exists i | 0 <= i < |st.ops| :: Displaces(st.ops[i], x, st.clients[x].name))
        || (st.shutdownOp.Some? && st.clients[x].stored))
  }

  predicate OpMono(a: Op, b: Op) {
    match a
    case Closing(call) => ClosesIt(b, call.x)
    case Closed(x) => b == a
    case Attach(p, s, _) => b.Attach? && b.p == p && b.s == s
    case Register(c, n, _, found) => b.Register? && b.c == c && b.n == n && (found.Some? ==> b.found == found)
    case _ => true
  }

  predicate ClientMono(c: Client, d: Client) {
    && (c.disable ==> d.disable) && (c.stored ==> d.stored)
    && (c.saw.Some? ==> d.saw == c.saw) && (c.name.Some? ==> d.name == c.name)
  }

  predicate Mono(st: State, t: State) {
    && |st.clients| <= |t.clients| && |st.ops| <= |t.ops|
    && (forall i | 0 <= i < |st.ops| :: OpMono(st.ops[i], t.ops[i]))
    && (forall y | 0 <= y < |st.clients| :: ClientMono(st.clients[y], t.clients[y]))
    && (st.shutdownOp.Some? ==> t.shutdownOp.Some?)
  }

  lemma CauseStays(st: State, t: State, x: nat)
    requires Mono(st, t) && Cause(st, x)
    ensures Cause(t, x)
  {
    assert ClientMono(st.clients[x], t.clients[x]);
    if i :| 0 <= i < |st.ops| && ClosesIt(st.ops[i], x) {
      assert OpMono(st.ops[i], t.ops[i]) && ClosesIt(t.ops[i], x);
    } else if y :| 0 <= y < |st.clients| && LinkedClosed(st.clients[y], x) {
      assert ClientMono(st.clients[y], t.clients[y]) && LinkedClosed(t.clients[y], x);
    } else if i :| 0 <= i < |st.ops| && ByParent(st, st.ops[i], x) {
      assert OpMono(st.ops[i], t.ops[i]) && ClientMono(st.clients[st.ops[i].p], t.clients[st.ops[i].p]);
      assert ByParent(t, t.ops[i], x);
    } else if i :| 0 <= i < |st.ops| && Displaces(st.ops[i], x, st.clients[x].name) {
      assert OpMono(st.ops[i], t.ops[i]) && Displaces(t.ops[i], x, t.clients[x].name);
    }
  }

  // ---- Every step is monotone ----------------------------------------------------------------

  lemma BodyMono(st: State, x: nat, pick: nat, y: nat)
    requires Inv(st) && CloseEnabled(st, x, pick) && y < |st.clients|
    ensures var t := CloseNext(st, x, pick);
      && |t.clients| == |st.clients| && t.ops == st.ops && t.shutdownOp == st.shutdownOp
      && ClientMono(st.clients[y], t.clients[y])
  {
    assert ClientInv(st, x);
    assert st.clients[x].pc.ReadLink? ==> st.clients[x].saw.None?;
    hide Inv, ClientInv;
    if st.clients[x].pc.CloseLink? || st.clients[x].pc.CloseSub? {
      BodyCallMono(st, x, pick, y);
    } else {
      BodyOwnMono(st, x, pick, y);
    }
  }

  lemma BodyCallMono(st: State, x: nat, pick: nat, y: nat)
    requires CloseEnabled(st, x, pick) && y < |st.clients|
    requires st.clients[x].pc.CloseLink? || st.clients[x].pc.CloseSub?
    ensures var t := CloseNext(st, x, pick);
      && |t.clients| == |st.clients| && t.ops == st.ops && t.shutdownOp == st.shutdownOp
      && ClientMono(st.clients[y], t.clients[y])
  {
  }

  lemma BodyOwnMono(st: State, x: nat, pick: nat, y: nat)
    requires CloseEnabled(st, x, pick) && y < |st.clients|
    requires !st.clients[x].pc.CloseLink? && !st.clients[x].pc.CloseSub?
    requires st.clients[x].pc.ReadLink? ==> st.clients[x].saw.None?
    ensures var t := CloseNext(st, x, pick);
      && |t.clients| == |st.clients| && t.ops == st.ops && t.shutdownOp == st.shutdownOp
      && ClientMono(st.clients[y], t.clients[y])
  {
  }

  lemma OpClientMono(st: State, i: nat, pick: Name, y: nat)
    requires OpEnabled(st, i, pick) && y < |st.clients|
    ensures var t := OpNext(st, i, pick);
      && |t.clients| == |st.clients| && t.shutdownOp == st.shutdownOp
      && ClientMono(st.clients[y], t.clients[y])
  {
  }

  lemma OpOpsMono(st: State, i: nat, pick: Name, j: nat)
    requires OpEnabled(st, i, pick) && j < |st.ops| && OpCause(st, i)
    ensures var t := OpNext(st, i, pick);
      && |t.ops| == |st.ops| && OpMono(st.ops[j], t.ops[j])
  {
    if j != i { OtherOp(st, i, pick, j); SameOpMono(st.ops[j]); }
  }

  lemma OtherOp(st: State, i: nat, pick: Name, j: nat)
    requires OpEnabled(st, i, pick) && j < |st.ops| && j != i
    ensures |OpNext(st, i, pick).ops| == |st.ops| && OpNext(st, i, pick).ops[j] == st.ops[j]
  {
  }

  lemma SameOpMono(op: Op)
    ensures OpMono(op, op)
  {
  }

  lemma StartMono(st: State, l: Label)
    requires Enabled(st, l) && IsStart(l)
    ensures Mono(st, Next(st, l))
  {
    forall i | 0 <= i < |st.ops| ensures OpMono(st.ops[i], Next(st, l).ops[i]) { SameOpMono(st.ops[i]); }
  }

  lemma StepMono(st: State, l: Label)
    requires Inv(st) && CauseInv(st) && Enabled(st, l) && (l.Connect? ==> !l.role.Both?)
    ensures Mono(st, Next(st, l))
  {
    if l.StepOp? { OpIndex(st, l.i, l.pickName); assert OpCause(st, l.i); }
    hide Inv, CauseInv, OpCause, CloseEnabled, CloseNext, OpEnabled, OpNext, OpMono, ClientMono;
    var t := Next(st, l);
    if l.StepClose? {
      if |st.clients| > 0 { BodyMono(st, l.x, l.pick, 0); }
      BodyEnabledClient(st, l.x, l.pick);
      forall y | 0 <= y < |st.clients| ensures ClientMono(st.clients[y], t.clients[y]) { BodyMono(st, l.x, l.pick, y); }
      forall i | 0 <= i < |st.ops| ensures OpMono(st.ops[i], t.ops[i]) { SameOpMono(st.ops[i]); }
    } else if l.StepOp? {
      OpSizes(st, l.i, l.pickName);
      forall y | 0 <= y < |st.clients| ensures ClientMono(st.clients[y], t.clients[y]) {
        OpClientMono(st, l.i, l.pickName, y);
      }
      forall j | 0 <= j < |st.ops| ensures OpMono(st.ops[j], t.ops[j]) { OpOpsMono(st, l.i, l.pickName, j); }
    } else {
      StartMono(st, l);
    }
  }

  lemma OpIndex(st: State, i: nat, pick: Name)
    requires OpEnabled(st, i, pick)
    ensures i < |st.ops|
  {
  }

  lemma BodyEnabledClient(st: State, x: nat, pick: nat)
    requires CloseEnabled(st, x, pick)
    ensures x < |st.clients|
  {
  }

  lemma OpSizes(st: State, i: nat, pick: Name)
    requires OpEnabled(st, i, pick)
    ensures var t := OpNext(st, i, pick);
      |t.clients| == |st.clients| && |t.ops| == |st.ops| && t.shutdownOp == st.shutdownOp
  {
  }

  // ---- Whoever is called has a cause -----------------------------------------------------------

  predicate Attached(st: State, p: nat, k: nat) {
    exists i | 0 <= i < |st.ops| :: AttachesTo(st.ops[i], p, k)
  }

  /** The target of an operation's call under way has a cause. */
  predicate OpCause(st: State, i: nat)
    requires i < |st.ops|
  {
    match st.ops[i]
    case Attach(p, s, a) => a.AClose? ==> p < |st.clients| && st.clients[p].disable
    case Register(c, n, r, found) =>
      && (r.RClose? ==>
            r.call.x < |st.clients| && st.clients[r.call.x].name == Some(n) && r.call.x != c && found == Some(r.call.x))
      && (r.RLock? || r.RLookup? ==> found.None?)
    case Shutdown(d) => d.SClose? ==> d.call.x < |st.clients| && st.clients[d.call.x].stored
    case _ => true
  }

  predicate CauseInv(st: State) {
    && (forall x | 0 <= x < |st.clients| && !st.clients[x].pc.Unclosed? :: Cause(st, x))
    && (forall p, k | 0 <= p < |st.clients| && k in st.clients[p].subs :: Attached(st, p, k))
    && (forall i | 0 <= i < |st.ops| :: OpCause(st, i))
  }

  /** A step that starts x's body is a step of a call, whose target is x. */
  predicate Calls(st: State, l: Label, x: nat) {
    match l
    case StepClose(y, _) =>
      && y < |st.clients| && (st.clients[y].pc.CloseLink? || st.clients[y].pc.CloseSub?)
      && st.clients[y].pc.call.x == x
    case StepOp(i, _) =>
      && i < |st.ops|
      && (match st.ops[i]
          case Closing(call) => call.x == x
          case Attach(_, _, a) => a.AClose? && a.call.x == x
          case Register(_, _, r, _) => r.RClose? && r.call.x == x
          case Shutdown(d) => d.SClose? && d.call.x == x
          case _ => false)
    case _ => false
  }

  lemma BodyStarts(st: State, y: nat, pick: nat, x: nat)
    requires CloseEnabled(st, y, pick) && x < |st.clients| == |CloseNext(st, y, pick).clients|
    requires st.clients[x].pc.Unclosed? && !CloseNext(st, y, pick).clients[x].pc.Unclosed?
    ensures Calls(st, StepClose(y, pick), x)
  {
  }

  lemma OpStarts(st: State, i: nat, pick: Name, x: nat)
    requires OpEnabled(st, i, pick) && x < |st.clients| == |OpNext(st, i, pick).clients|
    requires st.clients[x].pc.Unclosed? && !OpNext(st, i, pick).clients[x].pc.Unclosed?
    ensures Calls(st, StepOp(i, pick), x)
  {
  }

  lemma StartStarts(st: State, l: Label, x: nat)
    requires Enabled(st, l) && IsStart(l) && x < |Next(st, l).clients|
    ensures !Next(st, l).clients[x].pc.Unclosed? ==> x < |st.clients| && !st.clients[x].pc.Unclosed?
  {
  }

  lemma CalledByBody(st: State, y: nat, x: nat)
    requires Inv(st) && CauseInv(st) && y < |st.clients| && x < |st.clients|
    requires (st.clients[y].pc.CloseLink? || st.clients[y].pc.CloseSub?) && st.clients[y].pc.call.x == x
    ensures Cause(st, x)
  {
    assert ClientInv(st, y);
    hide Inv;
    if st.clients[y].pc.CloseLink? {
      assert LinkedClosed(st.clients[y], x);
    } else {
      assert Attached(st, y, x);
      var i :| 0 <= i < |st.ops| && AttachesTo(st.ops[i], y, x);
      assert ByParent(st, st.ops[i], x);
    }
  }

  lemma CalledByOp(st: State, i: nat, pick: Name, x: nat)
    requires Inv(st) && CauseInv(st) && Calls(st, StepOp(i, pick), x) && x < |st.clients|
    ensures Cause(st, x)
  {
    assert OpInv(st, i) && OpCause(st, i);
    hide Inv;
    match st.ops[i]
    case Closing(_) => assert ClosesIt(st.ops[i], x);
    case Attach(_, _, _) => assert ByParent(st, st.ops[i], x);
    case Register(_, _, _, _) => assert Displaces(st.ops[i], x, st.clients[x].name);
    case Shutdown(_) =>
  }

  lemma CausedStep(st: State, l: Label, x: nat)
    requires Inv(st) && CauseInv(st) && Enabled(st, l) && (l.Connect? ==> !l.role.Both?)
    requires x < |Next(st, l).clients| && !Next(st, l).clients[x].pc.Unclosed?
    ensures Cause(Next(st, l), x)
  {
    StepMono(st, l);
    hide Inv, CauseInv, Cause, CloseEnabled, CloseNext, OpEnabled, OpNext, Mono, Calls;
    assert x < |st.clients| && Cause(st, x) by {
      if l.StepClose? {
        BodyEnabledClient(st, l.x, l.pick);
        BodyMono(st, l.x, l.pick, l.x);
        if st.clients[x].pc.Unclosed? { BodyStarts(st, l.x, l.pick, x); CalledBy(st, l, x); } else { Known(st, x); }
      } else if l.StepOp? {
        OpSizes(st, l.i, l.pickName);
        if st.clients[x].pc.Unclosed? { OpStarts(st, l.i, l.pickName, x); CalledBy(st, l, x); } else { Known(st, x); }
      } else {
        StartStarts(st, l, x);
        Known(st, x);
      }
    }
    CauseStays(st, Next(st, l), x);
  }

  lemma Known(st: State, x: nat)
    requires CauseInv(st) && x < |st.clients| && !st.clients[x].pc.Unclosed?
    ensures Cause(st, x)
  {
  }

  lemma CalledBy(st: State, l: Label, x: nat)
    requires Inv(st) && CauseInv(st) && Calls(st, l, x) && x < |st.clients|
    ensures Cause(st, x)
  {
    hide Inv, CauseInv, Cause;
    if l.StepClose? { CalledByBody(st, l.x, x); } else { CalledByOp(st, l.i, l.pickName, x); }
  }

  /** A new entry in a sub map is put there by an attach operation. */
  lemma SubsStep(st: State, l: Label, p: nat, k: nat)
    requires Enabled(st, l) && p < |Next(st, l).clients| && k in Next(st, l).clients[p].subs
    ensures (p < |st.clients| && k in st.clients[p].subs)
         || (l.StepOp? && l.i < |st.ops| && AttachesTo(st.ops[l.i], p, k))
  {
    hide CloseEnabled, CloseNext, OpEnabled, OpNext;
    if l.StepClose? {
      BodySubs(st, l.x, l.pick, p);
    } else if l.StepOp? {
      OpSubs(st, l.i, l.pickName, p, k);
    }
  }

  lemma BodySubs(st: State, x: nat, pick: nat, p: nat)
    requires CloseEnabled(st, x, pick) && p < |CloseNext(st, x, pick).clients|
    ensures p < |st.clients| && CloseNext(st, x, pick).clients[p].subs <= st.clients[p].subs
  {
  }

  lemma OpSubs(st: State, i: nat, pick: Name, p: nat, k: nat)
    requires OpEnabled(st, i, pick) && p < |OpNext(st, i, pick).clients|
    requires k in OpNext(st, i, pick).clients[p].subs
    ensures p < |st.clients| && i < |st.ops| && (k in st.clients[p].subs || AttachesTo(st.ops[i], p, k))
  {
  }

  lemma AttachedStays(st: State, t: State, p: nat, k: nat)
    requires Mono(st, t) && Attached(st, p, k)
    ensures Attached(t, p, k)
  {
    var i :| 0 <= i < |st.ops| && AttachesTo(st.ops[i], p, k);
    assert OpMono(st.ops[i], t.ops[i]) && AttachesTo(t.ops[i], p, k);
  }

  lemma SubsCaused(st: State, l: Label, p: nat, k: nat)
    requires Inv(st) && CauseInv(st) && Enabled(st, l) && (l.Connect? ==> !l.role.Both?)
    requires p < |Next(st, l).clients| && k in Next(st, l).clients[p].subs
    ensures Attached(Next(st, l), p, k)
  {
    StepMono(st, l);
    SubsStep(st, l, p, k);
    hide Inv, Next, Enabled, Mono;
    if p < |st.clients| && k in st.clients[p].subs {
      assert Attached(st, p, k);
    } else {
      assert AttachesTo(st.ops[l.i], p, k);
    }
    AttachedStays(st, Next(st, l), p, k);
  }

  /** An operation that did not just start its call keeps the cause it had. */
  lemma OldOpCause(st: State, t: State, i: nat)
    requires Mono(st, t) && i < |st.ops| && t.ops[i] == st.ops[i] && OpCause(st, i)
    ensures OpCause(t, i)
  {
    match st.ops[i]
    case Attach(p, s, a) => if a.AClose? { assert ClientMono(st.clients[p], t.clients[p]); }
    case Register(c, n, r, found) => if r.RClose? { assert ClientMono(st.clients[r.call.x], t.clients[r.call.x]); }
    case Shutdown(d) => if d.SClose? { assert ClientMono(st.clients[d.call.x], t.clients[d.call.x]); }
    case _ =>
  }

  lemma OwnOpCause(st: State, i: nat, pick: Name)
    requires Inv(st) && OpEnabled(st, i, pick) && OpCause(st, i)
    ensures |OpNext(st, i, pick).ops| == |st.ops| && OpCause(OpNext(st, i, pick), i)
  {
    assert OpInv(st, i) && RegistryInv(st);
    hide Inv;
    OpSizes(st, i, pick);
    forall y | 0 <= y < |st.clients| ensures ClientMono(st.clients[y], OpNext(st, i, pick).clients[y]) {
      OpClientMono(st, i, pick, y);
    }
    match st.ops[i]
    case Attach(_, _, _) => hide RegistryInv;
    case Register(_, _, _, _) =>
    case Shutdown(_) =>
    case _ => hide RegistryInv, OpInv;
  }

  lemma OpCausedStep(st: State, l: Label, i: nat)
    requires Inv(st) && CauseInv(st) && Enabled(st, l) && (l.Connect? ==> !l.role.Both?)
    requires i < |Next(st, l).ops|
    ensures OpCause(Next(st, l), i)
  {
    StepMono(st, l);
    if l.StepOp? && l.i == i {
      assert OpCause(st, i);
      hide Inv, CauseInv, OpCause, Mono;
      OwnOpCause(st, i, l.pickName);
    } else if i < |st.ops| {
      assert OpCause(st, i);
      OtherOpSame(st, l, i);
      hide Inv, CauseInv, OpCause, Mono, Next, Enabled;
      OldOpCause(st, Next(st, l), i);
    } else {
      NewOpStarts(st, l, i);
    }
  }

  lemma OtherOpSame(st: State, l: Label, i: nat)
    requires Enabled(st, l) && i < |st.ops| && !(l.StepOp? && l.i == i)
    ensures i < |Next(st, l).ops| && Next(st, l).ops[i] == st.ops[i]
  {
    if l.StepOp? { OtherOp(st, l.i, l.pickName, i); }
  }

  lemma NewOpStarts(st: State, l: Label, i: nat)
    requires Enabled(st, l) && |st.ops| <= i < |Next(st, l).ops|
    ensures OpCause(Next(st, l), i)
  {
    if l.StepOp? { OpSizes(st, l.i, l.pickName); }
  }

  lemma CauseInvStep(st: State, l: Label)
    requires Inv(st) && CauseInv(st) && Enabled(st, l) && (l.Connect? ==> !l.role.Both?)
    ensures CauseInv(Next(st, l))
  {
    var t := Next(st, l);
    hide Inv, Cause, Attached, OpCause, Next, Enabled;
    forall x | 0 <= x < |t.clients| && !t.clients[x].pc.Unclosed? ensures Cause(t, x) { CausedStep(st, l, x); }
    forall p, k | 0 <= p < |t.clients| && k in t.clients[p].subs ensures Attached(t, p, k) { SubsCaused(st, l, p, k); }
    forall i | 0 <= i < |t.ops| ensures OpCause(t, i) { OpCausedStep(st, l, i); }
  }

  lemma {:induction false} CauseInvHolds(st: State, trace: seq<Label>, t: State)
    requires Inv(st) && CauseInv(st) && Leads(st, trace, t) && Conforming(trace)
    ensures CauseInv(t)
    decreases |trace|
  {
    hide Inv, CauseInv, Next, Enabled;
    if trace != [] {
      assert trace[0].Connect? ==> !trace[0].role.Both?;
      StepInv(st, trace[0]);
      CauseInvStep(st, trace[0]);
      CauseInvHolds(Next(st, trace[0]), trace[1..], t);
    }
  }

  /** No spurious closes: in every state conforming clients can reach, a client whose body has begun has
      a cause. So attaching, registering or linking by itself closes nobody. */
  lemma EveryCloseHasACause(trace: seq<Label>, t: State, x: nat)
    requires Leads(EMPTY, trace, t) && Conforming(trace)
    requires x < |t.clients| && !t.clients[x].pc.Unclosed?
    ensures Cause(t, x)
  {
    CauseInvHolds(EMPTY, trace, t);
  }

  /** What an operation that has returned leaves behind: a registered client is found under its name until
      its close deletes it; an attached sub is in the parent's map or closed. */
  lemma ReturnedOperations(trace: seq<Label>, t: State, i: nat)
    requires Leads(EMPTY, trace, t) && Conforming(trace) && i < |t.ops|
    ensures match t.ops[i]
      case Register(c, n, r, found) =>
        r.RDone? ==> c < |t.clients| && (t.clients[c].pc.NameGone() || (n in t.registry && t.registry[n] == c))
      case Attach(p, s, a) =>
        a.ADone? ==> p < |t.clients| && s < |t.clients| && (s in t.clients[p].subs || t.clients[s].pc.Done?)
      case _ => true
  {
    ReachableInv(trace, t);
    assert OpInv(t, i) && RegistryInv(t);
  }
}
