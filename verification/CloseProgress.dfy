/** Every close call finishes: steps under way use up a measure, and (CloseTheorems) one of them
    is always possible until all is quiet. */
module CloseProgress {
  import opened Bytes
  import opened CloseProtocol
  import opened CloseInvariants
  import opened CloseTheorems

  function CallCost(c: Call): nat {
    match c case Load(_) => 3 case Once(_) => 2 case Await(_) => 1
  }

  function PcCost(pc: ClosePc): nat {
    match pc
    case Unclosed => 18
    case StoreDisable => 17
    case CloseRaw => 16
    case ReadLink => 15
    case CloseLink(call) => 11 + CallCost(call)
    case LockSubs => 10
    case RangeSubs => 9
    case CloseSub(call) => 5 + CallCost(call)
    case DropSub(_) => 5
    case DelName => 4
    case UnlockSubs => 3
    case Done => 0
  }

  function ClientCost(c: Client): nat { PcCost(c.pc) + 10 * |c.subs| }

  function OpCost(op: Op): nat {
    match op
    case Closing(call) => 1 + CallCost(call)
    case Closed(_) => 0
    case Attach(_, _, a) =>
      (match a
       case ALock => 17 case ALoad => 16 case AClose(call) => 3 + CallCost(call) case AStore => 12
       case AUnlock => 1 case ADone => 0)
    case Register(_, _, r, _) =>
      (match r
       case RLock => 14 case RLookup => 13 case RClose(call) => 9 + CallCost(call) case RStore => 8
       case RUnlock => 1 case RDone => 0)
    case Shutdown(d) =>
      (match d
       case SLock => 4 case SRange(todo) => 3 + 5 * |todo| case SClose(call, rest) => 3 + CallCost(call) + 5 * |rest|
       case SUnlock => 1 case SDone => 0)
    case LinkUp(_, _, l) => (match l case LFirst => 2 case LSecond => 1 case LDone => 0)
  }

  function ClientsCost(cs: seq<Client>): nat {
    if cs == [] then 0 else ClientCost(cs[0]) + ClientsCost(cs[1..])
  }

  function OpsCost(ops: seq<Op>): nat {
    if ops == [] then 0 else OpCost(ops[0]) + OpsCost(ops[1..])
  }

  /** Whether shutdown has still to collect the registered clients. */
  predicate BeforeShutdown(st: State) {
    st.shutdownOp.None? || st.shutdownOp.value >= |st.ops| || st.ops[st.shutdownOp.value] == Shutdown(SLock)
  }

  function Cost(st: State): nat {
    ClientsCost(st.clients) + OpsCost(st.ops) + (if BeforeShutdown(st) then 5 * |st.registry| else 0)
  }

  lemma {:induction false} ClientsCostUpdate(cs: seq<Client>, x: nat, c: Client)
    requires x < |cs|
    ensures ClientsCost(cs[x := c]) == ClientsCost(cs) - ClientCost(cs[x]) + ClientCost(c)
  {
    hide ClientCost;
    if x == 0 {
      assert cs[x := c][1..] == cs[1..];
    } else {
      ClientsCostUpdate(cs[1..], x - 1, c);
      assert cs[x := c][1..] == cs[1..][x - 1 := c];
    }
  }

  lemma {:induction false} OpsCostUpdate(ops: seq<Op>, i: nat, op: Op)
    requires i < |ops|
    ensures OpsCost(ops[i := op]) == OpsCost(ops) - OpCost(ops[i]) + OpCost(op)
  {
    hide OpCost;
    if i == 0 {
      assert ops[i := op][1..] == ops[1..];
    } else {
      OpsCostUpdate(ops[1..], i - 1, op);
      assert ops[i := op][1..] == ops[1..][i - 1 := op];
    }
  }

  /** A call's step lets the callee's body start at most, which costs the body's budget. */
  lemma AfterCallCost(st: State, c: Call)
    requires c.x < |st.clients|
    ensures Cost(AfterCall(st, c)) <= Cost(st)
    ensures match CallNext(st, c) case Some(d) => CallCost(d) < CallCost(c) case None => true
  {
    if c.Once? && st.clients[c.x].pc.Unclosed? {
      ClientsCostUpdate(st.clients, c.x, st.clients[c.x].(pc := StoreDisable));
    }
  }

  /** What a change of one client and a registry that gained at most `more` names costs. */
  lemma ClientChangeCost(st: State, t: State, x: nat, more: nat)
    requires x < |st.clients| == |t.clients| && t.clients == st.clients[x := t.clients[x]]
    requires t.ops == st.ops && t.shutdownOp == st.shutdownOp && |t.registry| <= |st.registry| + more
    ensures Cost(t) + ClientCost(st.clients[x]) <= Cost(st) + ClientCost(t.clients[x]) + 5 * more
  {
    hide ClientCost;
    ClientsCostUpdate(st.clients, x, t.clients[x]);
  }

  lemma SetCost(st: State, x: nat, c: Client)
    requires x < |st.clients|
    ensures Cost(Set(st, x, c)) + ClientCost(st.clients[x]) <= Cost(st) + ClientCost(c)
  {
    hide Cost, ClientCost;
    ClientChangeCost(st, Set(st, x, c), x, 0);
  }

  lemma SetOpCost(st: State, i: nat, op: Op)
    requires i < |st.ops| && !st.ops[i].Shutdown? && !op.Shutdown?
    ensures Cost(SetOp(st, i, op)) == Cost(st) - OpCost(st.ops[i]) + OpCost(op)
  {
    hide OpCost;
    OpsCostUpdate(st.ops, i, op);
  }

  lemma BodyStepCost(st: State, x: nat, pick: nat)
    requires Inv(st) && CloseEnabled(st, x, pick)
    ensures Cost(CloseNext(st, x, pick)) < Cost(st)
  {
    if st.clients[x].pc.CloseLink? || st.clients[x].pc.CloseSub? {
      BodyCallCost(st, x, pick);
    } else {
      DropsEntry(st, x);
      hide Inv;
      BodyOwnCost(st, x, pick);
    }
  }

  lemma DropsEntry(st: State, x: nat)
    requires Inv(st) && x < |st.clients|
    ensures st.clients[x].pc.DropSub? ==> st.clients[x].pc.key in st.clients[x].subs
  {
    assert ClientInv(st, x);
  }

  lemma BodyCallCost(st: State, x: nat, pick: nat)
    requires CloseEnabled(st, x, pick) && (st.clients[x].pc.CloseLink? || st.clients[x].pc.CloseSub?)
    ensures Cost(CloseNext(st, x, pick)) < Cost(st)
  {
    hide Cost;
    AfterCallCost(st, st.clients[x].pc.call);
    SetCost(AfterCall(st, st.clients[x].pc.call), x, CloseNext(st, x, pick).clients[x]);
  }

  lemma BodyOwnShape(st: State, x: nat, pick: nat)
    requires CloseEnabled(st, x, pick) && !st.clients[x].pc.CloseLink? && !st.clients[x].pc.CloseSub?
    ensures var t := CloseNext(st, x, pick);
      && |t.clients| == |st.clients| && t.clients == st.clients[x := t.clients[x]]
      && t.ops == st.ops && t.shutdownOp == st.shutdownOp
  {
  }

  lemma RemoveOne(s: set<nat>, k: nat)
    requires k in s
    ensures |s - {k}| == |s| - 1
  {
    assert s == (s - {k}) + {k};
  }

  lemma BodyOwnDrop(st: State, x: nat, pick: nat)
    requires CloseEnabled(st, x, pick) && st.clients[x].pc.DropSub?
    requires st.clients[x].pc.key in st.clients[x].subs
    ensures |CloseNext(st, x, pick).clients| == |st.clients|
    ensures ClientCost(CloseNext(st, x, pick).clients[x]) < ClientCost(st.clients[x])
  {
    RemoveOne(st.clients[x].subs, st.clients[x].pc.key);
  }

  /** Apart from dropping a sub, a body's step leaves the subs alone and lowers the counter's cost. */
  lemma BodyOwnMoves(st: State, x: nat, pick: nat)
    requires CloseEnabled(st, x, pick)
    requires !st.clients[x].pc.CloseLink? && !st.clients[x].pc.CloseSub? && !st.clients[x].pc.DropSub?
    ensures |CloseNext(st, x, pick).clients| == |st.clients|
    ensures CloseNext(st, x, pick).clients[x].subs == st.clients[x].subs
    ensures PcCost(CloseNext(st, x, pick).clients[x].pc) < PcCost(st.clients[x].pc)
  {
    var c, t := st.clients[x], CloseNext(st, x, pick);
    assert |t.clients| == |st.clients| && t.clients[x].subs == c.subs;
    var d := t.clients[x].pc;
    match c.pc
    case StoreDisable => assert d == CloseRaw;
    case CloseRaw => assert d == ReadLink;
    case ReadLink => assert d == LockSubs || (d.CloseLink? && d.call.Load?);
    case LockSubs => assert d == RangeSubs;
    case RangeSubs => assert d == DelName || (d.CloseSub? && d.call.Once?);
    case DelName => assert d == UnlockSubs;
    case UnlockSubs => assert d == Done;
    case _ =>
  }

  lemma BodyOwnClient(st: State, x: nat, pick: nat)
    requires CloseEnabled(st, x, pick) && !st.clients[x].pc.CloseLink? && !st.clients[x].pc.CloseSub?
    requires st.clients[x].pc.DropSub? ==> st.clients[x].pc.key in st.clients[x].subs
    requires |CloseNext(st, x, pick).clients| == |st.clients|
    ensures ClientCost(CloseNext(st, x, pick).clients[x]) < ClientCost(st.clients[x])
  {
    hide CloseNext, PcCost;
    if st.clients[x].pc.DropSub? { BodyOwnDrop(st, x, pick); } else { BodyOwnMoves(st, x, pick); }
  }

  lemma BodyOwnCost(st: State, x: nat, pick: nat)
    requires CloseEnabled(st, x, pick) && !st.clients[x].pc.CloseLink? && !st.clients[x].pc.CloseSub?
    requires st.clients[x].pc.DropSub? ==> st.clients[x].pc.key in st.clients[x].subs
    ensures Cost(CloseNext(st, x, pick)) < Cost(st)
  {
    BodyOwnShape(st, x, pick);
    BodyOwnClient(st, x, pick);
    RegistryShrinks(st, x, pick);
    var t := CloseNext(st, x, pick);
    hide *;
    ClientChangeCost(st, t, x, 0);
  }

  lemma RegistryShrinks(st: State, x: nat, pick: nat)
    requires CloseEnabled(st, x, pick)
    ensures |CloseNext(st, x, pick).registry| <= |st.registry|
  {
    var c, r := st.clients[x], CloseNext(st, x, pick).registry;
    assert |r| == |r.Keys| && |st.registry| == |st.registry.Keys|;
    if r != st.registry { assert r.Keys == st.registry.Keys - {c.name.value}; }
  }

  lemma ShutdownCallCost(st: State, i: nat, pick: Name)
    requires Inv(st) && OpEnabled(st, i, pick) && st.ops[i].Shutdown? && st.ops[i].d.SClose?
    ensures Cost(ShutdownNext(st, i, pick)) < Cost(st)
  {
    var call, t := st.ops[i].d.call, ShutdownNext(st, i, pick);
    assert st.shutdownOp == Some(i) by { assert OpInv(st, i); }
    AfterCallCost(st, call);
    hide Inv, ClientsCost;
    OpsCostUpdate(AfterCall(st, call).ops, i, t.ops[i]);
  }

  lemma ShutdownStepCost(st: State, i: nat, pick: Name)
    requires Inv(st) && OpEnabled(st, i, pick) && st.ops[i].Shutdown?
    ensures Cost(ShutdownNext(st, i, pick)) < Cost(st)
  {
    if st.ops[i].d.SClose? {
      ShutdownCallCost(st, i, pick);
    } else {
      assert st.shutdownOp == Some(i) by { assert OpInv(st, i); }
      hide Inv;
      ShutdownOwnCost(st, i, pick);
    }
  }

  lemma ShutdownOwnCost(st: State, i: nat, pick: Name)
    requires OpEnabled(st, i, pick) && st.ops[i].Shutdown? && !st.ops[i].d.SClose? && st.shutdownOp == Some(i)
    ensures Cost(ShutdownNext(st, i, pick)) < Cost(st)
  {
    var t := ShutdownNext(st, i, pick);
    OpsCostUpdate(st.ops, i, t.ops[i]);
    if st.ops[i].d.SLock? {
      assert |st.registry.Keys| == |st.registry|;
    } else {
      SameBudget(st, i, pick);
      ShutdownMoves(st, i, pick);
    }
    hide ClientsCost, OpsCost, OpCost;
  }

  lemma SameBudget(st: State, i: nat, pick: Name)
    requires OpEnabled(st, i, pick) && st.ops[i].Shutdown? && !st.ops[i].d.SClose? && !st.ops[i].d.SLock?
    requires st.shutdownOp == Some(i)
    ensures var t := ShutdownNext(st, i, pick);
      t.clients == st.clients && t.registry == st.registry && t.ops == st.ops[i := t.ops[i]]
      && !BeforeShutdown(st) && !BeforeShutdown(t)
  {
  }

  lemma ShutdownMoves(st: State, i: nat, pick: Name)
    requires OpEnabled(st, i, pick) && st.ops[i].Shutdown? && !st.ops[i].d.SClose? && !st.ops[i].d.SLock?
    ensures |ShutdownNext(st, i, pick).ops| == |st.ops|
    ensures OpCost(ShutdownNext(st, i, pick).ops[i]) < OpCost(st.ops[i])
  {
  }

  lemma RegisterStepCost(st: State, i: nat)
    requires OpEnabled(st, i, "") && st.ops[i].Register?
    ensures Cost(RegisterNext(st, i)) < Cost(st)
  {
    hide Cost;
    match st.ops[i].r
    case RClose(_) => RegisterCallCost(st, i);
    case RStore => RegisterStoreCost(st, i);
    case _ => RegisterMoveCost(st, i);
  }

  lemma RegisterCallCost(st: State, i: nat)
    requires OpEnabled(st, i, "") && st.ops[i].Register? && st.ops[i].r.RClose?
    ensures Cost(RegisterNext(st, i)) < Cost(st)
  {
    hide Cost;
    var call := st.ops[i].r.call;
    AfterCallCost(st, call);
    SetOpCost(AfterCall(st, call), i, RegisterNext(st, i).ops[i]);
  }

  lemma RegisterStoreCost(st: State, i: nat)
    requires OpEnabled(st, i, "") && st.ops[i].Register? && st.ops[i].r.RStore?
    ensures Cost(RegisterNext(st, i)) < Cost(st)
  {
    hide Cost, ClientCost;
    var Register(c, n, _, _) := st.ops[i];
    var t := RegisterNext(st, i);
    var m := t.(ops := st.ops);
    StoreGrows(st.registry, n, c);
    SameClientCost(st.clients[c], t.clients[c]);
    ClientChangeCost(st, m, c, 1);
    SetOpCost(m, i, t.ops[i]);
  }

  lemma RegisterMoveCost(st: State, i: nat)
    requires OpEnabled(st, i, "") && st.ops[i].Register? && !st.ops[i].r.RClose? && !st.ops[i].r.RStore?
    ensures Cost(RegisterNext(st, i)) < Cost(st)
  {
    hide Cost;
    var t := RegisterNext(st, i);
    var m := t.(ops := st.ops);
    RegLockCost(st, m);
    SetOpCost(m, i, t.ops[i]);
  }

  lemma RegLockCost(st: State, m: State)
    requires m == st.(regLock := m.regLock)
    ensures Cost(m) == Cost(st)
  {
  }

  lemma StoreGrows(reg: map<Name, nat>, n: Name, c: nat)
    ensures |reg[n := c]| <= |reg| + 1
  {
    var r := reg[n := c];
    assert r.Keys == reg.Keys + {n} && |r| == |r.Keys| && |reg| == |reg.Keys|;
  }

  lemma AttachStepCost(st: State, i: nat)
    requires OpEnabled(st, i, "") && st.ops[i].Attach?
    ensures Cost(AttachNext(st, i)) < Cost(st)
  {
    hide Cost;
    var t := AttachNext(st, i);
    var Attach(p, s, a) := st.ops[i];
    if a.AClose? {
      AfterCallCost(st, a.call);
      SetOpCost(AfterCall(st, a.call), i, t.ops[i]);
    } else {
      if a.AStore? { assert |st.clients[p].subs + {s}| <= |st.clients[p].subs| + 1; }
      var m := Set(st, p, t.clients[p]);
      SetCost(st, p, t.clients[p]);
      SetOpCost(m, i, t.ops[i]);
      assert t == SetOp(m, i, t.ops[i]);
    }
  }

  lemma OpStepCost(st: State, i: nat, pick: Name)
    requires Inv(st) && OpEnabled(st, i, pick)
    ensures Cost(OpNext(st, i, pick)) < Cost(st)
  {
    hide Inv, AttachNext, RegisterNext, ShutdownNext, Cost, ClientCost;
    match st.ops[i]
    case Closing(call) =>
      AfterCallCost(st, call);
      SetOpCost(AfterCall(st, call), i, OpNext(st, i, pick).ops[i]);
    case Closed(_) =>
    case Attach(_, _, _) => AttachStepCost(st, i);
    case Register(_, _, _, _) => RegisterStepCost(st, i);
    case Shutdown(_) => ShutdownStepCost(st, i, pick);
    case LinkUp(c1, c2, l) =>
      var t := OpNext(st, i, pick);
      var x := if l.LFirst? then c1 else c2;
      var m := Set(st, x, t.clients[x]);
      SetCost(st, x, t.clients[x]);
      SameClientCost(st.clients[x], t.clients[x]);
      SetOpCost(m, i, t.ops[i]);
  }

  lemma SameClientCost(c: Client, d: Client)
    requires c.pc == d.pc && c.subs == d.subs
    ensures ClientCost(c) == ClientCost(d)
  {
  }

  /** Every step of a call already made uses up some of the measure. */
  lemma InFlightStepCost(st: State, l: Label)
    requires Inv(st) && InFlight(l) && Enabled(st, l)
    ensures Cost(Next(st, l)) < Cost(st)
  {
    if l.StepClose? { BodyStepCost(st, l.x, l.pick); } else { OpStepCost(st, l.i, l.pickName); }
  }

  // ---- New calls ---------------------------------------------------------------------------------

  /** What a new call or connection adds to the measure at most. */
  const NEW_COST: nat := 18

  lemma {:induction false} OpsCostSnoc(ops: seq<Op>, op: Op)
    ensures OpsCost(ops + [op]) == OpsCost(ops) + OpCost(op)
  {
    hide OpCost;
    if ops == [] {
      assert (ops + [op])[1..] == [];
    } else {
      assert (ops + [op])[1..] == ops[1..] + [op];
      OpsCostSnoc(ops[1..], op);
    }
  }

  lemma {:induction false} ClientsCostSnoc(cs: seq<Client>, c: Client)
    ensures ClientsCost(cs + [c]) == ClientsCost(cs) + ClientCost(c)
  {
    hide ClientCost;
    if cs == [] {
      assert (cs + [c])[1..] == [];
    } else {
      assert (cs + [c])[1..] == cs[1..] + [c];
      ClientsCostSnoc(cs[1..], c);
    }
  }

  lemma SpawnCost(st: State, op: Op)
    ensures Cost(Spawn(st, op)) <= Cost(st) + OpCost(op)
  {
    OpsCostSnoc(st.ops, op);
    hide ClientsCost, OpsCost, OpCost;
  }

  /** A change of a client that leaves its body and subs alone costs nothing. */
  lemma FieldsCost(st: State, x: nat, c: Client)
    requires x < |st.clients| && c.pc == st.clients[x].pc && c.subs == st.clients[x].subs
    ensures Cost(Set(st, x, c)) <= Cost(st)
  {
    SameClientCost(st.clients[x], c);
    hide Cost, ClientCost;
    SetCost(st, x, c);
  }

  lemma ConnectCost(st: State, role: Role)
    ensures Cost(Next(st, Connect(role))) == Cost(st) + NEW_COST
  {
    ClientsCostSnoc(st.clients, NewClient(role));
    hide OpsCost, ClientsCost;
  }

  lemma ShutdownStartCost(st: State)
    requires st.shutdownOp.None?
    ensures Cost(Spawn(st.(shutdownOp := Some(|st.ops|)), Shutdown(SLock))) == Cost(st) + OpCost(Shutdown(SLock))
  {
    OpsCostSnoc(st.ops, Shutdown(SLock));
    hide ClientsCost, OpsCost, OpCost;
  }

  lemma StartCost(st: State, l: Label)
    requires Enabled(st, l) && !InFlight(l)
    ensures Cost(Next(st, l)) <= Cost(st) + NEW_COST
  {
    hide Cost;
    match l
    case Connect(role) => ConnectCost(st, role);
    case StartClose(x) =>
      var c := st.clients[x];
      var d := if c.name.None? then c.(retired := true) else c;
      FieldsCost(st, x, d);
      SpawnCost(Set(st, x, d), Closing(Once(x)));
    case StartAttach(p, s) => SpawnCost(st, Attach(p, s, ALock));
    case StartRegister(c, n) =>
      var d := st.clients[c].(name := Some(n), regOp := Some(|st.ops|));
      FieldsCost(st, c, d);
      SpawnCost(Set(st, c, d), Register(c, n, RLock, None));
    case StartShutdown => ShutdownStartCost(st);
    case StartLink(c1, c2) =>
      var d1 := st.clients[c1].(room := Joined(|st.ops|));
      var t := Set(st, c1, d1);
      var d2 := t.clients[c2].(room := Joined(|st.ops|));
      FieldsCost(st, c1, d1);
      FieldsCost(t, c2, d2);
      SpawnCost(Set(t, c2, d2), LinkUp(c1, c2, LFirst));
    case LinkForeign(x) => FieldsCost(st, x, st.clients[x].(room := Vpn, link := Foreign));
  }

  /** How many of the steps are new calls, requests or connections. */
  function NewCalls(trace: seq<Label>): nat {
    if trace == [] then 0 else NewCalls(trace[1..]) + if InFlight(trace[0]) then 0 else 1
  }

  /** What a schedule is worth at most that starts from st and brings n new calls. */
  function Budget(st: State, n: nat): nat { Cost(st) + n * (NEW_COST + 1) }

  /** Any schedule is at most as long as the measure and the new calls it brings allow. */
  lemma {:induction false} RunsAreBounded(st: State, trace: seq<Label>, t: State)
    requires Inv(st) && Leads(st, trace, t) && Conforming(trace)
    ensures Inv(t) && |trace| + Cost(t) <= Budget(st, NewCalls(trace))
    decreases |trace|
  {
    hide Inv, Cost, Next, Enabled, InFlight;
    if trace != [] {
      var l := trace[0];
      assert l.Connect? ==> !l.role.Both?;
      StepInv(st, l);
      if InFlight(l) { InFlightStepCost(st, l); } else { StartCost(st, l); }
      RunsAreBounded(Next(st, l), trace[1..], t);
    }
  }

  /** From every reachable state, whatever the order in which goroutines run and whichever new calls,
      requests and connections come in between: after as many steps as the budget allows for those new calls
      nothing is left running, and until nothing is, something can run. */
  lemma EveryCloseFinishes(before: seq<Label>, st: State, trace: seq<Label>, t: State)
    requires Leads(EMPTY, before, st) && Conforming(before)
    requires Leads(st, trace, t) && Conforming(trace)
    ensures |trace| <= Budget(st, NewCalls(trace))
    ensures Quiet(t) || CanStep(t)
    ensures |trace| == Budget(st, NewCalls(trace)) ==> Quiet(t)
  {
    ReachableInv(before, st);
    RunsAreBounded(st, trace, t);
    hide Cost, Inv, Leads;
    if !Quiet(t) {
      SomeoneSteps(t);
      if |trace| == Budget(st, NewCalls(trace)) { StepNeedsCost(t); }
    }
  }

  lemma StepNeedsCost(t: State)
    requires Inv(t) && CanStep(t)
    ensures Cost(t) > 0
  {
    hide Cost, Inv;
    if x: nat, pick: nat :| CloseEnabled(t, x, pick) {
      InFlightStepCost(t, StepClose(x, pick));
    } else {
      var i: nat, pick :| OpEnabled(t, i, pick);
      InFlightStepCost(t, StepOp(i, pick));
    }
  }

  // ---- One close while new calls go on arriving --------------------------------------------------

  predicate OwnStep(l: Label, x: nat) {
    l.StepClose? && l.x == x
  }

  function OwnSteps(trace: seq<Label>, x: nat): nat {
    if trace == [] then 0 else OwnSteps(trace[1..], x) + if OwnStep(trace[0], x) then 1 else 0
  }

  /** Past the lock of its subs: others can neither move x's body nor add to its subs. */
  predicate Settled(st: State, x: nat) {
    x < |st.clients| && (st.clients[x].pc.HoldsSubs() || st.clients[x].pc.Done?)
  }

  predicate StoresTo(op: Op, x: nat) {
    op.Attach? && op.p == x && op.a.AStore?
  }

  /** An attach about to store has seen the parent's body before its subs. */
  lemma NobodyStoresTo(st: State, i: nat, x: nat)
    requires Inv(st) && i < |st.ops| && Settled(st, x)
    ensures !StoresTo(st.ops[i], x)
  {
    assert OpInv(st, i);
    hide Inv;
  }

  lemma OpInRange(st: State, i: nat, pick: Name)
    requires OpEnabled(st, i, pick)
    ensures i < |st.ops|
  {
  }

  lemma CallLowers(st: State, x: nat, pick: nat)
    requires CloseEnabled(st, x, pick) && (st.clients[x].pc.CloseSub? || st.clients[x].pc.CloseLink?)
    ensures var t := CloseNext(st, x, pick);
      && |t.clients| == |st.clients| && ClientCost(t.clients[x]) < ClientCost(st.clients[x])
      && (st.clients[x].pc.CloseSub? ==> t.clients[x].pc.HoldsSubs())
  {
  }

  lemma OwnLowers(st: State, x: nat, pick: nat)
    requires Inv(st) && CloseEnabled(st, x, pick)
    ensures |CloseNext(st, x, pick).clients| == |st.clients|
    ensures ClientCost(CloseNext(st, x, pick).clients[x]) < ClientCost(st.clients[x])
    ensures Settled(st, x) ==> Settled(CloseNext(st, x, pick), x)
  {
    if st.clients[x].pc.CloseSub? || st.clients[x].pc.CloseLink? {
      CallLowers(st, x, pick);
    } else {
      DropsEntry(st, x);
      BodyOwnShape(st, x, pick);
      hide Inv, ClientCost;
      BodyOwnClient(st, x, pick);
    }
  }

  /** Others do no more to x's body than start it, and add no subs. */
  predicate Spares(c: Client, d: Client) {
    d.subs == c.subs && (d.pc == c.pc || (c.pc.Unclosed? && d.pc.StoreDisable?))
  }

  lemma SparesCost(c: Client, d: Client)
    requires Spares(c, d)
    ensures ClientCost(d) <= ClientCost(c)
  {
  }

  lemma OtherBodySpares(st: State, y: nat, pick: nat, x: nat)
    requires CloseEnabled(st, y, pick) && x < |st.clients| && x != y
    ensures |CloseNext(st, y, pick).clients| == |st.clients| && Spares(st.clients[x], CloseNext(st, y, pick).clients[x])
  {
  }

  lemma OpSpares(st: State, i: nat, pick: Name, x: nat)
    requires OpEnabled(st, i, pick) && x < |st.clients| && !StoresTo(st.ops[i], x)
    ensures |OpNext(st, i, pick).clients| == |st.clients| && Spares(st.clients[x], OpNext(st, i, pick).clients[x])
  {
  }

  lemma StoreAdds(st: State, i: nat, pick: Name, x: nat)
    requires OpEnabled(st, i, pick) && x < |st.clients| && StoresTo(st.ops[i], x)
    ensures |OpNext(st, i, pick).clients| == |st.clients|
    ensures ClientCost(OpNext(st, i, pick).clients[x]) <= ClientCost(st.clients[x]) + 10
  {
    assert |st.clients[x].subs + {st.ops[i].s}| <= |st.clients[x].subs| + 1;
  }

  lemma StartSpares(st: State, l: Label, x: nat)
    requires Enabled(st, l) && !InFlight(l) && x < |st.clients|
    ensures x < |Next(st, l).clients| && Spares(st.clients[x], Next(st, l).clients[x])
  {
  }

  /** The step stores a new sub in x's map. */
  predicate Adds(st: State, l: Label, x: nat) {
    l.StepOp? && l.i < |st.ops| && StoresTo(st.ops[l.i], x)
  }

  lemma OthersSpare(st: State, l: Label, x: nat)
    requires Enabled(st, l) && x < |st.clients| && !OwnStep(l, x) && !Adds(st, l, x)
    ensures x < |Next(st, l).clients| && Spares(st.clients[x], Next(st, l).clients[x])
  {
    hide CloseEnabled, CloseNext, OpEnabled, OpNext, Spares, StoresTo;
    if l.StepClose? {
      OtherBodySpares(st, l.x, l.pick, x);
    } else if l.StepOp? {
      assert l.i < |st.ops| by { OpInRange(st, l.i, l.pickName); }
      OpSpares(st, l.i, l.pickName, x);
    } else {
      StartSpares(st, l, x);
    }
  }

  lemma OthersAdd(st: State, l: Label, x: nat)
    requires Enabled(st, l) && x < |st.clients| && !OwnStep(l, x)
    ensures x < |Next(st, l).clients|
    ensures ClientCost(Next(st, l).clients[x]) <= ClientCost(st.clients[x]) + if Adds(st, l, x) then 10 else 0
  {
    hide ClientCost, CloseEnabled, CloseNext, OpEnabled, OpNext, Spares, StoresTo;
    if Adds(st, l, x) {
      StoreAdds(st, l.i, l.pickName, x);
    } else {
      OthersSpare(st, l, x);
      SparesCost(st.clients[x], Next(st, l).clients[x]);
    }
  }

  lemma OwnStepLowers(st: State, l: Label, x: nat)
    requires Inv(st) && Enabled(st, l) && OwnStep(l, x) && x < |st.clients|
    ensures x < |Next(st, l).clients| && ClientCost(Next(st, l).clients[x]) < ClientCost(st.clients[x])
    ensures Settled(st, x) ==> Settled(Next(st, l), x)
  {
    hide Inv, ClientCost, Settled;
    OwnLowers(st, x, l.pick);
  }

  /** Once the body has its lock, nobody adds a sub. */
  lemma SettledStays(st: State, l: Label, x: nat)
    requires Inv(st) && Enabled(st, l) && (l.Connect? ==> !l.role.Both?) && Settled(st, x)
    ensures Settled(Next(st, l), x) && !Adds(st, l, x)
  {
    if l.StepOp? && l.i < |st.ops| { NobodyStoresTo(st, l.i, x); }
    hide Inv, StoresTo, Enabled, Next;
    if OwnStep(l, x) { OwnStepLowers(st, l, x); } else { OthersSpare(st, l, x); }
  }

  /** How often the schedule from st stores a new sub in x's map. */
  function AddedSubs(st: State, trace: seq<Label>, x: nat): nat
    decreases |trace|
  {
    if trace == [] || !Enabled(st, trace[0]) then 0
    else AddedSubs(Next(st, trace[0]), trace[1..], x) + if Adds(st, trace[0], x) then 1 else 0
  }

  /** While new calls go on arriving without end: the body of a close takes a bounded number of its own steps
      and ten more for every sub attached to it in the meantime; none is attached once it has the lock of its
      subs. */
  lemma {:induction false} OneCloseIsBounded(st: State, trace: seq<Label>, t: State, x: nat)
    requires Inv(st) && Leads(st, trace, t) && Conforming(trace) && x < |st.clients|
    ensures x < |t.clients|
    ensures OwnSteps(trace, x) + ClientCost(t.clients[x]) <= ClientCost(st.clients[x]) + 10 * AddedSubs(st, trace, x)
    ensures Settled(st, x) ==> Settled(t, x) && AddedSubs(st, trace, x) == 0
    decreases |trace|
  {
    hide Inv, ClientCost, Next, Enabled, Settled, Adds, OwnStep;
    if trace != [] {
      var l := trace[0];
      assert l.Connect? ==> !l.role.Both?;
      StepInv(st, l);
      if OwnStep(l, x) { OwnStepLowers(st, l, x); } else { OthersAdd(st, l, x); }
      if Settled(st, x) { SettledStays(st, l, x); }
      OneCloseIsBounded(Next(st, l), trace[1..], t, x);
    }
  }
}
