/** Why conformity is needed: a connection that is both a registered parent and one end of a link
    with its own sub can bring two closing goroutines to wait for each other for ever. */
module CloseDeadlock {
  import opened Bytes
  import opened CloseProtocol
  import opened CloseTheorems

  lemma {:induction false} LeadsSnoc(st: State, trace: seq<Label>, t: State, l: Label)
    requires Leads(st, trace, t) && Enabled(t, l)
    ensures Leads(st, trace + [l], Next(t, l))
    decreases |trace|
  {
    hide Next, Enabled;
    if trace == [] {
      assert (trace + [l])[1..] == [];
    } else {
      assert (trace + [l])[0] == trace[0] && (trace + [l])[1..] == trace[1..] + [l];
      LeadsSnoc(Next(st, trace[0]), trace[1..], t, l);
    }
  }

  /** Client 0 is `Both`: registered as "x" and, as a sub, linked with client 1, its own sub. */
  const NAMED := NewClient(Both).(name := Some("x"), regOp := Some(0))
  const PARENT := NAMED.(stored := true, subs := {1}, link := Peer(1), room := Joined(2))
  const CHILD := NewClient(Both).(link := Peer(0), room := Joined(2))
  const CHILD_GONE := CHILD.(retired := true, disable := true)
  const CHILD_WAITS := CHILD_GONE.(saw := Some(0), pc := CloseLink(Await(0)))
  const PARENT_GONE := PARENT.(disable := true, stamp := 1)
  const PARENT_PAST_LINK := PARENT_GONE.(saw := Some(1), subLock := Closer)
  const NAMES: map<Name, nat> := map["x" := 0]
  const REGISTERED: seq<Op> := [Register(0, "x", RDone, None)]
  const ATTACHED: seq<Op> := REGISTERED + [Attach(0, 1, ADone)]
  const SETUP: seq<Op> := ATTACHED + [LinkUp(0, 1, LDone)]
  const CALLED: seq<Op> := SETUP + [Closing(Await(0)), Closing(Await(1))]

  /** The parent's body waits, holding its subMapLock, for the child's, and the child's for the parent's. */
  const STUCK := State(
    [PARENT_PAST_LINK.(pc := CloseSub(Await(1))), CHILD_WAITS],
    CALLED, NAMES, Nobody, 2, None)

  /** Only connections of the given roles are made. */
  predicate Uses(trace: seq<Label>, roles: set<Role>) {
    forall i | 0 <= i < |trace| :: trace[i].Connect? ==> trace[i].role in roles
  }

  predicate Reaches(trace: seq<Label>, s: State) {
    Leads(EMPTY, trace, s) && Uses(trace, {Both})
  }

  lemma LeadsNowhere()
    ensures Reaches([], EMPTY)
  {
  }

  lemma Go(tr: seq<Label>, s: State, l: Label, t: State) returns (tr': seq<Label>)
    requires Reaches(tr, s) && Enabled(s, l) && Next(s, l) == t && (l.Connect? ==> l.role.Both?)
    ensures Reaches(tr', t)
  {
    LeadsSnoc(EMPTY, tr, s, l);
    return tr + [l];
  }

  const S1 := State([NAMED, NewClient(Both)], [Register(0, "x", RLock, None)], map[], Nobody, 0, None)

  lemma Stage1(tr: seq<Label>) returns (tr': seq<Label>)
    requires Reaches(tr, EMPTY)
    ensures Reaches(tr', S1)
  {
    var s0 := State([NewClient(Both)], [], map[], Nobody, 0, None);
    tr' := Go(tr, EMPTY, Connect(Both), s0);
    var s1 := State([NewClient(Both), NewClient(Both)], [], map[], Nobody, 0, None);
    tr' := Go(tr', s0, Connect(Both), s1);
    tr' := Go(tr', s1, StartRegister(0, "x"), S1);
  }

  const S2 := State(
    [NAMED.(stored := true), NewClient(Both)], [Register(0, "x", RUnlock, None)], NAMES, ByOp(0), 0, None)

  lemma Stage2(tr: seq<Label>) returns (tr': seq<Label>)
    requires Reaches(tr, S1)
    ensures Reaches(tr', S2)
  {
    var s0 := State([NAMED, NewClient(Both)], [Register(0, "x", RLookup, None)], map[], ByOp(0), 0, None);
    tr' := Go(tr, S1, StepOp(0, ""), s0);
    var s1 := State([NAMED, NewClient(Both)], [Register(0, "x", RStore, None)], map[], ByOp(0), 0, None);
    tr' := Go(tr', s0, StepOp(0, ""), s1);
    tr' := Go(tr', s1, StepOp(0, ""), S2);
  }

  const S3 := State(
    [NAMED.(stored := true, subLock := ByOp(1)), NewClient(Both)],
    REGISTERED + [Attach(0, 1, ALoad)], NAMES, Nobody, 0, None)

  lemma Stage3(tr: seq<Label>) returns (tr': seq<Label>)
    requires Reaches(tr, S2)
    ensures Reaches(tr', S3)
  {
    var s0 := State([NAMED.(stored := true), NewClient(Both)], REGISTERED, NAMES, Nobody, 0, None);
    tr' := Go(tr, S2, StepOp(0, ""), s0);
    var s1 := State(
      [NAMED.(stored := true), NewClient(Both)],
      REGISTERED + [Attach(0, 1, ALock)], NAMES, Nobody, 0, None);
    tr' := Go(tr', s0, StartAttach(0, 1), s1);
    tr' := Go(tr', s1, StepOp(1, ""), S3);
  }

  const S4 := State([NAMED.(stored := true, subs := {1}), NewClient(Both)], ATTACHED, NAMES, Nobody, 0, None)

  lemma Stage4(tr: seq<Label>) returns (tr': seq<Label>)
    requires Reaches(tr, S3)
    ensures Reaches(tr', S4)
  {
    var s0 := State(
      [NAMED.(stored := true, subLock := ByOp(1)), NewClient(Both)],
      REGISTERED + [Attach(0, 1, AStore)], NAMES, Nobody, 0, None);
    tr' := Go(tr, S3, StepOp(1, ""), s0);
    assert {} + {1} == {1};
    var s1 := State(
      [NAMED.(stored := true, subLock := ByOp(1), subs := {1}), NewClient(Both)],
      REGISTERED + [Attach(0, 1, AUnlock)], NAMES, Nobody, 0, None);
    tr' := Go(tr', s0, StepOp(1, ""), s1);
    tr' := Go(tr', s1, StepOp(1, ""), S4);
  }

  const S5 := State([PARENT, CHILD], SETUP, NAMES, Nobody, 0, None)

  lemma Stage5(tr: seq<Label>) returns (tr': seq<Label>)
    requires Reaches(tr, S4)
    ensures Reaches(tr', S5)
  {
    var s0 := State(
      [NAMED.(stored := true, subs := {1}, room := Joined(2)), NewClient(Both).(room := Joined(2))],
      ATTACHED + [LinkUp(0, 1, LFirst)], NAMES, Nobody, 0, None);
    tr' := Go(tr, S4, StartLink(0, 1), s0);
    var s1 := State(
      [PARENT, NewClient(Both).(room := Joined(2))],
      ATTACHED + [LinkUp(0, 1, LSecond)], NAMES, Nobody, 0, None);
    tr' := Go(tr', s0, StepOp(2, ""), s1);
    tr' := Go(tr', s1, StepOp(2, ""), S5);
  }

  const S6 := State(
    [PARENT.(pc := StoreDisable), CHILD.(retired := true)],
    SETUP + [Closing(Await(0)), Closing(Once(1))], NAMES, Nobody, 0, None)

  lemma Stage6(tr: seq<Label>) returns (tr': seq<Label>)
    requires Reaches(tr, S5)
    ensures Reaches(tr', S6)
  {
    var s0 := State([PARENT, CHILD], SETUP + [Closing(Once(0))], NAMES, Nobody, 0, None);
    tr' := Go(tr, S5, StartClose(0), s0);
    var s1 := State(
      [PARENT, CHILD.(retired := true)],
      SETUP + [Closing(Once(0)), Closing(Once(1))], NAMES, Nobody, 0, None);
    tr' := Go(tr', s0, StartClose(1), s1);
    tr' := Go(tr', s1, StepOp(3, ""), S6);
  }

  const S7 := State([PARENT.(pc := StoreDisable), CHILD_GONE.(pc := ReadLink)], CALLED, NAMES, Nobody, 1, None)

  lemma Stage7(tr: seq<Label>) returns (tr': seq<Label>)
    requires Reaches(tr, S6)
    ensures Reaches(tr', S7)
  {
    var s0 := State(
      [PARENT.(pc := StoreDisable), CHILD.(retired := true, pc := StoreDisable)],
      CALLED, NAMES, Nobody, 0, None);
    tr' := Go(tr, S6, StepOp(4, ""), s0);
    var s1 := State([PARENT.(pc := StoreDisable), CHILD_GONE.(pc := CloseRaw)], CALLED, NAMES, Nobody, 1, None);
    tr' := Go(tr', s0, StepClose(1, 0), s1);
    tr' := Go(tr', s1, StepClose(1, 0), S7);
  }

  const S8 := State([PARENT.(pc := StoreDisable), CHILD_WAITS], CALLED, NAMES, Nobody, 1, None)

  lemma Stage8(tr: seq<Label>) returns (tr': seq<Label>)
    requires Reaches(tr, S7)
    ensures Reaches(tr', S8)
  {
    var s0 := State(
      [PARENT.(pc := StoreDisable), CHILD_GONE.(saw := Some(0), pc := CloseLink(Load(0)))],
      CALLED, NAMES, Nobody, 1, None);
    tr' := Go(tr, S7, StepClose(1, 0), s0);
    var s1 := State(
      [PARENT.(pc := StoreDisable), CHILD_GONE.(saw := Some(0), pc := CloseLink(Once(0)))],
      CALLED, NAMES, Nobody, 1, None);
    tr' := Go(tr', s0, StepClose(1, 0), s1);
    tr' := Go(tr', s1, StepClose(1, 0), S8);
  }

  const S9 := State(
    [PARENT_GONE.(saw := Some(1), pc := CloseLink(Load(1))), CHILD_WAITS],
    CALLED, NAMES, Nobody, 2, None)

  lemma Stage9(tr: seq<Label>) returns (tr': seq<Label>)
    requires Reaches(tr, S8)
    ensures Reaches(tr', S9)
  {
    var s0 := State([PARENT_GONE.(pc := CloseRaw), CHILD_WAITS], CALLED, NAMES, Nobody, 2, None);
    tr' := Go(tr, S8, StepClose(0, 0), s0);
    var s1 := State([PARENT_GONE.(pc := ReadLink), CHILD_WAITS], CALLED, NAMES, Nobody, 2, None);
    tr' := Go(tr', s0, StepClose(0, 0), s1);
    tr' := Go(tr', s1, StepClose(0, 0), S9);
  }

  const S10 := State([PARENT_PAST_LINK.(pc := CloseSub(Once(1))), CHILD_WAITS], CALLED, NAMES, Nobody, 2, None)

  lemma Stage10(tr: seq<Label>) returns (tr': seq<Label>)
    requires Reaches(tr, S9)
    ensures Reaches(tr', S10)
  {
    var s0 := State([PARENT_GONE.(saw := Some(1), pc := LockSubs), CHILD_WAITS], CALLED, NAMES, Nobody, 2, None);
    tr' := Go(tr, S9, StepClose(0, 0), s0);
    var s1 := State([PARENT_PAST_LINK.(pc := RangeSubs), CHILD_WAITS], CALLED, NAMES, Nobody, 2, None);
    tr' := Go(tr', s0, StepClose(0, 0), s1);
    tr' := Go(tr', s1, StepClose(0, 1), S10);
  }

  lemma Stage11(tr: seq<Label>) returns (tr': seq<Label>)
    requires Reaches(tr, S10)
    ensures Reaches(tr', STUCK)
  {
    tr' := Go(tr, S10, StepClose(0, 0), STUCK);
  }

  lemma StuckIsStuck()
    ensures !Quiet(STUCK) && !CanStep(STUCK)
  {
    assert Active(STUCK.clients[0]);
    forall x: nat, pick: nat ensures !CloseEnabled(STUCK, x, pick) {
      if x == 0 {} else if x == 1 {}
    }
    forall i: nat, pick ensures !OpEnabled(STUCK, i, pick) {
      if i == 0 {} else if i == 1 {} else if i == 2 {} else if i == 3 {} else if i == 4 {}
    }
  }

  ghost predicate DeadlockFree(roles: set<Role>) {
    forall trace, t :: Leads(EMPTY, trace, t) && Uses(trace, roles) ==> Quiet(t) || CanStep(t)
  }

  lemma BothCanDeadlock() returns (tr: seq<Label>)
    ensures Leads(EMPTY, tr, STUCK) && Uses(tr, {Both})
  {
    hide Leads, Uses, Next, Enabled;
    tr := [];
    LeadsNowhere();
    tr := Stage1(tr);
    tr := Stage2(tr);
    tr := Stage3(tr);
    tr := Stage4(tr);
    tr := Stage5(tr);
    tr := Stage6(tr);
    tr := Stage7(tr);
    tr := Stage8(tr);
    tr := Stage9(tr);
    tr := Stage10(tr);
    tr := Stage11(tr);
    ReachesLeads(tr, STUCK);
  }

  lemma ReachesLeads(tr: seq<Label>, s: State)
    requires Reaches(tr, s)
    ensures Leads(EMPTY, tr, s) && Uses(tr, {Both})
  {
  }

  /** Closing is free of deadlocks, under every schedule, exactly when no connection both
      registers (so that subs attach to it) and joins a room itself. */
  lemma DeadlockFreeExactlyWhenConforming(roles: set<Role>)
    ensures DeadlockFree(roles) <==> Both !in roles
  {
    if Both in roles {
      var tr := BothCanDeadlock();
      StuckIsStuck();
      assert Uses(tr, roles);
      assert !DeadlockFree(roles);
    } else {
      forall trace, t | Leads(EMPTY, trace, t) && Uses(trace, roles) ensures Quiet(t) || CanStep(t) {
        assert Conforming(trace);
        if !Quiet(t) { NoDeadlock(trace, t); }
      }
    }
  }
}
