/** The races of linking: whether each joiner's TaskA comes first on its wire, and whether linkBox is set
    when the first joiner's handler uses it. */
module LinkTheorems {
  import opened Bytes
  import opened Codec
  import opened LinkSwitch

  /** Relay order to the first joiner: once anything from the second joiner's client is on its wire,
      reading the wire gives its TaskA first, and then exactly the relayed bytes, a prefix of what
      that client sent. */
  lemma TaskBeforeRelay<M(!new)>(k: Suite<M>, nonce: nat, m: M, two: seq<seq<byte>>, trace: seq<Label>, t: State)
    requires Valid(k) && Fits(k, m) && Leads(Tasks(Encode(k, nonce, m), two), trace, t)
    ensures t.relayed1 != [] ==>
      var r := ParseMsg(k, t.wire1, None);
      r.outcome == Msg(m) && t.wire1[r.used..] == t.relayed1 <= t.sent2
    ensures t.relayed1 == [] ==> t.wire1 <= Flatten(Encode(k, nonce, m))
  {
    hide ParseMsg, Encode;
    var ts := Tasks(Encode(k, nonce, m), two);
    InvHolds(ts, trace, t);
    if t.relayed1 != [] { MessageRoundTrip(k, nonce, m, t.relayed1, None); }
  }

  // ---- Where the second joiner's TaskA comes on its wire -----------------------------------------

  /** The first joiner's handler relays before the second joiner's goroutine locks that wire for its TaskA. */
  predicate RelaysEarly(trace: seq<Label>) {
    trace != [] &&
    var n := |trace| - 1;
    RelaysEarly(trace[..n]) || (trace[n].Relay2? && LockTask2 !in trace[..n])
  }

  predicate Locked2(st: State) {
    st.b.Task2? || st.b.OwnTop? || st.b.OwnRelay? || st.b.OwnNil?
  }

  predicate EarlyInv(trace: seq<Label>, st: State) {
    && (LockTask2 in trace <==> Locked2(st))
    && (RelaysEarly(trace) <==> (if Locked2(st) then st.early2 else st.relayed2) != [])
  }

  lemma EarlySnoc(trace: seq<Label>, l: Label)
    ensures LockTask2 in trace + [l] <==> LockTask2 in trace || l == LockTask2
    ensures RelaysEarly(trace + [l]) <==> RelaysEarly(trace) || (l.Relay2? && LockTask2 !in trace)
  {
    assert (trace + [l])[..|trace|] == trace;
  }

  /** What the step does to the lock of the second wire and to the bytes in front of the TaskA. */
  lemma EarlyBytes(ts: Tasks, st: State, l: Label)
    requires Enabled(st, l)
    ensures Locked2(Next(ts, st, l)) <==> Locked2(st) || l == LockTask2
    ensures Locked2(st) ==> Next(ts, st, l).early2 == st.early2
    ensures l == LockTask2 ==> !Locked2(st) && Next(ts, st, l).early2 == st.relayed2
    ensures !l.Relay2? ==> Next(ts, st, l).relayed2 == st.relayed2
    ensures l.Relay2? ==> Next(ts, st, l).relayed2 != []
  {
  }

  lemma EarlyStep(ts: Tasks, trace: seq<Label>, st: State, l: Label)
    requires EarlyInv(trace, st) && Enabled(st, l)
    ensures EarlyInv(trace + [l], Next(ts, st, l))
  {
    EarlySnoc(trace, l);
    EarlyBytes(ts, st, l);
    hide RelaysEarly, Next, Enabled, Locked2;
  }

  lemma {:induction false} EarlyRuns(ts: Tasks, before: seq<Label>, st: State, trace: seq<Label>, t: State)
    requires EarlyInv(before, st) && Runs(ts, st, trace, t)
    ensures EarlyInv(before + trace, t)
    decreases |trace|
  {
    hide Next, Enabled, EarlyInv;
    if trace == [] {
      assert before + [] == before;
    } else {
      EarlyStep(ts, before, st, trace[0]);
      EarlyRuns(ts, before + [trace[0]], Next(ts, st, trace[0]), trace[1..], t);
      assert (before + [trace[0]]) + trace[1..] == before + trace;
    }
  }

  lemma EarlyHolds(ts: Tasks, trace: seq<Label>, t: State)
    requires Leads(ts, trace, t)
    ensures EarlyInv(trace, t)
  {
    EarlyInit([]);
    hide Runs, EarlyInv;
    EarlyRuns(ts, [], INIT, trace, t);
    assert [] + trace == trace;
  }

  lemma EarlyInit(trace: seq<Label>)
    requires trace == []
    ensures EarlyInv(trace, INIT)
  {
  }

  /** Once the second joiner's TaskA is out, relayed bytes are in front of it exactly on the schedules where
      the first joiner's handler relays before the TaskA's lock. Otherwise reading the wire gives the TaskA
      first, and then exactly the relayed bytes. */
  lemma SecondTaskFirstExactly<M(!new)>(k: Suite<M>, one: seq<seq<byte>>, nonce: nat, m: M, trace: seq<Label>, t: State)
    requires Valid(k) && Fits(k, m) && Leads(Tasks(one, Encode(k, nonce, m)), trace, t)
    requires t.b.OwnTop? || t.b.OwnRelay?
    ensures t.early2 <= t.relayed2
    ensures t.wire2 == t.early2 + Flatten(Encode(k, nonce, m)) + t.relayed2[|t.early2|..]
    ensures t.early2 == [] <==> !RelaysEarly(trace)
    ensures !RelaysEarly(trace) ==>
      var r := ParseMsg(k, t.wire2, None);
      r.outcome == Msg(m) && t.wire2[r.used..] == t.relayed2 <= t.sent1
  {
    hide ParseMsg, Encode;
    var ts := Tasks(one, Encode(k, nonce, m));
    InvHolds(ts, trace, t);
    EarlyHolds(ts, trace, t);
    hide Leads, RelaysEarly;
    if t.early2 == [] {
      assert t.relayed2[0..] == t.relayed2 && [] + Flatten(ts.two) == Flatten(ts.two);
      MessageRoundTrip(k, nonce, m, t.relayed2, None);
    }
  }

  /** That happens, whatever the two TaskAs are and whatever the first joiner's client sends. */
  lemma RelayBeforeTask<M(!new)>(k: Suite<M>, n1: nat, m1: M, n2: nat, m2: M, x: seq<byte>)
    requires Valid(k) && Fits(k, m1) && Fits(k, m2) && x != []
    ensures exists trace, t ::
      && Leads(Tasks(Encode(k, n1, m1), Encode(k, n2, m2)), trace, t)
      && t.b.OwnTop? && t.wire2 == x + Flatten(Encode(k, n2, m2))
  {
    hide *;
    var trace, t := RelayEarly(Tasks(Encode(k, n1, m1), Encode(k, n2, m2)), x);
  }

  lemma RelayEarly(ts: Tasks, x: seq<byte>) returns (trace: seq<Label>, t: State)
    requires x != []
    ensures Leads(ts, trace, t) && t.b.OwnTop? && t.wire2 == x + Flatten(ts.two)
  {
    hide Runs, Flatten;
    trace := PreludeLeads(ts);
    trace := WriteOne(ts, INIT, Linked(ts), trace);
    var s0 := Linked(ts).(wire1 := [] + Flatten(ts.one), b := Task1([]));
    trace := RelayThenLock(ts, s0, trace, x);
    var s1 := s0.(sent1 := x, relayed2 := x, wire2 := x, early2 := x, lock2 := true, b := Task2(ts.two));
    trace := WriteTwo(ts, INIT, s1, trace);
    trace, t := Unlocked(ts, s1.(wire2 := x + Flatten(ts.two), b := Task2([])), trace);
  }

  lemma Unlocked(ts: Tasks, st: State, trace: seq<Label>) returns (more: seq<Label>, t: State)
    requires st.b == Task2([]) && Leads(ts, trace, st)
    ensures Leads(ts, more, t) && t.b.OwnTop? && t.wire2 == st.wire2
  {
    hide Runs;
    Snoc(ts, INIT, trace, st, UnlockTask2);
    more, t := trace + [UnlockTask2], st.(lock2 := false, b := OwnTop);
  }

  lemma RelayThenLock(ts: Tasks, st: State, trace: seq<Label>, x: seq<byte>) returns (more: seq<Label>)
    requires x != [] && Leads(ts, trace, st) && st.a.Relaying? && st.b == Task1([]) && !st.lock2
    requires st.in1 == st.sent1 == st.relayed2 == st.wire2 == []
    ensures Leads(ts, more, st.(sent1 := x, relayed2 := x, wire2 := x, early2 := x, lock2 := true, b := Task2(ts.two)))
  {
    hide Runs, Turns;
    var s1 := st.(in1 := x, sent1 := x);
    assert [] + x == x;
    Snoc(ts, INIT, trace, st, Client1(x));
    more := RelayAll2(ts, s1);
    Concat(ts, INIT, trace + [Client1(x)], s1, more, Relayed2(s1));
    more := trace + [Client1(x)] + more;
    Snoc(ts, INIT, more, Relayed2(s1), LockTask2);
    more := more + [LockTask2];
  }

  /** Writing the frames that are left. */
  lemma {:induction false} WriteOne(ts: Tasks, from: State, st: State, trace: seq<Label>) returns (more: seq<Label>)
    requires st.b.Task1? && Runs(ts, from, trace, st)
    ensures Runs(ts, from, more, st.(wire1 := st.wire1 + Flatten(st.b.left), b := Task1([])))
    decreases |st.b.left|
  {
    hide Runs;
    if st.b.left == [] {
      more := trace;
      assert st.wire1 + Flatten([]) == st.wire1;
    } else {
      var n := st.(wire1 := st.wire1 + st.b.left[0], b := Task1(st.b.left[1..]));
      Snoc(ts, from, trace, st, WriteTask1);
      more := WriteOne(ts, from, n, trace + [WriteTask1]);
      Assoc(st.wire1, st.b.left[0], Flatten(st.b.left[1..]));
    }
  }

  lemma {:induction false} WriteTwo(ts: Tasks, from: State, st: State, trace: seq<Label>) returns (more: seq<Label>)
    requires st.b.Task2? && Runs(ts, from, trace, st)
    ensures Runs(ts, from, more, st.(wire2 := st.wire2 + Flatten(st.b.left), b := Task2([])))
    decreases |st.b.left|
  {
    hide Runs;
    if st.b.left == [] {
      more := trace;
      assert st.wire2 + Flatten([]) == st.wire2;
    } else {
      var n := st.(wire2 := st.wire2 + st.b.left[0], b := Task2(st.b.left[1..]));
      Snoc(ts, from, trace, st, WriteTask2);
      more := WriteTwo(ts, from, n, trace + [WriteTask2]);
      Assoc(st.wire2, st.b.left[0], Flatten(st.b.left[1..]));
    }
  }

  lemma {:induction false} Snoc(ts: Tasks, st: State, trace: seq<Label>, t: State, l: Label)
    requires Runs(ts, st, trace, t) && Enabled(t, l)
    ensures Runs(ts, st, trace + [l], Next(ts, t, l))
    decreases |trace|
  {
    hide Next, Enabled;
    if trace == [] {
      assert (trace + [l])[1..] == [];
    } else {
      assert (trace + [l])[1..] == trace[1..] + [l];
      Snoc(ts, Next(ts, st, trace[0]), trace[1..], t, l);
    }
  }

  lemma {:induction false} Concat(ts: Tasks, st: State, trace: seq<Label>, t: State, more: seq<Label>, u: State)
    requires Runs(ts, st, trace, t) && Runs(ts, t, more, u)
    ensures Runs(ts, st, trace + more, u)
    decreases |trace|
  {
    hide Next, Enabled;
    if trace == [] {
      assert trace + more == more;
    } else {
      assert (trace + more)[1..] == trace[1..] + more;
      Concat(ts, Next(ts, st, trace[0]), trace[1..], t, more, u);
    }
  }

  /** Both ends set up, the first joiner's handler relaying, neither TaskA begun. */
  function Linked(ts: Tasks): State {
    INIT.(a := Relaying, b := Task1(ts.one), switch1 := true, box1 := true, switch2 := true, box2 := true)
  }

  lemma PreludeLeads(ts: Tasks) returns (pre: seq<Label>)
    ensures Leads(ts, pre, Linked(ts))
  {
    hide Runs;
    Start(ts, INIT);
    Snoc(ts, INIT, [], INIT, StoreSwitch1);
    var s1 := INIT.(switch1 := true, b := Box1);
    pre := [] + [StoreSwitch1];
    Snoc(ts, INIT, pre, s1, StoreBox1);
    var s2 := s1.(box1 := true, b := Switch2);
    pre := pre + [StoreBox1];
    Snoc(ts, INIT, pre, s2, LoadTop);
    var s3 := s2.(a := Entering);
    pre := pre + [LoadTop];
    Snoc(ts, INIT, pre, s3, LoadBox);
    var s4 := s3.(a := Relaying);
    pre := pre + [LoadBox];
    Snoc(ts, INIT, pre, s4, StoreSwitch2);
    var s5 := s4.(switch2 := true, b := Box2);
    pre := pre + [StoreSwitch2];
    Snoc(ts, INIT, pre, s5, StoreBox2);
    pre := pre + [StoreBox2];
  }

  lemma Start(ts: Tasks, st: State)
    ensures Runs(ts, st, [], st)
  {
  }

  // ---- From which states relayed bytes can still get in front of the TaskA -----------------------

  /** The handler that uses linkBox has relayed nothing before it relays. */
  predicate RelayedInv(st: State) {
    st.relayed2 != [] ==> st.a.Relaying?
  }

  lemma RelayedStep(ts: Tasks, st: State, l: Label)
    requires RelayedInv(st) && Enabled(st, l)
    ensures RelayedInv(Next(ts, st, l))
  {
  }

  lemma {:induction false} RelayedRuns(ts: Tasks, st: State, trace: seq<Label>, t: State)
    requires RelayedInv(st) && Runs(ts, st, trace, t)
    ensures RelayedInv(t)
    decreases |trace|
  {
    hide Next, Enabled, RelayedInv;
    if trace != [] {
      RelayedStep(ts, st, trace[0]);
      RelayedRuns(ts, Next(ts, st, trace[0]), trace[1..], t);
    }
  }

  /** Nothing is in front of the TaskA, and nothing can get there. */
  predicate NeverEarly(st: State) {
    if Locked2(st) then st.early2 == [] else st.a.Nil? && st.relayed2 == []
  }

  lemma NeverEarlyStep(ts: Tasks, st: State, l: Label)
    requires NeverEarly(st) && Enabled(st, l)
    ensures NeverEarly(Next(ts, st, l))
  {
    EarlyBytes(ts, st, l);
    assert st.a.Nil? ==> Next(ts, st, l).a.Nil? && !l.Relay2?;
    hide Next, Locked2;
  }

  lemma {:induction false} NeverEarlyRuns(ts: Tasks, st: State, trace: seq<Label>, t: State)
    requires NeverEarly(st) && Runs(ts, st, trace, t)
    ensures NeverEarly(t)
    decreases |trace|
  {
    hide Next, Enabled, NeverEarly;
    if trace != [] {
      NeverEarlyStep(ts, st, trace[0]);
      NeverEarlyRuns(ts, Next(ts, st, trace[0]), trace[1..], t);
    }
  }

  /** The second joiner's goroutine can go on to where it locks the second wire, whatever the first joiner's
      handler is doing. */
  lemma SecondReady(ts: Tasks, st: State) returns (more: seq<Label>, t: State)
    requires StageInv(st) && !Locked2(st)
    ensures Runs(ts, st, more, t) && t.b == Task1([]) && t.a == st.a && !t.lock2
    ensures t.switch1 && t.box1 && t.switch2 && t.box2
  {
    hide Runs, Flatten;
    Start(ts, st);
    more, t := [], st;
    if t.b.Switch1? {
      Snoc(ts, st, more, t, StoreSwitch1);
      more, t := more + [StoreSwitch1], t.(switch1 := true, b := Box1);
    }
    if t.b.Box1? {
      Snoc(ts, st, more, t, StoreBox1);
      more, t := more + [StoreBox1], t.(box1 := true, b := Switch2);
    }
    if t.b.Switch2? {
      Snoc(ts, st, more, t, StoreSwitch2);
      more, t := more + [StoreSwitch2], t.(switch2 := true, b := Box2);
    }
    if t.b.Box2? {
      Snoc(ts, st, more, t, StoreBox2);
      more, t := more + [StoreBox2], t.(box2 := true, b := Task1(ts.one));
    }
    more := WriteOne(ts, st, t, more);
    t := t.(wire1 := t.wire1 + Flatten(t.b.left), b := Task1([]));
  }

  /** Then the first one's handler can get to relaying, with something to relay, unless it used a nil linkBox. */
  lemma FirstRelays(ts: Tasks, st: State) returns (more: seq<Label>, t: State)
    requires Informed1(st) && st.switch1 && st.box1 && !st.a.Nil? && !st.a.Parsing?
    ensures Runs(ts, st, more, t) && t.a.Relaying? && t.in1 != [] && t.b == st.b && t.lock2 == st.lock2
  {
    hide Runs;
    Start(ts, st);
    Snoc(ts, st, [], st, Client1([0]));
    more, t := [] + [Client1([0])], st.(in1 := st.in1 + [0], sent1 := st.sent1 + [0]);
    if t.a.Reading? {
      Snoc(ts, st, more, t, LoadSkip);
      more, t := more + [LoadSkip], t.(a := Top);
    }
    if t.a.Top? {
      Snoc(ts, st, more, t, LoadTop);
      more, t := more + [LoadTop], t.(a := Entering);
    }
    if t.a.Entering? {
      Snoc(ts, st, more, t, LoadBox);
      more, t := more + [LoadBox], t.(a := Relaying);
    }
  }

  lemma ReachesEarly(ts: Tasks, st: State) returns (more: seq<Label>, t: State)
    requires StageInv(st) && !Locked2(st) && !st.a.Nil?
    ensures Runs(ts, st, more, t) && Locked2(t) && t.early2 != []
  {
    hide Runs;
    var first, ready := SecondReady(ts, st);
    var second, relaying := FirstRelays(ts, ready);
    Concat(ts, st, first, ready, second, relaying);
    more := first + second;
    var one := Next(ts, relaying, Relay2(1));
    Snoc(ts, st, more, relaying, Relay2(1));
    more := more + [Relay2(1)];
    Snoc(ts, st, more, one, LockTask2);
    more, t := more + [LockTask2], Next(ts, one, LockTask2);
  }

  /** From every reachable state: some continuation puts relayed bytes in front of the second joiner's TaskA
      (or they are there) if and only if the TaskA's lock has still to be taken and the first joiner's
      handler has not used a nil linkBox. */
  lemma RelayedEarlyExactly(ts: Tasks, trace: seq<Label>, st: State)
    requires Leads(ts, trace, st)
    ensures (exists more, t :: Runs(ts, st, more, t) && Locked2(t) && t.early2 != [])
      <==> if Locked2(st) then st.early2 != [] else !st.a.Nil?
  {
    InvHolds(ts, trace, st);
    RelayedRuns(ts, INIT, trace, st);
    Start(ts, st);
    hide Runs, Leads;
    if Locked2(st) && st.early2 != [] {
      assert Runs(ts, st, [], st);
    } else if !Locked2(st) && !st.a.Nil? {
      var more, t := ReachesEarly(ts, st);
    } else {
      assert NeverEarly(st);
      forall more, t | Runs(ts, st, more, t) ensures NeverEarly(t) { NeverEarlyRuns(ts, st, more, t); }
    }
  }

  // ---- Everything gets through ---------------------------------------------------------------------

  /** The second joiner's goroutine can go on to its relay. */
  lemma SecondRelays(ts: Tasks, st: State) returns (more: seq<Label>, t: State)
    requires StageInv(st)
    ensures Runs(ts, st, more, t) && t.b.OwnRelay? && t.a == st.a && t.switch1 && t.box1
    ensures !st.b.OwnRelay? ==> !t.lock2
  {
    hide Runs, Flatten;
    Start(ts, st);
    more, t := [], st;
    if !Locked2(st) {
      more, t := SecondReady(ts, st);
      Snoc(ts, st, more, t, LockTask2);
      more, t := more + [LockTask2], t.(lock2 := true, early2 := t.relayed2, b := Task2(ts.two));
    }
    if t.b.Task2? {
      more := WriteTwo(ts, st, t, more);
      t := t.(wire2 := t.wire2 + Flatten(t.b.left), b := Task2([]));
      Snoc(ts, st, more, t, UnlockTask2);
      more, t := more + [UnlockTask2], t.(lock2 := false, b := OwnTop);
    }
    if t.b.OwnTop? {
      Snoc(ts, st, more, t, LoadOwn);
      more, t := more + [LoadOwn], t.(b := OwnRelay);
    }
  }

  /** From every reachable state in which the first joiner's handler has not used a nil linkBox, some
      continuation relays everything that has been sent, both ways: the first wire is its TaskA and all that
      the second client sent, the second one its TaskA among all that the first client sent. */
  lemma EverythingGetsThrough(ts: Tasks, trace: seq<Label>, st: State) returns (more: seq<Label>, t: State)
    requires Leads(ts, trace, st) && !st.a.Nil?
    ensures Runs(ts, st, more, t) && t.in1 == [] && t.in2 == []
    ensures t.wire1 == Flatten(ts.one) + t.sent2
    ensures t.early2 <= t.sent1 && t.wire2 == t.early2 + Flatten(ts.two) + t.sent1[|t.early2|..]
  {
    InvHolds(ts, trace, st);
    hide Runs, Relayed1, Relayed2, Turns;
    var first, s1 := SecondRelays(ts, st);
    InvRuns(ts, st, first, s1);
    var second, s2 := FirstRelays(ts, s1);
    Concat(ts, st, first, s1, second, s2);
    var m2 := RelayAll2(ts, s2);
    Concat(ts, st, first + second, s2, m2, Relayed2(s2));
    var m1 := RelayAll1(ts, Relayed2(s2));
    more, t := first + second + m2 + m1, Relayed1(Relayed2(s2));
    Concat(ts, st, first + second + m2, Relayed2(s2), m1, t);
    InvRuns(ts, st, more, t);
    AllRelayed(ts, t, s2);
  }

  lemma AllRelayed(ts: Tasks, t: State, s2: State)
    requires t == Relayed1(Relayed2(s2)) && s2.b.OwnRelay? && Inv(ts, t)
    ensures t.in1 == [] && t.in2 == [] && t.wire1 == Flatten(ts.one) + t.sent2
    ensures t.early2 <= t.sent1 && t.wire2 == t.early2 + Flatten(ts.two) + t.sent1[|t.early2|..]
  {
    hide Flatten;
    assert t.relayed1 + [] == t.relayed1 && t.relayed2 + [] == t.relayed2;
  }

  // ---- Is linkBox set when it is used? -----------------------------------------------------------

  /** The handler can still get to linkBox before it is set: it is not set, and the handler has still to load
      the switch at the top of its loop, or has just found it set. */
  predicate Exposed(st: State) {
    !st.box1 && (st.a.Top? || st.a.Entering?)
  }

  lemma SafeStep(ts: Tasks, st: State, l: Label)
    requires StageInv(st) && FlowInv(st) && Enabled(st, l) && !Exposed(st) && !st.a.Nil?
    ensures !Exposed(Next(ts, st, l)) && !Next(ts, st, l).a.Nil?
  {
  }

  lemma {:induction false} SafeRuns(ts: Tasks, st: State, trace: seq<Label>, t: State)
    requires Inv(ts, st) && Runs(ts, st, trace, t) && !Exposed(st) && !st.a.Nil?
    ensures !Exposed(t) && !t.a.Nil?
    decreases |trace|
  {
    if trace != [] {
      var n := Next(ts, st, trace[0]);
      SafeStep(ts, st, trace[0]);
      assert Runs(ts, st, [trace[0]], n);
      hide Next, Enabled, Inv, Exposed;
      InvRuns(ts, st, [trace[0]], n);
      SafeRuns(ts, n, trace[1..], t);
    }
  }

  /** An exposed handler can be run into the nil linkBox. */
  lemma ExposedReachesNil(ts: Tasks, st: State) returns (trace: seq<Label>, t: State)
    requires StageInv(st) && Exposed(st)
    ensures Runs(ts, st, trace, t) && t.a.Nil?
  {
    hide Runs;
    Start(ts, st);
    trace, t := [], st;
    if t.b.Switch1? {
      Snoc(ts, st, trace, t, StoreSwitch1);
      trace, t := trace + [StoreSwitch1], t.(switch1 := true, b := Box1);
    }
    if t.a.Top? {
      Snoc(ts, st, trace, t, LoadTop);
      trace, t := trace + [LoadTop], t.(a := Entering);
    }
    Snoc(ts, st, trace, t, LoadBox);
    trace, t := trace + [LoadBox], t.(a := Nil);
  }

  /** From every reachable state: some continuation makes `writeLinkConn` use a nil linkBox (or one has) if
      and only if linkBox is not set and the first joiner's handler is at the top of its loop or past a
      load that found the switch set. A handler that waits for bytes by then is safe, however long it
      waits, and so is everyone once linkBox is set. */
  lemma NilLinkBoxExactly(ts: Tasks, trace: seq<Label>, st: State)
    requires Leads(ts, trace, st)
    ensures (exists more, t :: Runs(ts, st, more, t) && t.a.Nil?)
      <==> st.a.Nil? || (!st.box1 && (st.a.Top? || st.a.Entering?))
  {
    InvHolds(ts, trace, st);
    Start(ts, st);
    hide Runs, Leads;
    if st.a.Nil? {
      assert Runs(ts, st, [], st);
    } else if Exposed(st) {
      var more, t := ExposedReachesNil(ts, st);
    } else {
      forall more, t | Runs(ts, st, more, t) ensures !t.a.Nil? { SafeRuns(ts, st, more, t); }
    }
  }

  /** So it happens: at the start, nothing is set yet. */
  lemma NilLinkBoxHappens(ts: Tasks)
    ensures exists trace, t :: Leads(ts, trace, t) && t.a.Nil?
  {
    Start(ts, INIT);
    hide Runs;
    NilLinkBoxExactly(ts, [], INIT);
    var trace, t :| Runs(ts, INIT, trace, t) && t.a.Nil?;
    assert Leads(ts, trace, t);
  }
}
