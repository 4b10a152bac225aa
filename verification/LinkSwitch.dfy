/** The moment two connections are linked: the second joiner's goroutine in `joinTaskRoom` against the
    first joiner's `tcpHandler`, store by store and load by load. The first joiner's client is silent
    until it has its whole TaskA; the second one's may send at any time. */
module LinkSwitch {
  import opened Bytes
  import Codec

  /** The first joiner's handler, from its return out of `joinTaskRoom`. Parsing: it takes relay
      bytes for a message. Nil: it has used a linkBox not yet set. */
  datatype First = Top | Entering | Reading | Parsing | Relaying | Nil

  /** The second joiner's goroutine: what it does next. Task(left): frames of a TaskA still to write. */
  datatype Second = Switch1 | Box1 | Switch2 | Box2 | Task1(left: seq<seq<byte>>) | Task2(left: seq<seq<byte>>)
                  | OwnTop | OwnRelay | OwnNil

  /** in1, in2: bytes that arrived and are not yet relayed; sent, relayed and early2 (relayed to the
      second joiner before its TaskA) are history. lock2 is the second joiner's write lock. */
  datatype State = State(
    a: First, b: Second, switch1: bool, box1: bool, switch2: bool, box2: bool, lock2: bool,
    in1: seq<byte>, in2: seq<byte>, wire1: seq<byte>, wire2: seq<byte>,
    sent1: seq<byte>, sent2: seq<byte>, relayed1: seq<byte>, relayed2: seq<byte>, early2: seq<byte>)

  datatype Label = StoreSwitch1 | StoreBox1 | StoreSwitch2 | StoreBox2
                 | WriteTask1 | LockTask2 | WriteTask2 | UnlockTask2 | LoadOwn | Relay1(n: nat)
                 | LoadTop | LoadBox | LoadSkip | Relay2(n: nat)
                 | Client1(x: seq<byte>) | Client2(x: seq<byte>)

  datatype Tasks = Tasks(one: seq<seq<byte>>, two: seq<seq<byte>>)

  /** What a relaying goroutine reads at once, at most. */
  const BUFFER := Codec.BUFFER_SIZE

  const INIT := State(Top, Switch1, false, false, false, false, false, [], [], [], [], [], [], [], [], [])

  /** The first joiner's TaskA is wholly on its wire. */
  predicate Informed1(st: State) {
    st.b == Task1([]) || st.b.Task2? || st.b.OwnTop? || st.b.OwnRelay? || st.b.OwnNil?
  }

  predicate Enabled(st: State, l: Label) {
    match l
    case StoreSwitch1 => st.b.Switch1?
    case StoreBox1 => st.b.Box1?
    case StoreSwitch2 => st.b.Switch2?
    case StoreBox2 => st.b.Box2?
    case WriteTask1 => st.b.Task1? && st.b.left != []
    case LockTask2 => st.b == Task1([]) && !st.lock2
    case WriteTask2 => st.b.Task2? && st.b.left != []
    case UnlockTask2 => st.b == Task2([])
    case LoadOwn => st.b.OwnTop?
    case Relay1(n) => st.b.OwnRelay? && 0 < n <= |st.in2| && n <= BUFFER
    case LoadTop => st.a.Top?
    case LoadBox => st.a.Entering?
    case LoadSkip => st.a.Reading? && st.in1 != []
    case Relay2(n) => st.a.Relaying? && 0 < n <= |st.in1| && n <= BUFFER && !st.lock2
    case Client1(x) => Informed1(st)
    case Client2(x) => true
  }

  function Next(ts: Tasks, st: State, l: Label): State
    requires Enabled(st, l)
  {
    match l
    case StoreSwitch1 => st.(switch1 := true, b := Box1)
    case StoreBox1 => st.(box1 := true, b := Switch2)
    case StoreSwitch2 => st.(switch2 := true, b := Box2)
    case StoreBox2 => st.(box2 := true, b := Task1(ts.one))
    case WriteTask1 => st.(wire1 := st.wire1 + st.b.left[0], b := Task1(st.b.left[1..]))
    case LockTask2 => st.(lock2 := true, early2 := st.relayed2, b := Task2(ts.two))
    case WriteTask2 => st.(wire2 := st.wire2 + st.b.left[0], b := Task2(st.b.left[1..]))
    case UnlockTask2 => st.(lock2 := false, b := OwnTop)
    case LoadOwn => st.(b := if st.switch2 && st.box2 then OwnRelay else OwnNil)
    case Relay1(n) =>
      st.(wire1 := st.wire1 + st.in2[..n], relayed1 := st.relayed1 + st.in2[..n], in2 := st.in2[n..])
    case LoadTop => st.(a := if st.switch1 then Entering else Reading)
    case LoadBox => st.(a := if st.box1 then Relaying else Nil)
    case LoadSkip => st.(a := if st.switch1 then Top else Parsing)
    case Relay2(n) =>
      st.(wire2 := st.wire2 + st.in1[..n], relayed2 := st.relayed2 + st.in1[..n], in1 := st.in1[n..])
    case Client1(x) => st.(in1 := st.in1 + x, sent1 := st.sent1 + x)
    case Client2(x) => st.(in2 := st.in2 + x, sent2 := st.sent2 + x)
  }

  /** The schedule `trace`, from st, leads to t. */
  predicate Runs(ts: Tasks, st: State, trace: seq<Label>, t: State)
    decreases |trace|
  {
    if trace == [] then t == st
    else Enabled(st, trace[0]) && Runs(ts, Next(ts, st, trace[0]), trace[1..], t)
  }

  predicate Leads(ts: Tasks, trace: seq<Label>, t: State) {
    Runs(ts, INIT, trace, t)
  }

  // ---- What reaches the wires ----------------------------------------------------------------

  predicate StageInv(st: State) {
    && (st.switch1 <==> !st.b.Switch1?)
    && (st.box1 <==> !(st.b.Switch1? || st.b.Box1?))
    && (st.switch2 <==> !(st.b.Switch1? || st.b.Box1? || st.b.Switch2?))
    && (st.box2 <==> !(st.b.Switch1? || st.b.Box1? || st.b.Switch2? || st.b.Box2?))
    && (st.lock2 <==> st.b.Task2?)
    && (st.sent1 != [] ==> Informed1(st))
    && !st.a.Parsing? && !st.b.OwnNil?
  }

  predicate FlowInv(st: State) {
    && st.relayed1 + st.in2 == st.sent2
    && st.relayed2 + st.in1 == st.sent1
  }

  predicate Wire1Inv(ts: Tasks, st: State) {
    && (!st.b.OwnRelay? ==> st.relayed1 == [])
    && match st.b
       case Task1(left) => st.wire1 + Flatten(left) == Flatten(ts.one)
       case Switch1 => st.wire1 == []
       case Box1 => st.wire1 == []
       case Switch2 => st.wire1 == []
       case Box2 => st.wire1 == []
       case _ => st.wire1 == Flatten(ts.one) + st.relayed1
  }

  predicate Wire2Inv(ts: Tasks, st: State) {
    match st.b
    case Task2(left) => st.relayed2 == st.early2 && st.wire2 + Flatten(left) == st.early2 + Flatten(ts.two)
    case OwnTop => Around(ts, st)
    case OwnRelay => Around(ts, st)
    case OwnNil => Around(ts, st)
    case _ => st.wire2 == st.relayed2
  }

  /** The second joiner's wire: its TaskA whole, somewhere among the relayed bytes. */
  predicate Around(ts: Tasks, st: State) {
    st.early2 <= st.relayed2 && st.wire2 == st.early2 + Flatten(ts.two) + st.relayed2[|st.early2|..]
  }

  predicate Inv(ts: Tasks, st: State) {
    StageInv(st) && FlowInv(st) && Wire1Inv(ts, st) && Wire2Inv(ts, st)
  }

  lemma StageStep(ts: Tasks, st: State, l: Label)
    requires StageInv(st) && FlowInv(st) && Enabled(st, l)
    ensures StageInv(Next(ts, st, l))
  {
  }

  lemma FlowStep(ts: Tasks, st: State, l: Label)
    requires FlowInv(st) && Enabled(st, l)
    ensures FlowInv(Next(ts, st, l))
  {
    match l
    case Relay1(n) => assert st.in2 == st.in2[..n] + st.in2[n..];
    case Relay2(n) => assert st.in1 == st.in1[..n] + st.in1[n..];
    case _ =>
  }

  lemma Wire1Step(ts: Tasks, st: State, l: Label)
    requires Wire1Inv(ts, st) && Enabled(st, l)
    ensures Wire1Inv(ts, Next(ts, st, l))
  {
    match l
    case WriteTask1 =>
      Assoc(st.wire1, st.b.left[0], Flatten(st.b.left[1..]));
    case LockTask2 =>
      assert Flatten([]) == [] && st.wire1 + [] == st.wire1;
      assert st.wire1 + st.relayed1 == st.wire1;
    case Relay1(n) => Assoc(Flatten(ts.one), st.relayed1, st.in2[..n]);
    case _ =>
  }

  lemma Wire2Step(ts: Tasks, st: State, l: Label)
    requires Wire2Inv(ts, st) && StageInv(st) && Enabled(st, l)
    ensures Wire2Inv(ts, Next(ts, st, l))
  {
    match l
    case WriteTask2 =>
      Assoc(st.wire2, st.b.left[0], Flatten(st.b.left[1..]));
    case UnlockTask2 =>
      assert Flatten([]) == [] && st.wire2 + [] == st.wire2;
      assert st.relayed2[|st.early2|..] == [] && st.wire2 + st.relayed2[|st.early2|..] == st.wire2;
    case Relay2(n) =>
      if st.b.OwnTop? || st.b.OwnRelay? {
        var e := st.early2;
        DropInFirst(st.relayed2, st.in1[..n], |e|);
        Assoc(e + Flatten(ts.two), st.relayed2[|e|..], st.in1[..n]);
      }
    case _ =>
  }

  lemma {:induction false} InvRuns(ts: Tasks, st: State, trace: seq<Label>, t: State)
    requires Inv(ts, st) && Runs(ts, st, trace, t)
    ensures Inv(ts, t)
    decreases |trace|
  {
    hide Next, Enabled, StageInv, FlowInv, Wire1Inv, Wire2Inv;
    if trace != [] {
      StageStep(ts, st, trace[0]);
      FlowStep(ts, st, trace[0]);
      Wire1Step(ts, st, trace[0]);
      Wire2Step(ts, st, trace[0]);
      InvRuns(ts, Next(ts, st, trace[0]), trace[1..], t);
    }
  }

  lemma InvHolds(ts: Tasks, trace: seq<Label>, t: State)
    requires Leads(ts, trace, t)
    ensures Inv(ts, t)
  {
    InitInv(ts);
    hide Inv, Runs;
    InvRuns(ts, INIT, trace, t);
  }

  lemma InitInv(ts: Tasks)
    ensures Inv(ts, INIT)
  {
  }

  /** The first joiner's bytes all go to the second one, in order, none is taken for a message; and
      the TaskA among them is whole. */
  lemma RelayedInOrder(ts: Tasks, trace: seq<Label>, t: State)
    requires Leads(ts, trace, t)
    ensures t.relayed2 <= t.sent1 && t.relayed1 <= t.sent2
    ensures !t.a.Parsing? && !t.b.OwnNil?
    ensures t.b.OwnTop? || t.b.OwnRelay? ==>
      t.early2 <= t.relayed2 && t.wire2 == t.early2 + Flatten(ts.two) + t.relayed2[|t.early2|..]
  {
    InvHolds(ts, trace, t);
  }

  // ---- Nothing is held back ----------------------------------------------------------------------

  lemma RunsCons(ts: Tasks, st: State, l: Label, trace: seq<Label>, t: State)
    requires Enabled(st, l) && Runs(ts, Next(ts, st, l), trace, t)
    ensures Runs(ts, st, [l] + trace, t)
  {
    hide Enabled, Next;
    assert ([l] + trace)[1..] == trace;
  }

  /** As many turns as buffers are needed for n bytes. */
  function Turns(n: nat): nat { (n + BUFFER - 1) / BUFFER }

  lemma TurnsStep(n: nat)
    requires n > 0
    ensures Turns(n) == 1 + Turns(if n <= BUFFER then 0 else n - BUFFER)
  {
  }

  predicate OnlyRelay1(trace: seq<Label>) { forall i | 0 <= i < |trace| :: trace[i].Relay1? }

  predicate OnlyRelay2(trace: seq<Label>) { forall i | 0 <= i < |trace| :: trace[i].Relay2? }

  function Relayed1(st: State): State {
    st.(wire1 := st.wire1 + st.in2, relayed1 := st.relayed1 + st.in2, in2 := [])
  }

  function Relayed2(st: State): State {
    st.(wire2 := st.wire2 + st.in1, relayed2 := st.relayed2 + st.in1, in1 := [])
  }

  /** One turn of several. */
  lemma RelayPiece1(ts: Tasks, st: State, n: nat)
    requires Enabled(st, Relay1(n))
    ensures var t := Next(ts, st, Relay1(n));
      && Relayed1(t) == Relayed1(st) && |t.in2| == |st.in2| - n
      && t.b.OwnRelay?
  {
    Pieces(st.wire1, st.in2, n);
    Pieces(st.relayed1, st.in2, n);
  }

  lemma {:induction false} RelayAll1(ts: Tasks, st: State) returns (more: seq<Label>)
    requires st.b.OwnRelay?
    ensures Runs(ts, st, more, Relayed1(st)) && OnlyRelay1(more) && |more| == Turns(|st.in2|)
    decreases |st.in2|
  {
    if st.in2 == [] {
      assert Relayed1(st) == st;
      return [];
    }
    var n := if |st.in2| <= BUFFER then |st.in2| else BUFFER;
    TurnsStep(|st.in2|);
    RelayPiece1(ts, st, n);
    hide *;
    more := RelayAll1(ts, Next(ts, st, Relay1(n)));
    RunsCons(ts, st, Relay1(n), more, Relayed1(st));
    more := [Relay1(n)] + more;
  }

  /** One turn of several. */
  lemma RelayPiece2(ts: Tasks, st: State, n: nat)
    requires Enabled(st, Relay2(n))
    ensures var t := Next(ts, st, Relay2(n));
      && Relayed2(t) == Relayed2(st) && |t.in1| == |st.in1| - n
      && t.a.Relaying? && !t.lock2
  {
    Pieces(st.wire2, st.in1, n);
    Pieces(st.relayed2, st.in1, n);
  }

  lemma {:induction false} RelayAll2(ts: Tasks, st: State) returns (more: seq<Label>)
    requires st.a.Relaying? && !st.lock2
    ensures Runs(ts, st, more, Relayed2(st)) && OnlyRelay2(more) && |more| == Turns(|st.in1|)
    decreases |st.in1|
  {
    if st.in1 == [] {
      assert Relayed2(st) == st;
      return [];
    }
    var n := if |st.in1| <= BUFFER then |st.in1| else BUFFER;
    TurnsStep(|st.in1|);
    RelayPiece2(ts, st, n);
    hide *;
    more := RelayAll2(ts, Next(ts, st, Relay2(n)));
    RunsCons(ts, st, Relay2(n), more, Relayed2(st));
    more := [Relay2(n)] + more;
  }

  lemma Pieces(a: seq<byte>, b: seq<byte>, n: nat)
    requires n <= |b|
    ensures (a + b[..n]) + b[n..] == a + b
  {
  }

  /** When the second joiner's goroutine relays: it gets rid of all that has arrived, a buffer at a time, in
      as many turns as that takes, and then the first one's wire carries its TaskA and all that the second
      one's client sent. */
  lemma RelayDelivers(ts: Tasks, trace: seq<Label>, t: State) returns (more: seq<Label>, u: State)
    requires Leads(ts, trace, t) && t.b.OwnRelay?
    ensures Runs(ts, t, more, u) && OnlyRelay1(more) && |more| == Turns(|t.in2|)
    ensures u.in2 == [] && u.sent2 == t.sent2 && u.wire1 == Flatten(ts.one) + t.sent2
  {
    InvHolds(ts, trace, t);
    Assoc(Flatten(ts.one), t.relayed1, t.in2);
    hide Leads, Runs;
    more := RelayAll1(ts, t);
    u := Relayed1(t);
  }

  /** And the other way: all that the first one's client sent, around the TaskA. */
  lemma RelayDeliversBack(ts: Tasks, trace: seq<Label>, t: State) returns (more: seq<Label>, u: State)
    requires Leads(ts, trace, t) && t.a.Relaying? && t.b.OwnRelay?
    ensures Runs(ts, t, more, u) && OnlyRelay2(more) && |more| == Turns(|t.in1|)
    ensures u.in1 == [] && u.sent1 == t.sent1 && t.early2 <= t.sent1
    ensures u.wire2 == t.early2 + Flatten(ts.two) + t.sent1[|t.early2|..]
  {
    InvHolds(ts, trace, t);
    DropInFirst(t.relayed2, t.in1, |t.early2|);
    Assoc(t.early2 + Flatten(ts.two), t.relayed2[|t.early2|..], t.in1);
    hide Leads, Runs;
    more := RelayAll2(ts, t);
    u := Relayed2(t);
  }
}
