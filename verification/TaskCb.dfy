/** `TaskCbContext`: one reader goroutine dispatching replies to many waiters, by message id. */
module TaskCb {
  import opened Bytes

  /** Ids are only ever compared. */
  type Id = nat

  datatype Msg = Msg(id: Id, body: nat)

  datatype Err = Nil | IsDisable | WriteFailed | Timeout | CbFailed

  /** `WaitCb` waits for its reply; `NowaitCb` returns once the request is written. */
  datatype Kind = Wait | Nowait

  /** A caller, statement by statement; OverStop..OverDelete is the deferred `OverTask(nil)`. */
  datatype Pc =
    | LoadDisable | SetCb | StoreMap | WriteReq | Select
    | OverStop(e: Err) | OverDisable(e: Err) | OverDelete(e: Err) | Returned(e: Err)
  {
    predicate BeforeStore() { LoadDisable? || SetCb? || StoreMap? }
    predicate Registered() { WriteReq? || Select? }
    predicate BeforeOver() { BeforeStore() || WriteReq? || Select? }
  }

  /** `wait` is the capacity-1 channel. The last two fields record the run of the callback: how
      often it ran, and what it returned last; `taken` that the reader found the task. */
  datatype Task = Task(id: Id, kind: Kind, pc: Pc, disable: bool, wait: Option<Err>, stop: bool,
                       taken: bool, runs: nat, result: Option<Err>)
  {
    /** A reply is still welcome. */
    predicate Open() { pc.Registered() || (kind.Nowait? && pc == Returned(Nil)) }

    /** The caller did not wait for the reply: its request was not written, or it timed out. */
    predicate GaveUp() {
      (pc.OverStop? || pc.OverDisable? || pc.OverDelete? || pc.Returned?) && (pc.e.Timeout? || pc.e.WriteFailed?)
    }
  }

  /** The reader inside `getTaskAndRun`. */
  datatype Reader =
    | Idle | Lookup(m: Msg) | Found(m: Msg, t: nat) | Check(m: Msg, t: nat) | Run(m: Msg, t: nat)
    | Send(m: Msg, t: nat, r: Err)

  /** What became of a message. */
  datatype Fate = Ran(m: Msg, t: nat, r: Err) | NoCb(m: Msg) | Dropped(m: Msg, t: nat)

  datatype State = State(tasks: seq<Task>, taskMap: map<Id, nat>, disable: bool, reader: Reader,
                         issued: map<Id, nat>, received: seq<Msg>, fates: seq<Fate>)

  datatype Label =
    | NewTask(id: Id, kind: Kind)
    | Step(t: nat)                 // the caller of task t
    | WriteFails(t: nat) | TimesOut(t: nat) | TakesStop(t: nat)
    | Receive(m: Msg)              // ReadCMsg returned m
    | Dispatch(r: Err)             // the reader's next statement; r is what the callback returns
    | Close

  const EMPTY := State([], map[], false, Idle, map[], [], [])

  predicate Enabled(st: State, l: Label) {
    match l
    // NewId never returns an id twice
    case NewTask(id, kind) => id !in st.issued
    case Step(t) => t < |st.tasks| && CanGo(st.tasks[t])
    case WriteFails(t) => t < |st.tasks| && st.tasks[t].pc.WriteReq?
    case TimesOut(t) => t < |st.tasks| && st.tasks[t].pc.Select?
    case TakesStop(t) => t < |st.tasks| && st.tasks[t].pc.Select? && st.tasks[t].stop
    case Receive(m) => st.reader.Idle?
    case Dispatch(r) =>
      (match st.reader
       case Idle => false
       case Lookup(m) => true
       case Send(m, t, e) => t < |st.tasks| && st.tasks[t].wait.None?   // a full channel blocks the reader
       case _ => st.reader.t < |st.tasks|)
    case Close => true
  }

  function Set(st: State, t: nat, k: Task): State
    requires t < |st.tasks|
  {
    st.(tasks := st.tasks[t := k])
  }

  /** An error return of `WaitCb` runs the deferred OverTask; `NowaitCb` has none. */
  function Fail(k: Task, e: Err): Task {
    k.(pc := if k.kind.Wait? then OverStop(e) else Returned(e))
  }

  predicate CanGo(k: Task) {
    !k.pc.Returned? && (k.pc.Select? ==> k.wait.Some?)
  }

  /** The caller's next statement: what it does to its task, and to the map of tasks. */
  function StepTask(k: Task, disable: bool): Task
    requires CanGo(k)
  {
    match k.pc
    case LoadDisable => if disable then Fail(k, IsDisable) else k.(pc := SetCb)
    case SetCb => k.(pc := StoreMap)
    case StoreMap => k.(pc := WriteReq)
    case WriteReq => k.(pc := if k.kind.Wait? then Select else Returned(Nil))
    case Select => k.(wait := None, pc := if k.wait.value.Nil? then Returned(Nil) else OverStop(k.wait.value))
    case OverStop(e) => k.(stop := true, pc := OverDisable(e))
    case OverDisable(e) => k.(disable := true, pc := OverDelete(e))
    case OverDelete(e) => k.(pc := Returned(e))
  }

  function StepMap(m: map<Id, nat>, t: nat, k: Task): map<Id, nat> {
    match k.pc
    case StoreMap => m[k.id := t]
    case OverDelete(e) => m - {k.id}
    case _ => m
  }

  function StepNext(st: State, t: nat): State
    requires Enabled(st, Step(t))
  {
    var k := st.tasks[t];
    Set(st.(taskMap := StepMap(st.taskMap, t, k)), t, StepTask(k, st.disable))
  }

  function DispatchNext(st: State, r: Err): State
    requires Enabled(st, Dispatch(r))
  {
    match st.reader
    case Idle => st
    case Lookup(m) =>
      if m.id in st.taskMap then
        var t := st.taskMap[m.id];
        (if t < |st.tasks| then Set(st, t, st.tasks[t].(taken := true)) else st).(reader := Found(m, t))
      else st.(reader := Idle, fates := st.fates + [NoCb(m)])
    case Found(m, t) => st.(taskMap := st.taskMap - {m.id}, reader := Check(m, t))
    case Check(m, t) =>
      if st.tasks[t].disable then st.(reader := Idle, fates := st.fates + [Dropped(m, t)])
      else st.(reader := Run(m, t))
    case Run(m, t) =>
      Set(st, t, st.tasks[t].(runs := st.tasks[t].runs + 1, result := Some(r))).(reader := Send(m, t, r))
    case Send(m, t, e) =>
      Set(st, t, st.tasks[t].(wait := Some(e))).(reader := Idle, fates := st.fates + [Ran(m, t, e)])
  }

  function Next(st: State, l: Label): State
    requires Enabled(st, l)
  {
    match l
    case NewTask(id, kind) =>
      st.(tasks := st.tasks + [Task(id, kind, LoadDisable, false, None, false, false, 0, None)],
          issued := st.issued[id := |st.tasks|])
    case Step(t) => StepNext(st, t)
    case WriteFails(t) => Set(st, t, Fail(st.tasks[t], WriteFailed))
    case TimesOut(t) => Set(st, t, st.tasks[t].(pc := OverStop(Timeout)))
    case TakesStop(t) => Set(st, t, st.tasks[t].(stop := false, pc := Returned(Nil)))
    case Receive(m) => st.(reader := Lookup(m), received := st.received + [m])
    case Dispatch(r) => DispatchNext(st, r)
    case Close => st.(disable := true)
  }

  predicate Leads(st: State, trace: seq<Label>, t: State)
    decreases |trace|
  {
    if trace == [] then t == st
    else Enabled(st, trace[0]) && Leads(Next(st, trace[0]), trace[1..], t)
  }

  // ---- Invariant -----------------------------------------------------------------------

  /** The reader holds task t, having found it. */
  predicate Holds(r: Reader, t: nat) { !r.Idle? && !r.Lookup? && r.t == t }

  /** Registration: the task's entry, when there is one, is its own, and is gone once `WaitCb` returns. */
  predicate EntryInv(st: State, t: nat) requires t < |st.tasks| {
    var k := st.tasks[t];
    && (k.id in st.taskMap ==> st.taskMap[k.id] == t && !k.pc.BeforeStore() && !(k.kind.Wait? && k.pc.Returned?))
    && (k.Open() && !k.taken ==> k.id in st.taskMap)
    && (k.kind.Nowait? ==> !k.pc.Select? && !k.disable && (k.pc.BeforeOver() || k.pc.Returned?))
    && (k.id in st.taskMap && k.taken ==> Holds(st.reader, t) && st.reader.Found?)
    && (k.pc.BeforeStore() ==> !k.taken)
    && (k.stop || k.disable ==> !k.pc.BeforeOver())
    && (!k.pc.BeforeOver() && !k.pc.Returned? ==> !k.pc.e.Nil?)
  }

  /** The callback: it runs at most once, between taking the task and filling its channel. */
  predicate RunInv(st: State, t: nat) requires t < |st.tasks| {
    var k := st.tasks[t];
    && k.runs <= (if k.taken then 1 else 0)
    && (k.runs == 0 ==> k.wait.None? && k.result.None?)
    && (Holds(st.reader, t) ==> k.taken && st.reader.m.id == k.id)
    && (Holds(st.reader, t) && st.reader.Send? ==> k.runs == 1 && k.wait.None? && k.result == Some(st.reader.r))
    && (Holds(st.reader, t) && !st.reader.Send? ==> k.runs == 0)
    && (k.wait.Some? ==> k.result == k.wait)
    && (k.kind.Wait? && k.pc == Returned(Nil) ==> k.runs == 1 && k.result == Some(Nil) && !Holds(st.reader, t))
  }

  predicate TaskInv(st: State, t: nat) requires t < |st.tasks| {
    EntryInv(st, t) && RunInv(st, t)
  }

  /** The entry for id k belongs to a task of that id. */
  predicate MapInv(st: State) {
    && (forall k | k in st.taskMap :: st.taskMap[k] < |st.tasks| && st.tasks[st.taskMap[k]].id == k)
    && (!st.reader.Idle? && !st.reader.Lookup? ==> st.reader.t < |st.tasks|)
    && (forall i | 0 <= i < |st.tasks| :: st.tasks[i].id in st.issued && st.issued[st.tasks[i].id] == i)
  }

  function Message(f: Fate): Msg { f.m }

  /** A message that went to a task had its id, and the reader is done with the task. */
  predicate TaskFate(st: State, f: Fate) {
    f.NoCb?
    || (f.t < |st.tasks| && st.tasks[f.t].id == f.m.id && st.tasks[f.t].taken && !Holds(st.reader, f.t)
        && (f.Dropped? ==> st.tasks[f.t].disable))
  }

  /** Each message has exactly one fate, in order; a callback run is on its own id's message, and no
      two messages were given to the same callback. */
  predicate FateInv(st: State) {
    && (if st.reader.Idle? then |st.fates| == |st.received|
        else |st.fates| + 1 == |st.received| && st.received[|st.fates|] == st.reader.m)
    && (forall i | 0 <= i < |st.fates| :: Message(st.fates[i]) == st.received[i])
    && (forall i | 0 <= i < |st.fates| :: TaskFate(st, st.fates[i]))
    && (forall i, j | 0 <= i < j < |st.fates| && !st.fates[i].NoCb? && !st.fates[j].NoCb? ::
          st.fates[i].t != st.fates[j].t)
  }

  predicate Inv(st: State) {
    && MapInv(st) && FateInv(st)
    && forall t | 0 <= t < |st.tasks| :: TaskInv(st, t)
  }

  lemma DistinctIds(st: State, u: nat, t: nat)
    requires MapInv(st) && u < |st.tasks| && t < |st.tasks| && u != t
    ensures st.tasks[u].id != st.tasks[t].id
  {
  }

  lemma StepOwnEntry(st: State, t: nat)
    requires MapInv(st) && Enabled(st, Step(t)) && TaskInv(st, t)
    ensures |StepNext(st, t).tasks| == |st.tasks| && EntryInv(StepNext(st, t), t)
  {
    var k := st.tasks[t];
    assert k.id in st.taskMap ==> st.taskMap[k.id] == t;
    hide MapInv, RunInv;
  }

  lemma StepOtherEntry(st: State, u: nat, t: nat)
    requires MapInv(st) && Enabled(st, Step(u)) && t < |st.tasks| && EntryInv(st, t) && u != t
    ensures |StepNext(st, u).tasks| == |st.tasks| && EntryInv(StepNext(st, u), t)
  {
    DistinctIds(st, u, t);
    hide MapInv;
    var n := StepNext(st, u);
    assert n.tasks[t] == st.tasks[t] && n.reader == st.reader;
    var id := st.tasks[t].id;
    assert id in n.taskMap ==> id in st.taskMap && n.taskMap[id] == st.taskMap[id];
  }

  lemma StepEntryInv(st: State, u: nat, t: nat)
    requires Inv(st) && Enabled(st, Step(u)) && t < |st.tasks|
    ensures |StepNext(st, u).tasks| == |st.tasks| && EntryInv(StepNext(st, u), t)
  {
    assert TaskInv(st, t);
    hide FateInv, RunInv, StepNext, EntryInv, MapInv;
    if u == t { StepOwnEntry(st, t); } else { StepOtherEntry(st, u, t); }
  }

  lemma StepRunInv(st: State, u: nat, t: nat)
    requires Inv(st) && Enabled(st, Step(u)) && t < |st.tasks|
    ensures |StepNext(st, u).tasks| == |st.tasks| && RunInv(StepNext(st, u), t)
  {
    assert TaskInv(st, t);
    hide Inv;
    var n := StepNext(st, u);
    if u != t {
      assert n.tasks[t] == st.tasks[t] && n.reader == st.reader;
    } else if st.tasks[t].pc.Select? {
      assert n.tasks[t].wait.None?;
    } else {
      assert n.tasks[t].wait == st.tasks[t].wait && n.tasks[t].runs == st.tasks[t].runs;
    }
  }

  lemma CallerTaskInv(st: State, l: Label, t: nat)
    requires Inv(st) && Enabled(st, l) && !l.Dispatch? && t < |Next(st, l).tasks|
    ensures TaskInv(Next(st, l), t)
  {
    if l.Step? {
      hide StepNext, Inv;
      StepKeepsTasks(st, l.t);
      StepEntryInv(st, l.t, t);
      StepRunInv(st, l.t, t);
    } else {
      hide FateInv, StepNext, DispatchNext;
      if t < |st.tasks| { assert TaskInv(st, t); }
    }
  }

  lemma StepKeepsTasks(st: State, u: nat)
    requires Enabled(st, Step(u))
    ensures |StepNext(st, u).tasks| == |st.tasks|
  {
  }

  lemma ReaderEntryInv(st: State, r: Err, t: nat)
    requires Inv(st) && Enabled(st, Dispatch(r)) && t < |DispatchNext(st, r).tasks|
    ensures EntryInv(DispatchNext(st, r), t)
  {
    ReaderKeepsTasks(st, r);
    assert TaskInv(st, t);
    if !st.reader.Lookup? { assert TaskInv(st, st.reader.t); }
    hide Inv, FateInv;
    if st.reader.Lookup? {
      hide RunInv;
    } else {
      HolderEntryInv(st, r, t);
    }
  }

  lemma HolderEntryInv(st: State, r: Err, t: nat)
    requires Enabled(st, Dispatch(r)) && !st.reader.Lookup? && t < |st.tasks| && st.reader.t < |st.tasks|
    requires MapInv(st) && TaskInv(st, t) && TaskInv(st, st.reader.t)
    ensures |DispatchNext(st, r).tasks| == |st.tasks| && EntryInv(DispatchNext(st, r), t)
  {
    if st.reader.Found? {
      assert t != st.reader.t ==> st.tasks[st.reader.t].id != st.tasks[t].id;
      hide MapInv;
    } else {
      hide MapInv, RunInv;
      SameRegistration(st, r, t);
    }
  }

  /** After the reader has deleted the entry, its statements leave the map and the callers alone. */
  lemma SameRegistration(st: State, r: Err, t: nat)
    requires Enabled(st, Dispatch(r)) && !st.reader.Lookup? && !st.reader.Found? && t < |st.tasks|
    ensures var n := DispatchNext(st, r);
      && |n.tasks| == |st.tasks| && n.taskMap == st.taskMap
      && n.tasks[t] == st.tasks[t].(runs := n.tasks[t].runs, result := n.tasks[t].result, wait := n.tasks[t].wait)
  {
  }

  /** The callback part, for the task the reader holds and for another. */
  lemma ReaderOwnRun(st: State, r: Err, t: nat)
    requires MapInv(st) && Enabled(st, Dispatch(r)) && t < |st.tasks| && TaskInv(st, t) && Holds(st.reader, t)
    ensures |DispatchNext(st, r).tasks| == |st.tasks| && RunInv(DispatchNext(st, r), t)
  {
    assert RunInv(st, t) && EntryInv(st, t);
    hide MapInv, TaskInv, EntryInv;
    var n, k := DispatchNext(st, r), st.tasks[t];
    ReaderKeepsTasks(st, r);
    assert n.tasks[t].taken && n.tasks[t].id == k.id && n.tasks[t].kind == k.kind && n.tasks[t].pc == k.pc;
    if st.reader.Run? {
      assert n.tasks[t] == k.(runs := k.runs + 1, result := Some(r));
    } else if st.reader.Send? {
      assert n.tasks[t] == k.(wait := Some(st.reader.r));
    } else {
      assert n.tasks[t] == k;
    }
    hide DispatchNext;
  }

  lemma ReaderOtherRun(st: State, r: Err, t: nat)
    requires MapInv(st) && Enabled(st, Dispatch(r)) && t < |st.tasks| && TaskInv(st, t) && !Holds(st.reader, t)
    ensures |DispatchNext(st, r).tasks| == |st.tasks| && RunInv(DispatchNext(st, r), t)
  {
    var n := DispatchNext(st, r);
    if st.reader.Lookup? {
      assert st.reader.m.id in st.taskMap ==> st.tasks[st.taskMap[st.reader.m.id]].id == st.reader.m.id;
      hide MapInv;
    } else {
      hide MapInv;
      assert n.tasks[t] == st.tasks[t];
    }
  }

  lemma ReaderTaskInv(st: State, r: Err, t: nat)
    requires Inv(st) && Enabled(st, Dispatch(r)) && t < |DispatchNext(st, r).tasks|
    ensures TaskInv(DispatchNext(st, r), t)
  {
    ReaderKeepsTasks(st, r);
    assert TaskInv(st, t);
    ReaderEntryInv(st, r, t);
    hide FateInv, EntryInv, RunInv, DispatchNext, MapInv;
    if Holds(st.reader, t) { ReaderOwnRun(st, r, t); } else { ReaderOtherRun(st, r, t); }
  }

  lemma ReaderKeepsTasks(st: State, r: Err)
    requires Enabled(st, Dispatch(r))
    ensures |DispatchNext(st, r).tasks| == |st.tasks|
  {
  }

  lemma CallerMapInv(st: State, l: Label)
    requires Inv(st) && Enabled(st, l) && !l.Dispatch?
    ensures MapInv(Next(st, l))
  {
    hide FateInv, TaskInv;
    if l.Step? { StepMapInv(st, l.t); }
  }

  lemma StepMapInv(st: State, t: nat)
    requires MapInv(st) && Enabled(st, Step(t))
    ensures MapInv(StepNext(st, t))
  {
    var n := StepNext(st, t);
    StepKeepsIds(st, t);
    assert n.issued == st.issued && n.reader == st.reader;
    assert forall k | k in n.taskMap ::
      (n.taskMap[k] == t && k == st.tasks[t].id) || (k in st.taskMap && n.taskMap[k] == st.taskMap[k]);
    hide StepNext;
  }

  lemma StepKeepsIds(st: State, t: nat)
    requires Enabled(st, Step(t))
    ensures |StepNext(st, t).tasks| == |st.tasks|
    ensures forall i | 0 <= i < |st.tasks| :: StepNext(st, t).tasks[i].id == st.tasks[i].id
  {
  }

  lemma ReaderKeepsIds(st: State, r: Err)
    requires Enabled(st, Dispatch(r))
    ensures |DispatchNext(st, r).tasks| == |st.tasks|
    ensures forall i | 0 <= i < |st.tasks| :: DispatchNext(st, r).tasks[i].id == st.tasks[i].id
  {
  }

  lemma ReaderMapInv(st: State, r: Err)
    requires Inv(st) && Enabled(st, Dispatch(r))
    ensures MapInv(DispatchNext(st, r))
  {
    hide FateInv, TaskInv;
    var n := DispatchNext(st, r);
    ReaderKeepsIds(st, r);
    assert n.issued == st.issued;
    assert forall k | k in n.taskMap :: k in st.taskMap && n.taskMap[k] == st.taskMap[k];
    assert !n.reader.Idle? && !n.reader.Lookup? ==> n.reader.t < |n.tasks|;
    hide DispatchNext;
  }

  lemma CallerFateKept(st: State, l: Label, f: Fate)
    requires Enabled(st, l) && !l.Dispatch? && TaskFate(st, f)
    ensures TaskFate(Next(st, l), f)
  {
  }

  lemma CallerFateInv(st: State, l: Label)
    requires Inv(st) && Enabled(st, l) && !l.Dispatch?
    ensures FateInv(Next(st, l))
  {
    var n := Next(st, l);
    assert n.fates == st.fates;
    hide TaskInv, MapInv, TaskFate, StepNext;
    forall i | 0 <= i < |n.fates| ensures TaskFate(n, n.fates[i]) { CallerFateKept(st, l, st.fates[i]); }
  }

  /** A message's fate settles: the reader lets go of its task, which it had taken. */
  lemma FateSettles(st: State, n: State, f: Fate)
    requires FateInv(st) && !st.reader.Idle? && f.m == st.reader.m
    requires n.fates == st.fates + [f] && n.reader.Idle? && n.received == st.received && |n.tasks| == |st.tasks|
    requires forall t | 0 <= t < |st.tasks| ::
      && n.tasks[t].id == st.tasks[t].id && n.tasks[t].taken == st.tasks[t].taken
      && n.tasks[t].disable == st.tasks[t].disable
    requires !f.NoCb? ==> Holds(st.reader, f.t) && f.t < |st.tasks| && st.tasks[f.t].taken && st.tasks[f.t].id == f.m.id
    requires f.Dropped? ==> st.tasks[f.t].disable
    ensures FateInv(n)
  {
    hide TaskFate;
    forall i | 0 <= i < |n.fates| ensures TaskFate(n, n.fates[i]) {
      if i < |st.fates| { FateStays(st, n, st.fates[i]); } else { FateBegins(st, n, f); }
    }
    if !f.NoCb? {
      forall i | 0 <= i < |st.fates| && !st.fates[i].NoCb? ensures st.fates[i].t != f.t { NotHeld(st, st.fates[i]); }
    }
  }

  lemma NotHeld(st: State, f: Fate)
    requires TaskFate(st, f) && !f.NoCb?
    ensures !Holds(st.reader, f.t)
  {
  }

  lemma FateStays(st: State, n: State, f: Fate)
    requires TaskFate(st, f) && n.reader.Idle? && |n.tasks| == |st.tasks|
    requires forall t | 0 <= t < |st.tasks| ::
      && n.tasks[t].id == st.tasks[t].id && n.tasks[t].taken == st.tasks[t].taken
      && n.tasks[t].disable == st.tasks[t].disable
    ensures TaskFate(n, f)
  {
  }

  lemma FateBegins(st: State, n: State, f: Fate)
    requires n.reader.Idle? && |n.tasks| == |st.tasks|
    requires forall t | 0 <= t < |st.tasks| ::
      && n.tasks[t].id == st.tasks[t].id && n.tasks[t].taken == st.tasks[t].taken
      && n.tasks[t].disable == st.tasks[t].disable
    requires !f.NoCb? ==> f.t < |st.tasks| && st.tasks[f.t].taken && st.tasks[f.t].id == f.m.id
    requires f.Dropped? ==> st.tasks[f.t].disable
    ensures TaskFate(n, f)
  {
  }

  lemma ReaderFateInv(st: State, r: Err)
    requires Inv(st) && Enabled(st, Dispatch(r))
    ensures FateInv(DispatchNext(st, r))
  {
    if !st.reader.Lookup? {
      assert TaskInv(st, st.reader.t);
    } else if st.reader.m.id in st.taskMap {
      assert TaskInv(st, st.taskMap[st.reader.m.id]);
    }
    var n := DispatchNext(st, r);
    if n.reader.Idle? {
      hide FateInv, TaskInv;
      FateSettles(st, n, n.fates[|st.fates|]);
    } else {
      ReaderMovesOn(st, r);
    }
  }

  /** No fate settles: the reader takes a task, or goes on with the one it holds. */
  lemma ReaderMovesOn(st: State, r: Err)
    requires MapInv(st) && FateInv(st) && Enabled(st, Dispatch(r)) && !DispatchNext(st, r).reader.Idle?
    requires st.reader.Lookup? && st.reader.m.id in st.taskMap ==>
      TaskInv(st, st.taskMap[st.reader.m.id])
    ensures FateInv(DispatchNext(st, r))
  {
    var n := DispatchNext(st, r);
    assert n.fates == st.fates && n.received == st.received && n.reader.m == st.reader.m;
    hide DispatchNext, TaskInv, MapInv, TaskFate;
    forall i | 0 <= i < |n.fates| ensures TaskFate(n, n.fates[i]) { FateKept(st, r, st.fates[i]); }
  }

  lemma FateKept(st: State, r: Err, f: Fate)
    requires MapInv(st) && TaskFate(st, f) && Enabled(st, Dispatch(r)) && !DispatchNext(st, r).reader.Idle?
    requires st.reader.Lookup? && st.reader.m.id in st.taskMap ==>
      TaskInv(st, st.taskMap[st.reader.m.id])
    ensures TaskFate(DispatchNext(st, r), f)
  {
    assert st.reader.Lookup? && st.reader.m.id in st.taskMap ==>
      st.tasks[st.taskMap[st.reader.m.id]].id == st.reader.m.id && !st.tasks[st.taskMap[st.reader.m.id]].taken;
    hide TaskInv, EntryInv, RunInv, MapInv;
  }

  lemma StepInv(st: State, l: Label)
    requires Inv(st) && Enabled(st, l)
    ensures Inv(Next(st, l))
  {
    hide TaskInv, MapInv, FateInv, DispatchNext, StepNext, Enabled;
    if l.Dispatch? {
      ReaderMapInv(st, l.r);
      ReaderFateInv(st, l.r);
      forall t | 0 <= t < |Next(st, l).tasks| ensures TaskInv(Next(st, l), t) { ReaderTaskInv(st, l.r, t); }
    } else {
      CallerMapInv(st, l);
      CallerFateInv(st, l);
      forall t | 0 <= t < |Next(st, l).tasks| ensures TaskInv(Next(st, l), t) { CallerTaskInv(st, l, t); }
    }
  }

  lemma {:induction false} ReachableInv(st: State, trace: seq<Label>, t: State)
    requires Inv(st) && Leads(st, trace, t)
    ensures Inv(t)
    decreases |trace|
  {
    hide Inv, Next, Enabled;
    if trace != [] {
      StepInv(st, trace[0]);
      ReachableInv(Next(st, trace[0]), trace[1..], t);
    }
  }

  // ---- Theorems --------------------------------------------------------------------------

  /** Dispatch is safe on every schedule: each callback runs at most once, only on a message with its id;
      each message received has one fate (or is being dispatched), no two go to one callback. */
  lemma DispatchIsSafe(trace: seq<Label>, st: State)
    requires Leads(EMPTY, trace, st)
    ensures forall t | 0 <= t < |st.tasks| :: st.tasks[t].runs <= 1
    ensures |st.received| == |st.fates| + (if st.reader.Idle? then 0 else 1)
    ensures forall i | 0 <= i < |st.fates| :: st.fates[i].m == st.received[i]
    ensures forall i | 0 <= i < |st.fates| && st.fates[i].Ran? ::
      st.fates[i].t < |st.tasks| && st.tasks[st.fates[i].t].id == st.received[i].id
    ensures forall i, j | 0 <= i < j < |st.fates| && st.fates[i].Ran? && st.fates[j].Ran? ::
      st.fates[i].t != st.fates[j].t
  {
    ReachableInv(EMPTY, trace, st);
    forall t | 0 <= t < |st.tasks| ensures st.tasks[t].runs <= 1 { assert TaskInv(st, t); }
    forall i | 0 <= i < |st.fates|
      ensures st.fates[i].m == st.received[i]
      ensures st.fates[i].Ran? ==> st.fates[i].t < |st.tasks| && st.tasks[st.fates[i].t].id == st.received[i].id
    {
      assert Message(st.fates[i]) == st.received[i] && TaskFate(st, st.fates[i]);
    }
  }

  /** The reader never blocks in the middle of a dispatch: the channel it sends on is empty. */
  lemma ReaderNeverBlocks(trace: seq<Label>, st: State, r: Err)
    requires Leads(EMPTY, trace, st) && !st.reader.Idle?
    ensures Enabled(st, Dispatch(r))
  {
    ReachableInv(EMPTY, trace, st);
    if !st.reader.Lookup? { assert TaskInv(st, st.reader.t); }
  }

  /** A nil return of `WaitCb` means its callback ran exactly once, before, and returned nil; after
      any return the task is no longer registered. */
  lemma WaitResultIsFaithful(trace: seq<Label>, st: State, t: nat)
    requires Leads(EMPTY, trace, st)
    requires t < |st.tasks| && st.tasks[t].kind.Wait? && st.tasks[t].pc.Returned?
    ensures st.tasks[t].pc.e.Nil? ==> st.tasks[t].runs == 1 && st.tasks[t].result == Some(Nil)
    ensures st.tasks[t].id !in st.taskMap
  {
    ReachableInv(EMPTY, trace, st);
    assert TaskInv(st, t);
  }

  /** A waiter that has its reply in the channel can return with it; one without can only time out. */
  lemma StopCaseNeverTaken(trace: seq<Label>, st: State, t: nat)
    requires Leads(EMPTY, trace, st)
    ensures !Enabled(st, TakesStop(t))
  {
    ReachableInv(EMPTY, trace, st);
    if t < |st.tasks| { assert TaskInv(st, t); }
  }

  /** How many statements the reader still needs for the message at hand. */
  function Left(r: Reader): nat {
    match r
    case Idle => 0
    case Lookup(_) => 5
    case Found(_, _) => 4
    case Check(_, _) => 3
    case Run(_, _) => 2
    case Send(_, _, _) => 1
  }

  function Dispatches(trace: seq<Label>): nat {
    if trace == [] then 0 else Dispatches(trace[1..]) + if trace[0].Dispatch? then 1 else 0
  }

  /** Message m, the n-th, is on its way to task t, or has run its callback, or the caller gave up. */
  predicate Delivering(st: State, n: nat, m: Msg, t: nat) {
    && t < |st.tasks| && st.tasks[t].id == m.id && n <= |st.fates| &&
    var k := st.tasks[t];
    if |st.fates| == n then
      && (k.Open() || k.GaveUp())
      && ((st.reader == Lookup(m) && !k.taken) || (Holds(st.reader, t) && st.reader.m == m))
    else
      || k.GaveUp()
      || (st.fates[n].Ran? && st.fates[n].m == m && st.fates[n].t == t
          && k.runs == 1 && k.result == Some(st.fates[n].r))
  }

  lemma CallerDelivers(st: State, l: Label, n: nat, m: Msg, t: nat)
    requires Delivering(st, n, m, t) && TaskInv(st, t) && Enabled(st, l) && !l.Dispatch?
    requires !(l.Receive? && |st.fates| == n)
    ensures Delivering(Next(st, l), n, m, t)
  {
  }

  /** The reader's step as far as a task and the fates are concerned. */
  lemma ReaderTouches(st: State, r: Err, t: nat)
    requires Enabled(st, Dispatch(r)) && t < |st.tasks|
    ensures var u := DispatchNext(st, r);
      && |u.tasks| == |st.tasks| && st.fates <= u.fates
      && u.tasks[t].id == st.tasks[t].id && u.tasks[t].pc == st.tasks[t].pc && u.tasks[t].kind == st.tasks[t].kind
      && (!Holds(st.reader, t) ==> u.tasks[t].runs == st.tasks[t].runs && u.tasks[t].result == st.tasks[t].result)
  {
    ReaderKeepsTasks(st, r);
    var k, x := st.tasks[t], DispatchNext(st, r).tasks[t];
    assert x == k || x == k.(taken := true) || (Holds(st.reader, t)
      && (x == k.(runs := k.runs + 1, result := Some(r)) || (st.reader.Send? && x == k.(wait := Some(st.reader.r)))));
  }

  lemma LookupDelivers(st: State, r: Err, n: nat, m: Msg, t: nat)
    requires Delivering(st, n, m, t) && TaskInv(st, t) && |st.fates| == n && st.reader.Lookup?
    requires Enabled(st, Dispatch(r))
    ensures Delivering(DispatchNext(st, r), n, m, t)
  {
    ReaderTouches(st, r, t);
    hide RunInv;
  }

  lemma HeldDelivers(st: State, r: Err, n: nat, m: Msg, t: nat)
    requires Delivering(st, n, m, t) && TaskInv(st, t) && |st.fates| == n && Holds(st.reader, t)
    requires Enabled(st, Dispatch(r))
    ensures Delivering(DispatchNext(st, r), n, m, t)
  {
    ReaderTouches(st, r, t);
    assert st.tasks[t].disable ==> st.tasks[t].GaveUp();
    assert st.reader.Send? ==> st.tasks[t].runs == 1 && st.tasks[t].result == Some(st.reader.r);
    hide TaskInv, EntryInv, RunInv;
  }

  lemma SettledDelivers(st: State, r: Err, n: nat, m: Msg, t: nat)
    requires Delivering(st, n, m, t) && FateInv(st) && |st.fates| > n && Enabled(st, Dispatch(r))
    ensures Delivering(DispatchNext(st, r), n, m, t)
  {
    ReaderTouches(st, r, t);
    assert TaskFate(st, st.fates[n]);
    assert st.fates[n].Ran? && st.fates[n].t == t ==> !Holds(st.reader, t);
    hide FateInv, DispatchNext;
  }

  lemma ReaderDelivers(st: State, r: Err, n: nat, m: Msg, t: nat)
    requires Delivering(st, n, m, t) && TaskInv(st, t) && FateInv(st) && Enabled(st, Dispatch(r))
    ensures Delivering(DispatchNext(st, r), n, m, t)
  {
    if |st.fates| > n {
      SettledDelivers(st, r, n, m, t);
    } else if st.reader.Lookup? {
      LookupDelivers(st, r, n, m, t);
    } else {
      HeldDelivers(st, r, n, m, t);
    }
  }

  lemma DeliveringStep(st: State, l: Label, n: nat, m: Msg, t: nat)
    requires Inv(st) && Delivering(st, n, m, t) && Enabled(st, l)
    ensures Delivering(Next(st, l), n, m, t)
  {
    assert t < |st.tasks|;
    assert TaskInv(st, t);
    assert l.Receive? && |st.fates| == n ==> false;
    hide TaskInv, FateInv, MapInv, DispatchNext, StepNext;
    if l.Dispatch? {
      ReaderDelivers(st, l.r, n, m, t);
    } else {
      CallerDelivers(st, l, n, m, t);
    }
  }

  lemma LeftFalls(st: State, l: Label, n: nat)
    requires Enabled(st, l) && !st.reader.Idle? && |st.fates| == n
    ensures |Next(st, l).fates| == n ==>
      !Next(st, l).reader.Idle? && Left(Next(st, l).reader) + (if l.Dispatch? then 1 else 0) == Left(st.reader)
  {
  }

  lemma FatesGrow(st: State, l: Label)
    requires Enabled(st, l)
    ensures |st.fates| <= |Next(st, l).fates|
  {
  }

  lemma {:induction false} DeliveringHolds(st: State, more: seq<Label>, u: State, n: nat, m: Msg, t: nat)
    requires Inv(st) && Delivering(st, n, m, t) && Leads(st, more, u)
    ensures Inv(u) && Delivering(u, n, m, t)
    ensures |st.fates| == n && |u.fates| == n ==> Left(u.reader) + Dispatches(more) == Left(st.reader)
    ensures |st.fates| <= |u.fates|
    decreases |more|
  {
    hide Inv, Next, Enabled, Left;
    if more != [] {
      StepInv(st, more[0]);
      DeliveringStep(st, more[0], n, m, t);
      FatesGrow(st, more[0]);
      if |st.fates| == n { LeftFalls(st, more[0], n); }
      hide Delivering;
      DeliveringHolds(Next(st, more[0]), more[1..], u, n, m, t);
    }
  }

  /** The reply of a waiting task is not lost, in any interleaving: five statements of the reader after it
      has the message, the task's callback has run on it, once, and its result is what the task's channel was
      given; unless the caller gave up, its request not written or its time over. */
  lemma ReplyReachesWaiter(trace: seq<Label>, st: State, t: nat, more: seq<Label>, u: State)
    requires Leads(EMPTY, trace, st) && st.reader.Lookup?
    requires t < |st.tasks| && st.tasks[t].id == st.reader.m.id && st.tasks[t].pc.Registered() && !st.tasks[t].taken
    requires Leads(st, more, u)
    ensures t < |u.tasks| && |st.fates| <= |u.fates|
    ensures Dispatches(more) >= 5 ==> |u.fates| > |st.fates|
    ensures |u.fates| == |st.fates| ==> !u.reader.Idle? && u.reader.m == st.reader.m
    ensures |u.fates| > |st.fates| && !u.tasks[t].GaveUp() ==>
      var f := u.fates[|st.fates|];
      f.Ran? && f.m == st.reader.m && f.t == t && u.tasks[t].runs == 1 && u.tasks[t].result == Some(f.r)
  {
    ReachableInv(EMPTY, trace, st);
    DeliveringHolds(st, more, u, |st.fates|, st.reader.m, t);
    hide Inv, Leads;
    if |u.fates| == |st.fates| {
      assert !u.reader.Idle?;
      assert Left(u.reader) > 0;
    }
  }
}
