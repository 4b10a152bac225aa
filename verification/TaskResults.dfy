/** What `WaitCb` and `NowaitCb` return, on every schedule: the error tells what happened to the caller. */
module TaskResults {
  import opened Bytes
  import opened TaskCb

  /** The caller whose own step the label is; a timeout and a failed write are such. */
  function CallerOf(l: Label): Option<nat> {
    match l
    case Step(t) => Some(t)
    case WriteFails(t) => Some(t)
    case TimesOut(t) => Some(t)
    case TakesStop(t) => Some(t)
    case _ => None
  }

  /** In the schedule, caller t starts when the context has been closed. */
  predicate Refused(trace: seq<Label>, t: nat) {
    trace != [] &&
    var n := |trace| - 1;
    Refused(trace[..n], t) || (trace[n] == Step(t) && Step(t) !in trace[..n] && Close in trace[..n])
  }

  /** Nothing has gone wrong for caller t. */
  predicate Untroubled(trace: seq<Label>, t: nat) {
    !Refused(trace, t) && WriteFails(t) !in trace && TimesOut(t) !in trace
  }

  /** What caller t, if it returns e, must have met on the schedule. */
  predicate Returns(trace: seq<Label>, t: nat, k: Task, e: Err) {
    if Refused(trace, t) then e == IsDisable && k.runs == 0
    else if WriteFails(t) in trace then e == WriteFailed
    else if k.kind.Nowait? then e == Nil
    else if TimesOut(t) in trace then e == Timeout
    else k.runs == 1 && k.result == Some(e)
  }

  predicate CallerInv(before: seq<Label>, st: State, t: nat)
    requires t < |st.tasks|
  {
    var k := st.tasks[t];
    && (k.pc.LoadDisable? <==> Step(t) !in before)
    && (if k.pc.BeforeOver() then Untroubled(before, t) else Returns(before, t, k, k.pc.e))
    && (Refused(before, t) ==> !k.taken && k.id !in st.taskMap)
    && (TimesOut(t) in before ==> k.kind.Wait? && WriteFails(t) !in before)
    && (k.kind.Wait? && (k.pc.OverDisable? || k.pc.OverDelete? || (k.pc.Returned? && !k.pc.e.Nil?)) ==> k.stop)
    && (k.kind.Wait? && (k.pc.OverDelete? || (k.pc.Returned? && !k.pc.e.Nil?)) ==> k.disable)
  }

  predicate HistoryInv(before: seq<Label>, st: State) {
    && (st.disable <==> Close in before)
    && (forall i | 0 <= i < |before| && CallerOf(before[i]).Some? :: CallerOf(before[i]).value < |st.tasks|)
    && (forall t | 0 <= t < |st.tasks| :: CallerInv(before, st, t))
  }

  lemma RefusedSnoc(trace: seq<Label>, l: Label, t: nat)
    ensures Refused(trace + [l], t) <==> Refused(trace, t) || (l == Step(t) && Step(t) !in trace && Close in trace)
    ensures forall x :: x in trace + [l] <==> x in trace || x == l
  {
    assert (trace + [l])[..|trace|] == trace;
  }

  lemma {:induction false} RefusedSteps(trace: seq<Label>, t: nat)
    ensures Refused(trace, t) ==> Step(t) in trace
  {
    if trace != [] { RefusedSteps(trace[..|trace| - 1], t); }
  }

  lemma NotBefore(before: seq<Label>, l: Label, n: nat)
    requires forall i | 0 <= i < |before| && CallerOf(before[i]).Some? :: CallerOf(before[i]).value < n
    requires CallerOf(l) == Some(n)
    ensures l !in before
  {
    forall i | 0 <= i < |before| ensures before[i] != l { }
  }

  lemma NewCaller(before: seq<Label>, st: State)
    requires HistoryInv(before, st)
    ensures Untroubled(before, |st.tasks|) && Step(|st.tasks|) !in before
  {
    var t := |st.tasks|;
    RefusedSteps(before, t);
    NotBefore(before, Step(t), t);
    NotBefore(before, WriteFails(t), t);
    NotBefore(before, TimesOut(t), t);
  }

  /** A label that is no step of caller t changes nothing of what has happened to it. */
  lemma SameHistory(before: seq<Label>, l: Label, t: nat)
    requires CallerOf(l) != Some(t)
    ensures Refused(before + [l], t) == Refused(before, t)
    ensures Untroubled(before + [l], t) == Untroubled(before, t)
    ensures Step(t) in before + [l] <==> Step(t) in before
    ensures WriteFails(t) in before + [l] <==> WriteFails(t) in before
    ensures TimesOut(t) in before + [l] <==> TimesOut(t) in before
  {
    RefusedSnoc(before, l, t);
  }

  /** Another caller's step leaves the task, and keeps its id out of the map. */
  lemma OtherCaller(st: State, l: Label, t: nat)
    requires MapInv(st) && Enabled(st, l) && !l.Dispatch? && t < |st.tasks| && CallerOf(l) != Some(t)
    ensures t < |Next(st, l).tasks| && Next(st, l).tasks[t] == st.tasks[t]
    ensures st.tasks[t].id !in st.taskMap ==> st.tasks[t].id !in Next(st, l).taskMap
  {
    if l.Step? { DistinctIds(st, l.t, t); }
    hide MapInv;
  }

  lemma OtherCallerInv(before: seq<Label>, st: State, l: Label, t: nat)
    requires MapInv(st) && Enabled(st, l) && !l.Dispatch? && t < |st.tasks| && CallerOf(l) != Some(t)
    requires CallerInv(before, st, t)
    ensures t < |Next(st, l).tasks| && CallerInv(before + [l], Next(st, l), t)
  {
    OtherCaller(st, l, t);
    SameHistory(before, l, t);
    hide Next, Refused, MapInv, Enabled;
  }

  /** The reader's step: a task runs no more once it has run, and never if it is not registered. */
  lemma ReaderStep(st: State, r: Err, t: nat)
    requires t < |st.tasks| && MapInv(st) && TaskInv(st, t) && Enabled(st, Dispatch(r))
    requires t < |DispatchNext(st, r).tasks| && RunInv(DispatchNext(st, r), t)
    ensures var k, n := st.tasks[t], DispatchNext(st, r);
      && n.tasks[t].pc == k.pc && n.tasks[t].kind == k.kind && n.tasks[t].id == k.id
      && (k.runs == 1 ==> n.tasks[t].runs == 1 && n.tasks[t].result == k.result)
      && (!k.taken && k.id !in st.taskMap ==> !n.tasks[t].taken && k.id !in n.taskMap && n.tasks[t].runs == 0)
  {
    var k, n := st.tasks[t], DispatchNext(st, r);
    ReaderTouches(st, r, t);
    assert !k.taken && k.id !in st.taskMap ==> !n.tasks[t].taken && k.id !in n.taskMap;
    assert n.tasks[t].runs == k.runs ==> n.tasks[t].result == k.result;
    assert n.tasks[t].runs >= k.runs;
    hide MapInv, DispatchNext, EntryInv;
  }

  lemma ReaderCallerInv(before: seq<Label>, st: State, r: Err, t: nat)
    requires Inv(st) && Enabled(st, Dispatch(r)) && Inv(DispatchNext(st, r)) && t < |st.tasks|
    requires CallerInv(before, st, t)
    ensures t < |DispatchNext(st, r).tasks| && CallerInv(before + [Dispatch(r)], DispatchNext(st, r), t)
  {
    ReaderKeepsTasks(st, r);
    assert TaskInv(st, t) && TaskInv(DispatchNext(st, r), t);
    hide Inv, TaskInv, EntryInv, DispatchNext, Enabled, Refused;
    ReaderStep(st, r, t);
    SameHistory(before, Dispatch(r), t);
  }

  /** What caller t's own step does to its task. */
  lemma OwnStep(st: State, t: nat)
    requires t < |st.tasks| && TaskInv(st, t) && Enabled(st, Step(t))
    ensures t < |Next(st, Step(t)).tasks|
    ensures var k, n := st.tasks[t], Next(st, Step(t)).tasks[t];
      && n.kind == k.kind && n.id == k.id && n.runs == k.runs && n.result == k.result && n.taken == k.taken
      && !n.pc.LoadDisable?
      && match k.pc
         case LoadDisable =>
           && k.runs == 0 && !k.taken && k.id !in st.taskMap && k.id !in Next(st, Step(t)).taskMap
           && (if st.disable then !n.pc.BeforeOver() && n.pc.e == IsDisable else n.pc.BeforeOver())
         case Select =>
           k.kind.Wait? && k.runs == 1 && !n.pc.BeforeOver() && k.result == Some(n.pc.e)
         case WriteReq => if k.kind.Wait? then n.pc.BeforeOver() else n.pc == Returned(Nil)
         case SetCb => n.pc.BeforeOver()
         case StoreMap => n.pc.BeforeOver()
         case _ =>
           && !n.pc.BeforeOver() && n.pc.e == k.pc.e
           && (k.id !in st.taskMap ==> k.id !in Next(st, Step(t)).taskMap)
  {
  }

  lemma OwnStepInv(before: seq<Label>, st: State, t: nat)
    requires t < |st.tasks| && TaskInv(st, t) && Enabled(st, Step(t))
    requires CallerInv(before, st, t) && (st.disable <==> Close in before)
    ensures t < |Next(st, Step(t)).tasks| && CallerInv(before + [Step(t)], Next(st, Step(t)), t)
  {
    OwnStep(st, t);
    RefusedSnoc(before, Step(t), t);
    assert !st.tasks[t].pc.Returned?;
    hide TaskInv, Refused, Next, Enabled;
  }

  lemma OwnTroubleInv(before: seq<Label>, st: State, l: Label, t: nat)
    requires t < |st.tasks| && TaskInv(st, t) && Enabled(st, l) && CallerOf(l) == Some(t) && !l.Step?
    requires CallerInv(before, st, t)
    ensures t < |Next(st, l).tasks| && CallerInv(before + [l], Next(st, l), t)
  {
    RefusedSnoc(before, l, t);
    assert !l.TakesStop?;
    assert l.TimesOut? ==> st.tasks[t].kind.Wait?;
    hide TaskInv, EntryInv, RunInv, Refused;
  }

  lemma NewCallerInv(before: seq<Label>, st: State, l: Label)
    requires MapInv(st) && HistoryInv(before, st) && Enabled(st, l) && l.NewTask?
    ensures CallerInv(before + [l], Next(st, l), |st.tasks|)
  {
    NewCaller(before, st);
    SameHistory(before, l, |st.tasks|);
    hide Refused, HistoryInv, MapInv;
  }

  lemma CallerStepInv(before: seq<Label>, st: State, l: Label, t: nat)
    requires Inv(st) && Enabled(st, l) && Inv(Next(st, l)) && HistoryInv(before, st) && t < |Next(st, l).tasks|
    ensures CallerInv(before + [l], Next(st, l), t)
  {
    hide CallerInv, TaskInv, FateInv;
    if t >= |st.tasks| {
      NewTaskOnly(st, l);
      NewCallerInv(before, st, l);
    } else {
      assert CallerInv(before, st, t) && TaskInv(st, t);
      hide Next, Enabled, DispatchNext;
      if l.Dispatch? {
        NextDispatch(st, l.r);
        ReaderCallerInv(before, st, l.r, t);
      } else if CallerOf(l) != Some(t) {
        OtherCallerInv(before, st, l, t);
      } else if l.Step? {
        OwnStepInv(before, st, t);
      } else {
        OwnTroubleInv(before, st, l, t);
      }
    }
  }

  lemma NextDispatch(st: State, r: Err)
    requires Enabled(st, Dispatch(r))
    ensures Next(st, Dispatch(r)) == DispatchNext(st, r)
  {
  }

  /** Tasks stay; a new one is the next. */
  lemma NewTaskOnly(st: State, l: Label)
    requires Enabled(st, l)
    ensures |st.tasks| <= |Next(st, l).tasks|
    ensures |Next(st, l).tasks| > |st.tasks| ==> l.NewTask? && |Next(st, l).tasks| == |st.tasks| + 1
    ensures CallerOf(l).Some? ==> CallerOf(l).value < |st.tasks|
    ensures Next(st, l).disable <==> st.disable || l == Close
  {
    if l.Dispatch? { ReaderKeepsTasks(st, l.r); }
    if l.Step? { StepKeepsTasks(st, l.t); }
  }

  lemma HistoryStep(before: seq<Label>, st: State, l: Label)
    requires Inv(st) && HistoryInv(before, st) && Enabled(st, l)
    ensures HistoryInv(before + [l], Next(st, l))
  {
    StepInv(st, l);
    NewTaskOnly(st, l);
    hide Inv, CallerInv, Next, Enabled;
    var t, now := Next(st, l), before + [l];
    forall i | 0 <= i < |now| && CallerOf(now[i]).Some? ensures CallerOf(now[i]).value < |t.tasks| {
      if i < |before| { assert now[i] == before[i]; }
    }
    forall u | 0 <= u < |t.tasks| ensures CallerInv(now, t, u) { CallerStepInv(before, st, l, u); }
  }

  lemma {:induction false} HistoryRuns(before: seq<Label>, st: State, trace: seq<Label>, t: State)
    requires Inv(st) && HistoryInv(before, st) && Leads(st, trace, t)
    ensures HistoryInv(before + trace, t)
    decreases |trace|
  {
    hide Inv, HistoryInv, Next, Enabled;
    if trace == [] {
      assert before + [] == before;
    } else {
      StepInv(st, trace[0]);
      HistoryStep(before, st, trace[0]);
      HistoryRuns(before + [trace[0]], Next(st, trace[0]), trace[1..], t);
      assert (before + [trace[0]]) + trace[1..] == before + trace;
    }
  }

  lemma HistoryHolds(trace: seq<Label>, t: State)
    requires Leads(EMPTY, trace, t)
    ensures Inv(t) && HistoryInv(trace, t)
  {
    assert Inv(EMPTY) && HistoryInv([], EMPTY);
    hide Inv, HistoryInv, Leads;
    ReachableInv(EMPTY, trace, t);
    HistoryRuns([], EMPTY, trace, t);
    assert [] + trace == trace;
  }

  /** The result of a caller, on every schedule. It is `ErrIsDisable` exactly if it started after the
      context was closed, and then its callback never runs; the write error if its write failed. Otherwise
      `NowaitCb` returns nil, and `WaitCb` times out or returns what its callback, run once, returned. After
      an error of `WaitCb` its task is over: disabled, stopped and no longer registered. */
  lemma ResultExactly(trace: seq<Label>, st: State, t: nat)
    requires Leads(EMPTY, trace, st) && t < |st.tasks| && st.tasks[t].pc.Returned?
    ensures var k, e := st.tasks[t], st.tasks[t].pc.e;
      && (Refused(trace, t) ==> e == IsDisable && k.runs == 0)
      && (!Refused(trace, t) && WriteFails(t) in trace ==> e == WriteFailed)
      && (Untroubled(trace, t) && k.kind.Nowait? ==> e == Nil)
      && (!Refused(trace, t) && TimesOut(t) in trace ==> k.kind.Wait? && e == Timeout)
      && (Untroubled(trace, t) && k.kind.Wait? ==> k.runs == 1 && k.result == Some(e))
      && (k.kind.Wait? && !e.Nil? ==> k.disable && k.stop && k.id !in st.taskMap)
  {
    HistoryHolds(trace, st);
    assert CallerInv(trace, st, t) && TaskInv(st, t);
    hide Inv, Refused;
  }

  // ---- What the callbacks returned ---------------------------------------------------------------

  /** Each run on record is the one run of its task, with its result. */
  predicate RunsRecorded(st: State) {
    forall i | 0 <= i < |st.fates| && st.fates[i].Ran? ::
      && st.fates[i].t < |st.tasks|
      && st.tasks[st.fates[i].t].runs == 1 && st.tasks[st.fates[i].t].result == Some(st.fates[i].r)
  }

  lemma CallersKeepRuns(st: State, l: Label, t: nat)
    requires Enabled(st, l) && !l.Dispatch? && t < |st.tasks|
    ensures t < |Next(st, l).tasks| && Next(st, l).fates == st.fates
    ensures Next(st, l).tasks[t].runs == st.tasks[t].runs && Next(st, l).tasks[t].result == st.tasks[t].result
  {
  }

  lemma NewFate(st: State, r: Err)
    requires Inv(st) && Enabled(st, Dispatch(r))
    ensures var n := DispatchNext(st, r);
      forall i | 0 <= i < |n.fates| && n.fates[i].Ran? && !(i < |st.fates| && n.fates[i] == st.fates[i]) ::
        && st.reader.Send? && n.fates[i].t == st.reader.t < |st.tasks| && n.fates[i].r == st.reader.r
        && st.tasks[st.reader.t].runs == 1 && st.tasks[st.reader.t].result == Some(st.reader.r)
  {
    if st.reader.Send? { assert TaskInv(st, st.reader.t); }
    hide Inv;
  }

  lemma RecordedStep(st: State, l: Label)
    requires Inv(st) && RunsRecorded(st) && Enabled(st, l)
    ensures RunsRecorded(Next(st, l))
  {
    StepInv(st, l);
    if l.Dispatch? {
      var n := Next(st, l);
      NextDispatch(st, l.r);
      NewFate(st, l.r);
      ReaderKeepsTasks(st, l.r);
      forall i | 0 <= i < |n.fates| && n.fates[i].Ran?
        ensures n.fates[i].t < |n.tasks| && n.tasks[n.fates[i].t].runs == 1
        ensures n.tasks[n.fates[i].t].result == Some(n.fates[i].r)
      {
        var t := n.fates[i].t;
        assert TaskInv(st, t) && TaskInv(n, t);
        hide Inv, TaskInv, DispatchNext, Next, Enabled;
        ReaderStep(st, l.r, t);
      }
    } else {
      hide Inv, Next, Enabled;
      if st.tasks == [] { NewTaskOnly(st, l); NoFates(st, l); }
      forall t | 0 <= t < |st.tasks|
        ensures t < |Next(st, l).tasks| && Next(st, l).fates == st.fates
        ensures Next(st, l).tasks[t].runs == st.tasks[t].runs && Next(st, l).tasks[t].result == st.tasks[t].result
      {
        CallersKeepRuns(st, l, t);
      }
    }
  }

  lemma NoFates(st: State, l: Label)
    requires Enabled(st, l) && !l.Dispatch?
    ensures Next(st, l).fates == st.fates
  {
  }

  lemma {:induction false} RecordedRuns(st: State, trace: seq<Label>, t: State)
    requires Inv(st) && RunsRecorded(st) && Leads(st, trace, t)
    ensures RunsRecorded(t)
    decreases |trace|
  {
    hide Inv, RunsRecorded, Next, Enabled;
    if trace != [] {
      RecordedStep(st, trace[0]);
      StepInv(st, trace[0]);
      RecordedRuns(Next(st, trace[0]), trace[1..], t);
    }
  }

  /** A message given to a task's callback is the one `WaitCb` returns the result for. */
  lemma ResultOfItsMessage(trace: seq<Label>, st: State, n: nat)
    requires Leads(EMPTY, trace, st) && n < |st.fates| && st.fates[n].Ran?
    ensures var f := st.fates[n];
      && f.t < |st.tasks| && n < |st.received| && f.m == st.received[n] && st.tasks[f.t].id == f.m.id
      && st.tasks[f.t].runs == 1 && st.tasks[f.t].result == Some(f.r)
  {
    assert Inv(EMPTY) && RunsRecorded(EMPTY);
    hide Inv, Leads;
    RecordedRuns(EMPTY, trace, st);
    DispatchIsSafe(trace, st);
  }

  // ---- After OverTask ------------------------------------------------------------------------------

  /** Task t is over, and the reader is not about to run its callback. */
  predicate Over(st: State, t: nat) {
    t < |st.tasks| && st.tasks[t].disable && !(st.reader.Run? && st.reader.t == t)
  }

  lemma OverReader(st: State, r: Err, t: nat)
    requires Over(st, t) && Enabled(st, Dispatch(r))
    ensures Over(DispatchNext(st, r), t) && DispatchNext(st, r).tasks[t].runs == st.tasks[t].runs
  {
    ReaderKeepsTasks(st, r);
  }

  lemma OverCaller(st: State, l: Label, t: nat)
    requires Over(st, t) && Enabled(st, l) && !l.Dispatch?
    ensures Over(Next(st, l), t) && Next(st, l).tasks[t].runs == st.tasks[t].runs
  {
  }

  /** Once `OverTask` has disabled a task, its callback is not started any more. */
  lemma {:induction false} NoRunAfterOver(st: State, more: seq<Label>, u: State, t: nat)
    requires Leads(st, more, u) && Over(st, t)
    ensures Over(u, t) && u.tasks[t].runs == st.tasks[t].runs
    decreases |more|
  {
    hide Over, Next, Enabled;
    if more != [] {
      assert t < |st.tasks| by { OverIs(st, t); }
      if more[0].Dispatch? {
        NextDispatch(st, more[0].r);
        OverReader(st, more[0].r, t);
      } else {
        OverCaller(st, more[0], t);
      }
      NoRunAfterOver(Next(st, more[0]), more[1..], u, t);
    } else {
      OverIs(st, t);
    }
  }

  lemma OverIs(st: State, t: nat)
    requires Over(st, t)
    ensures t < |st.tasks|
  {
  }

  // ---- Callers get on ------------------------------------------------------------------------------

  /** How many statements a caller still has at most. */
  function StatementsLeft(pc: Pc): nat {
    match pc
    case LoadDisable => 8
    case SetCb => 7
    case StoreMap => 6
    case WriteReq => 5
    case Select => 4
    case OverStop(_) => 3
    case OverDisable(_) => 2
    case OverDelete(_) => 1
    case Returned(_) => 0
  }

  function OwnLabels(trace: seq<Label>, t: nat): nat {
    if trace == [] then 0 else OwnLabels(trace[1..], t) + if CallerOf(trace[0]) == Some(t) then 1 else 0
  }

  lemma OwnLabelCounts(st: State, l: Label, t: nat)
    requires Enabled(st, l) && CallerOf(l) == Some(t)
    ensures t < |st.tasks| == |Next(st, l).tasks|
    ensures StatementsLeft(Next(st, l).tasks[t].pc) < StatementsLeft(st.tasks[t].pc)
  {
  }

  lemma OthersKeepPc(st: State, l: Label, t: nat)
    requires Enabled(st, l) && CallerOf(l) != Some(t) && t < |st.tasks|
    ensures t < |Next(st, l).tasks| && Next(st, l).tasks[t].pc == st.tasks[t].pc
  {
    if l.Dispatch? { ReaderTouches(st, l.r, t); }
  }

  /** A caller returns: it can always take its next statement, or, waiting in the select, time out; and it takes
      eight at most, whatever else happens. */
  lemma {:induction false} CallersReturn(st: State, trace: seq<Label>, u: State, t: nat)
    requires Leads(st, trace, u) && t < |st.tasks|
    ensures t < |u.tasks|
    ensures OwnLabels(trace, t) + StatementsLeft(u.tasks[t].pc) <= StatementsLeft(st.tasks[t].pc) <= 8
    ensures u.tasks[t].pc.Returned? || Enabled(u, Step(t)) || (u.tasks[t].pc.Select? && Enabled(u, TimesOut(t)))
    decreases |trace|
  {
    if trace != [] {
      var l := trace[0];
      if CallerOf(l) == Some(t) { OwnLabelCounts(st, l, t); } else { OthersKeepPc(st, l, t); }
      hide Next, Enabled, CallerOf, StatementsLeft;
      CallersReturn(Next(st, l), trace[1..], u, t);
    }
  }
}
