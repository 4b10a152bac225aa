/** The client's `DeviceBox` shutting down: `Close` against goroutines waiting for the stop token, the
    listener of `ListenSubBox`, and goroutines handing over sub-connections (`listenSub`, `setSubBox`). */
module BoxShutdown {
  import opened Bytes

  /** The body of the Once in `Close`, by its next step. Ranging: the subs its Range has still to visit. */
  datatype Closer = NotBegun | SendStop | TakeLock | SetDisable | LoadListen | SendListen
                  | Ranging(todo: set<nat>) | Finished

  /** A caller of `Wait`, or the goroutine of `asyncWaitSendAndPing`. */
  datatype Waiter = Waiting | Holding | Gone

  datatype Listener = NotListening | ChannelsMade | Listening | ListenHolding | Returned

  /** A goroutine with a fresh sub: in the final select of `listenSub`; with the stop token from it; about to
      close the sub because of that; before, under and after the lock in `setSubBox`. */
  datatype Attach = Selecting | AttachHolding | Rejecting | Rejected
                  | BeforeLock | Loading | Storing | Leaving | Attached

  datatype Owner = Nobody | Closing | Attaching(i: nat)

  /** stop and listenStop count the tokens in the two channels, each of capacity one; sawListen is
      what `Close` read from isListen, byUser the subs their user has closed. */
  datatype State = State(
    closer: Closer, stop: nat, listenStop: nat, lock: Owner, disable: bool, isListen: bool, sawListen: bool,
    waiters: seq<Waiter>, listener: Listener, attach: seq<Attach>, closed: seq<bool>, subMap: set<nat>,
    byUser: set<nat>)

  const CAPACITY := 1

  datatype Label = Begin | CloseStep | CloseSub(i: nat)
                 | Take(w: nat) | PutBack(w: nat)
                 | MakeChannels | MarkListen | ListenTake | ListenPutBack
                 | Push(i: nat) | SelectStop(i: nat) | AttachPutBack(i: nat) | Reject(i: nat)
                 | Lock(i: nat) | LoadDisable(i: nat) | Store(i: nat) | Unlock(i: nat)
                 | UserClose(i: nat)

  /** Subs handed over by `listenSub` start in its select, those opened by `GetSubBox` before the lock. */
  predicate Initial(st: State) {
    && st.closer.NotBegun? && st.stop == 0 && st.listenStop == 0 && st.lock.Nobody?
    && !st.disable && !st.isListen && !st.sawListen && st.listener.NotListening? && st.subMap == {}
    && (forall w | 0 <= w < |st.waiters| :: st.waiters[w].Waiting?)
    && |st.closed| == |st.attach| && (forall i | 0 <= i < |st.closed| :: !st.closed[i]) && st.byUser == {}
    && forall i | 0 <= i < |st.attach| :: st.attach[i].Selecting? || st.attach[i].BeforeLock?
  }

  predicate At(st: State, i: nat, a: Attach) {
    i < |st.attach| && |st.closed| == |st.attach| && st.attach[i] == a
  }

  predicate WaiterAt(st: State, w: nat, x: Waiter) {
    w < |st.waiters| && st.waiters[w] == x
  }

  predicate Enabled(st: State, l: Label) {
    match l
    case Begin => st.closer.NotBegun?
    case CloseStep =>
      (match st.closer
       case SendStop => st.stop < CAPACITY
       case TakeLock => st.lock.Nobody?
       case SetDisable => true
       case LoadListen => true
       case SendListen => st.listenStop < CAPACITY
       case Ranging(todo) => todo == {}
       case _ => false)
    case CloseSub(i) => st.closer.Ranging? && i in st.closer.todo && i < |st.closed|
    case Take(w) => WaiterAt(st, w, Waiting) && st.stop > 0
    case PutBack(w) => WaiterAt(st, w, Holding) && st.stop < CAPACITY
    case MakeChannels => st.listener.NotListening?
    case MarkListen => st.listener.ChannelsMade?
    case ListenTake => st.listener.Listening? && st.listenStop > 0
    case ListenPutBack => st.listener.ListenHolding? && st.listenStop < CAPACITY
    case Push(i) => At(st, i, Selecting) && !st.listener.NotListening?
    case SelectStop(i) => At(st, i, Selecting) && !st.listener.NotListening? && st.listenStop > 0
    case AttachPutBack(i) => At(st, i, AttachHolding) && st.listenStop < CAPACITY
    case Reject(i) => At(st, i, Rejecting)
    case Lock(i) => At(st, i, BeforeLock) && st.lock.Nobody?
    case LoadDisable(i) => At(st, i, Loading)
    case Store(i) => At(st, i, Storing)
    case Unlock(i) => At(st, i, Leaving)
    case UserClose(i) => i < |st.closed|
  }

  function Goto(st: State, i: nat, a: Attach): (r: State)
    requires i < |st.attach|
    ensures |r.attach| == |st.attach| && r == st.(attach := r.attach)
  {
    st.(attach := st.attach[i := a])
  }

  /** `SubBox.Close`: only the first one, inside the sub's Once, deletes the sub from the map. It is one step,
      the deletion; a later caller waits for the Once and does nothing. */
  function CloseOne(st: State, i: nat): (r: State)
    requires i < |st.closed|
    ensures |r.closed| == |st.closed| && r == st.(closed := r.closed, subMap := r.subMap)
  {
    if st.closed[i] then st else st.(closed := st.closed[i := true], subMap := st.subMap - {i})
  }

  function Next(st: State, l: Label): State
    requires Enabled(st, l)
  {
    match l
    case Begin => st.(closer := SendStop)
    case CloseStep =>
      (match st.closer
       case SendStop => st.(stop := st.stop + 1, closer := TakeLock)
       case TakeLock => st.(lock := Closing, closer := SetDisable)
       case SetDisable => st.(disable := true, closer := LoadListen)
       case LoadListen =>
         st.(sawListen := st.isListen, closer := if st.isListen then SendListen else Ranging(st.subMap))
       case SendListen => st.(listenStop := st.listenStop + 1, closer := Ranging(st.subMap))
       case Ranging(_) => st.(lock := Nobody, closer := Finished))
    case CloseSub(i) => CloseOne(st, i).(closer := Ranging(st.closer.todo - {i}))
    case Take(w) => st.(stop := st.stop - 1, waiters := st.waiters[w := Holding])
    case PutBack(w) => st.(stop := st.stop + 1, waiters := st.waiters[w := Gone])
    case MakeChannels => st.(listener := ChannelsMade)
    case MarkListen => st.(listener := Listening, isListen := true)
    case ListenTake => st.(listenStop := st.listenStop - 1, listener := ListenHolding)
    case ListenPutBack => st.(listenStop := st.listenStop + 1, listener := Returned)
    case Push(i) => Goto(st, i, BeforeLock)
    case SelectStop(i) => Goto(st, i, AttachHolding).(listenStop := st.listenStop - 1)
    case AttachPutBack(i) => Goto(st, i, Rejecting).(listenStop := st.listenStop + 1)
    case Reject(i) => CloseOne(Goto(st, i, Rejected), i)
    case Lock(i) => Goto(st, i, Loading).(lock := Attaching(i))
    case LoadDisable(i) =>
      if st.disable then CloseOne(Goto(st, i, Leaving), i) else Goto(st, i, Storing)
    case Store(i) => Goto(st, i, Leaving).(subMap := st.subMap + {i})
    case Unlock(i) => Goto(st, i, Attached).(lock := Nobody)
    case UserClose(i) => CloseOne(st, i).(byUser := st.byUser + {i})
  }

  predicate Leads(st: State, trace: seq<Label>, t: State)
    decreases |trace|
  {
    if trace == [] then t == st
    else Enabled(st, trace[0]) && Leads(Next(st, trace[0]), trace[1..], t)
  }

  // ---- What the steps touch -------------------------------------------------------------------

  /** Steps of waiters and of the listener, and the start of `Close`. */
  predicate Aside(l: Label) {
    l.Begin? || l.Take? || l.PutBack? || l.MakeChannels? || l.MarkListen? || l.ListenTake? || l.ListenPutBack?
  }

  lemma AsideStep(st: State, l: Label)
    requires Enabled(st, l) && Aside(l)
    ensures var t := Next(st, l);
      && t.lock == st.lock && t.disable == st.disable && t.attach == st.attach && t.closed == st.closed
      && t.subMap == st.subMap && t.byUser == st.byUser
      && (t.closer == st.closer || (st.closer.NotBegun? && t.closer.SendStop?))
  {
  }

  /** The steps of `Close`, and a user's close. */
  predicate OfClose(l: Label) {
    l.CloseStep? || l.CloseSub? || l.UserClose?
  }

  /** The sub whose goroutine steps, and where it goes. */
  function Target(st: State, l: Label): Option<(nat, Attach)> {
    match l
    case Push(i) => Some((i, BeforeLock))
    case SelectStop(i) => Some((i, AttachHolding))
    case AttachPutBack(i) => Some((i, Rejecting))
    case Reject(i) => Some((i, Rejected))
    case Lock(i) => Some((i, Loading))
    case LoadDisable(i) => Some((i, if st.disable then Leaving else Storing))
    case Store(i) => Some((i, Leaving))
    case Unlock(i) => Some((i, Attached))
    case _ => None
  }

  lemma AttachStep(st: State, l: Label)
    requires Enabled(st, l) && Target(st, l).Some?
    ensures var (i, a) := Target(st, l).value;
      var t := Next(st, l);
      && i < |st.attach| == |st.closed| && t.attach == st.attach[i := a]
      && t.closer == st.closer && t.disable == st.disable && t.byUser == st.byUser
      && |t.closed| == |st.closed| && (forall j | 0 <= j < |st.closed| && j != i :: t.closed[j] == st.closed[j])
      && (forall j | j != i :: j in t.subMap <==> j in st.subMap)
      && t.closed[i] == (st.closed[i] || l.Reject? || (l.LoadDisable? && st.disable))
      && (i in t.subMap <==> (if l.Store? then true else i in st.subMap && (st.closed[i] || !t.closed[i])))
      && t.lock == (if l.Lock? then Attaching(i) else if l.Unlock? then Nobody else st.lock)
  {
  }

  /** Where the goroutine of a sub comes from. */
  lemma AttachMoves(st: State, l: Label)
    requires Enabled(st, l) && Target(st, l).Some?
    ensures var x := st.attach[Target(st, l).value.0];
      && (l.Push? || l.SelectStop? ==> x.Selecting?) && (l.AttachPutBack? ==> x.AttachHolding?)
      && (l.Reject? ==> x.Rejecting?) && (l.Lock? ==> x.BeforeLock? && st.lock.Nobody?)
      && (l.LoadDisable? ==> x.Loading?) && (l.Store? ==> x.Storing?) && (l.Unlock? ==> x.Leaving?)
  {
  }

  lemma Groups(l: Label, st: State)
    ensures Aside(l) || OfClose(l) || Target(st, l).Some?
  {
  }

  // ---- Tokens -------------------------------------------------------------------------------

  function WaitersHolding(ws: seq<Waiter>): nat {
    if ws == [] then 0 else WaitersHolding(ws[1..]) + if ws[0].Holding? then 1 else 0
  }

  function AttachHolders(xs: seq<Attach>): nat {
    if xs == [] then 0 else AttachHolders(xs[1..]) + if xs[0].AttachHolding? then 1 else 0
  }

  lemma {:induction false} WaitersUpdate(ws: seq<Waiter>, i: nat, x: Waiter)
    requires i < |ws|
    ensures WaitersHolding(ws[i := x]) + (if ws[i].Holding? then 1 else 0)
         == WaitersHolding(ws) + (if x.Holding? then 1 else 0)
    ensures ws[i].Holding? ==> WaitersHolding(ws) >= 1
  {
    if i == 0 {
      assert ws[i := x][1..] == ws[1..];
    } else {
      WaitersUpdate(ws[1..], i - 1, x);
      assert ws[i := x][1..] == ws[1..][i - 1 := x];
    }
  }

  lemma {:induction false} AttachUpdate(xs: seq<Attach>, i: nat, x: Attach)
    requires i < |xs|
    ensures AttachHolders(xs[i := x]) + (if xs[i].AttachHolding? then 1 else 0)
         == AttachHolders(xs) + (if x.AttachHolding? then 1 else 0)
    ensures xs[i].AttachHolding? ==> AttachHolders(xs) >= 1
  {
    if i == 0 {
      assert xs[i := x][1..] == xs[1..];
    } else {
      AttachUpdate(xs[1..], i - 1, x);
      assert xs[i := x][1..] == xs[1..][i - 1 := x];
    }
  }

  predicate StopSent(st: State) {
    !st.closer.NotBegun? && !st.closer.SendStop?
  }

  predicate ListenStopSent(st: State) {
    st.sawListen && (st.closer.Ranging? || st.closer.Finished?)
  }

  /** One token each, from the moment it is sent: in its channel or in one goroutine's hands. */
  predicate StopConserved(st: State) {
    st.stop + WaitersHolding(st.waiters) == if StopSent(st) then 1 else 0
  }

  predicate ListenStopConserved(st: State) {
    && st.listenStop + AttachHolders(st.attach) + (if st.listener.ListenHolding? then 1 else 0)
       == (if ListenStopSent(st) then 1 else 0)
    && (st.sawListen ==> st.isListen && (st.closer.SendListen? || st.closer.Ranging? || st.closer.Finished?))
    && (st.closer.SendListen? ==> st.sawListen)
    && (st.isListen <==> !st.listener.NotListening? && !st.listener.ChannelsMade?)
    && (st.listener.Returned? ==> ListenStopSent(st))
  }

  lemma StopStep(st: State, l: Label)
    requires StopConserved(st) && Enabled(st, l)
    ensures StopConserved(Next(st, l))
  {
    match l
    case Take(w) => WaitersUpdate(st.waiters, w, Holding);
    case PutBack(w) => WaitersUpdate(st.waiters, w, Gone);
    case _ =>
  }

  /** The step of a sub's goroutine takes the token out of the channel, puts it back, or lets it alone. */
  lemma AttachToken(st: State, l: Label)
    requires Enabled(st, l) && Target(st, l).Some?
    ensures var (i, a) := Target(st, l).value;
      var t := Next(st, l);
      && i < |st.attach| && t.attach == st.attach[i := a]
      && t.closer == st.closer && t.listener == st.listener && t.isListen == st.isListen && t.sawListen == st.sawListen
      && t.listenStop + (if a.AttachHolding? then 1 else 0)
         == st.listenStop + (if st.attach[i].AttachHolding? then 1 else 0)
  {
  }

  lemma ListenStopOther(st: State, l: Label)
    requires ListenStopConserved(st) && Enabled(st, l) && Target(st, l).None?
    ensures ListenStopConserved(Next(st, l))
  {
    hide AttachHolders;
  }

  lemma ListenStopStep(st: State, l: Label)
    requires ListenStopConserved(st) && Enabled(st, l)
    ensures ListenStopConserved(Next(st, l))
  {
    hide AttachHolders, Enabled, Next, Target;
    var x := Target(st, l);
    if x.Some? {
      AttachToken(st, l);
      AttachUpdate(st.attach, x.value.0, x.value.1);
    } else {
      ListenStopOther(st, l);
    }
  }

  // ---- The lock, disable and the sub map --------------------------------------------------------

  predicate UnderLock(a: Attach) {
    a.Loading? || a.Storing? || a.Leaving?
  }

  /** The part of LockInv about one goroutine. */
  predicate LockOk(st: State, i: nat) {
    i < |st.attach| && (UnderLock(st.attach[i]) <==> st.lock == Attaching(i))
  }

  predicate CloserInv(st: State) {
    && |st.closed| == |st.attach|
    && (st.lock.Closing? <==>
          st.closer.SetDisable? || st.closer.LoadListen? || st.closer.SendListen? || st.closer.Ranging?)
    && (st.lock.Attaching? ==> st.lock.i < |st.attach|)
  }

  predicate LockInv(st: State) {
    CloserInv(st) && forall i | 0 <= i < |st.attach| :: LockOk(st, i)
  }

  predicate DisableInv(st: State) {
    st.disable <==>
      st.closer.LoadListen? || st.closer.SendListen? || st.closer.Ranging? || st.closer.Finished?
  }

  /** Sub i is not about to be stored under a set disable, once it has left `setSubBox` it is stored or
      closed, and `Close` leaves it in the map only closed. */
  predicate SubOk(st: State, i: nat) {
    && i < |st.attach| == |st.closed|
    && (st.attach[i].Storing? ==> !st.disable)
    && (st.attach[i].Leaving? || st.attach[i].Attached? ==> i in st.subMap || st.closed[i])
    && (st.attach[i].Rejected? ==> st.closed[i])
    && (st.closer.Ranging? && i in st.subMap ==> i in st.closer.todo || st.closed[i])
    && (st.closer.Finished? && i in st.subMap ==> st.closed[i])
  }

  predicate SubInv(st: State) {
    && |st.closed| == |st.attach|
    && (forall i | i in st.subMap :: i < |st.attach|)
    && (st.closer.Ranging? ==> forall i | i in st.closer.todo :: i < |st.attach|)
    && (forall i | 0 <= i < |st.attach| :: SubOk(st, i))
  }

  /** Before `Close` sets disable, a sub is closed by its user only, and none is rejected. */
  predicate OpenOk(st: State, i: nat) {
    && i < |st.attach| == |st.closed|
    && (!st.disable ==>
          && (st.closed[i] <==> i in st.byUser)
          && !st.attach[i].AttachHolding? && !st.attach[i].Rejecting? && !st.attach[i].Rejected?)
  }

  predicate OpenInv(st: State) {
    |st.closed| == |st.attach| && forall i | 0 <= i < |st.attach| :: OpenOk(st, i)
  }

  predicate Inv(st: State) {
    OpenInv(st) && StopConserved(st) && ListenStopConserved(st) && LockInv(st) && DisableInv(st) && SubInv(st)
  }

  lemma LockOkStep(st: State, l: Label, i: nat)
    requires CloserInv(st) && LockOk(st, i) && Enabled(st, l)
    requires forall j | 0 <= j < |st.attach| :: LockOk(st, j)
    ensures LockOk(Next(st, l), i)
  {
    Groups(l, st);
    if Aside(l) {
      AsideStep(st, l);
      hide Next, Enabled;
    } else if Target(st, l).Some? {
      AttachStep(st, l);
      assert LockOk(st, Target(st, l).value.0);
      AttachMoves(st, l);
      hide Next, Enabled, Goto, CloseOne;
    } else {
      hide UnderLock;
    }
  }

  lemma CloserStep(st: State, l: Label)
    requires CloserInv(st) && Enabled(st, l)
    requires forall j | 0 <= j < |st.attach| :: LockOk(st, j)
    ensures CloserInv(Next(st, l)) && |Next(st, l).attach| == |st.attach|
  {
    Groups(l, st);
    if Aside(l) {
      AsideStep(st, l);
      hide Next, Enabled;
    } else if Target(st, l).Some? {
      AttachStep(st, l);
      assert LockOk(st, Target(st, l).value.0);
      AttachMoves(st, l);
      hide Next, Enabled, Goto, CloseOne;
    } else {
      hide LockOk, UnderLock;
    }
  }

  lemma LockStep(st: State, l: Label)
    requires LockInv(st) && Enabled(st, l)
    ensures LockInv(Next(st, l))
  {
    CloserStep(st, l);
    hide Next, Enabled, LockOk, CloserInv;
    forall i | 0 <= i < |st.attach| ensures LockOk(Next(st, l), i) { LockOkStep(st, l, i); }
  }

  lemma DisableStep(st: State, l: Label)
    requires DisableInv(st) && Enabled(st, l)
    ensures DisableInv(Next(st, l))
  {
  }

  /** Nobody is about to store when `Close` sets disable: `Close` has the lock. */
  lemma NotStoring(st: State, i: nat)
    requires LockOk(st, i) && CloserInv(st)
    ensures st.closer.SetDisable? ==> !st.attach[i].Storing?
  {
  }

  lemma SubOkStep(st: State, l: Label, i: nat)
    requires SubOk(st, i) && LockOk(st, i) && CloserInv(st) && DisableInv(st) && Enabled(st, l)
    ensures SubOk(Next(st, l), i)
  {
    NotStoring(st, i);
    hide LockOk, CloserInv;
    Groups(l, st);
    if Aside(l) {
      AsideStep(st, l);
      hide Next, Enabled;
    } else if Target(st, l).Some? {
      AttachStep(st, l);
      AttachMoves(st, l);
      hide Next, Enabled, Goto, CloseOne;
    } else {
    }
  }

  lemma SubMapStep(st: State, l: Label)
    requires SubInv(st) && Enabled(st, l)
    ensures var t := Next(st, l);
      && |t.closed| == |t.attach| == |st.attach|
      && (forall i | i in t.subMap :: i < |t.attach|)
      && (t.closer.Ranging? ==> forall i | i in t.closer.todo :: i < |t.attach|)
  {
    hide SubOk;
    Groups(l, st);
    if Aside(l) {
      AsideStep(st, l);
      hide Next, Enabled;
    } else if Target(st, l).Some? {
      AttachStep(st, l);
      hide Next, Enabled, Goto, CloseOne;
    } else {
    }
  }

  lemma SubStep(st: State, l: Label)
    requires SubInv(st) && LockInv(st) && DisableInv(st) && Enabled(st, l)
    ensures SubInv(Next(st, l))
  {
    SubMapStep(st, l);
    hide Next, Enabled, LockOk, CloserInv, DisableInv, SubOk;
    forall i | 0 <= i < |st.attach| ensures SubOk(Next(st, l), i) { SubOkStep(st, l, i); }
  }

  lemma NoTokenYet(st: State)
    requires ListenStopConserved(st) && DisableInv(st) && st.listenStop > 0
    ensures st.disable
  {
  }

  lemma OpenOkStep(st: State, l: Label, i: nat)
    requires OpenOk(st, i) && DisableInv(st) && Enabled(st, l)
    requires l.SelectStop? ==> st.disable
    ensures OpenOk(Next(st, l), i)
  {
    Groups(l, st);
    if Aside(l) {
      AsideStep(st, l);
      hide Next, Enabled;
    } else if Target(st, l).Some? {
      AttachStep(st, l);
      AttachMoves(st, l);
      hide Next, Enabled, Goto, CloseOne;
    } else {
    }
  }

  lemma OpenStep(st: State, l: Label)
    requires OpenInv(st) && ListenStopConserved(st) && DisableInv(st) && Enabled(st, l)
    ensures OpenInv(Next(st, l))
  {
    if l.SelectStop? { NoTokenYet(st); }
    SameSubs(st, l);
    hide Next, Enabled, OpenOk, ListenStopConserved, DisableInv;
    forall i | 0 <= i < |st.attach| ensures OpenOk(Next(st, l), i) { OpenOkStep(st, l, i); }
  }

  lemma SameSubs(st: State, l: Label)
    requires Enabled(st, l)
    ensures |Next(st, l).attach| == |st.attach| && |Next(st, l).closed| == |st.closed|
  {
    Groups(l, st);
    if Aside(l) {
      AsideStep(st, l);
      hide Next, Enabled;
    } else if Target(st, l).Some? {
      AttachStep(st, l);
      hide Next, Enabled, Goto, CloseOne;
    } else {
    }
  }

  lemma InitInv(st: State)
    requires Initial(st)
    ensures Inv(st)
  {
    NobodyHolds(st.waiters, st.attach);
  }

  lemma {:induction false} NobodyHolds(ws: seq<Waiter>, xs: seq<Attach>)
    requires forall w | 0 <= w < |ws| :: ws[w].Waiting?
    requires forall i | 0 <= i < |xs| :: !xs[i].AttachHolding?
    ensures WaitersHolding(ws) == 0 && AttachHolders(xs) == 0
  {
    if ws != [] {
      NobodyHolds(ws[1..], xs);
    } else if xs != [] {
      NobodyHolds(ws, xs[1..]);
    }
  }

  lemma {:induction false} InvHolds(st: State, trace: seq<Label>, t: State)
    requires Inv(st) && Leads(st, trace, t)
    ensures Inv(t)
    decreases |trace|
  {
    hide Next, Enabled, StopConserved, ListenStopConserved, LockInv, DisableInv, SubInv, OpenInv;
    if trace != [] {
      StopStep(st, trace[0]);
      ListenStopStep(st, trace[0]);
      LockStep(st, trace[0]);
      SubStep(st, trace[0]);
      DisableStep(st, trace[0]);
      OpenStep(st, trace[0]);
      InvHolds(Next(st, trace[0]), trace[1..], t);
    }
  }

  lemma {:induction false} SomeoneHolds(xs: seq<Attach>) returns (i: nat)
    requires AttachHolders(xs) > 0
    ensures i < |xs| && xs[i].AttachHolding?
  {
    if xs[0].AttachHolding? {
      i := 0;
    } else {
      var j := SomeoneHolds(xs[1..]);
      i := j + 1;
    }
  }

  /** Stop tokens are conserved on every run, with any number of waiters: none before `Close`
      sends, exactly one after, in the channel or held. So neither sending nor putting back can block. */
  lemma TokensConserved(st: State, trace: seq<Label>, t: State)
    requires Initial(st) && Leads(st, trace, t)
    ensures t.stop + WaitersHolding(t.waiters) == if StopSent(t) then 1 else 0
    ensures t.listenStop + AttachHolders(t.attach) + (if t.listener.ListenHolding? then 1 else 0)
         == if ListenStopSent(t) then 1 else 0
    ensures forall w | 0 <= w < |t.waiters| && t.waiters[w].Holding? :: Enabled(t, PutBack(w))
    ensures forall i | 0 <= i < |t.attach| && t.attach[i].AttachHolding? :: Enabled(t, AttachPutBack(i))
    ensures t.listener.ListenHolding? ==> Enabled(t, ListenPutBack)
    ensures t.closer.SendStop? || t.closer.SendListen? ==> Enabled(t, CloseStep)
  {
    InitInv(st);
    InvHolds(st, trace, t);
    hide WaitersHolding, AttachHolders, Leads;
    forall w | 0 <= w < |t.waiters| && t.waiters[w].Holding? ensures t.stop < CAPACITY {
      WaitersUpdate(t.waiters, w, Holding);
    }
    forall i | 0 <= i < |t.attach| && t.attach[i].AttachHolding? ensures t.listenStop < CAPACITY {
      AttachUpdate(t.attach, i, AttachHolding);
    }
  }

  /** Every waiter can leave once `Close` has sent the token: it has left, or holds the token and can put
      it back, or the token is there for it, or the one waiter that holds it can put it back; so some
      continuation lets it leave. */
  lemma WaitersLeave(st: State, trace: seq<Label>, t: State, w: nat)
    requires Initial(st) && Leads(st, trace, t) && StopSent(t) && w < |t.waiters|
    ensures t.waiters[w].Gone? || Enabled(t, PutBack(w)) || Enabled(t, Take(w))
         || exists v :: Enabled(t, PutBack(v))
    ensures exists more, u :: Leads(t, more, u) && WaiterAt(u, w, Gone)
  {
    TokensConserved(st, trace, t);
    if t.waiters[w].Gone? { assert Leads(t, [], t); }
    hide Leads;
    if t.waiters[w].Holding? {
      var more, u := HolderLeaves(t, w);
    } else if t.waiters[w].Waiting? {
      if t.stop > 0 {
        var more, u := TakerLeaves(t, w);
      } else {
        var v := WaiterHolds(t.waiters);
        assert Enabled(t, PutBack(v));
        var n := Next(t, PutBack(v));
        var more, u := TakerLeaves(n, w);
        Cons(t, PutBack(v), n, more, u);
      }
    }
  }

  lemma HolderLeaves(t: State, w: nat) returns (more: seq<Label>, u: State)
    requires Enabled(t, PutBack(w))
    ensures Leads(t, more, u) && WaiterAt(u, w, Gone)
  {
    u := Next(t, PutBack(w));
    assert Leads(u, [], u);
    hide Leads;
    Cons(t, PutBack(w), u, [], u);
    more := [PutBack(w)] + [];
  }

  lemma TakerLeaves(t: State, w: nat) returns (more: seq<Label>, u: State)
    requires Enabled(t, Take(w)) && t.stop == CAPACITY
    ensures Leads(t, more, u) && WaiterAt(u, w, Gone)
  {
    hide Leads;
    var n := Next(t, Take(w));
    more, u := HolderLeaves(n, w);
    Cons(t, Take(w), n, more, u);
    more := [Take(w)] + more;
  }

  lemma {:induction false} WaiterHolds(ws: seq<Waiter>) returns (i: nat)
    requires WaitersHolding(ws) > 0
    ensures i < |ws| && ws[i].Holding?
  {
    if ws[0].Holding? {
      i := 0;
    } else {
      var j := WaiterHolds(ws[1..]);
      i := j + 1;
    }
  }

  /** No orphan subs: when `Close` has finished, every sub in the map, and every sub whose `setSubBox` (or
      rejection) has returned, is closed. */
  lemma NoOrphanSubs(st: State, trace: seq<Label>, t: State)
    requires Initial(st) && Leads(st, trace, t) && t.closer.Finished?
    ensures |t.closed| == |t.attach|
    ensures forall i | i in t.subMap :: i < |t.attach| && t.closed[i]
    ensures forall i | 0 <= i < |t.attach| && (t.attach[i].Attached? || t.attach[i].Rejected?) :: t.closed[i]
  {
    InitInv(st);
    InvHolds(st, trace, t);
    hide StopConserved, ListenStopConserved, LockInv, DisableInv, OpenInv, Leads;
    forall i | i in t.subMap ensures i < |t.attach| && t.closed[i] { assert SubOk(t, i); }
    forall i | 0 <= i < |t.attach| && (t.attach[i].Attached? || t.attach[i].Rejected?) ensures t.closed[i] {
      assert SubOk(t, i);
    }
  }

  /** In the schedule the user closes sub i before it is stored. */
  predicate ClosedBeforeStore(trace: seq<Label>, i: nat) {
    exists j :: 0 <= j < |trace| && trace[j] == Store(i) && UserClose(i) in trace[..j]
  }

  /** Sub i was stored after it was closed: its Once, spent, will never delete it. */
  predicate Stale(st: State, i: nat) {
    i in st.subMap && i < |st.closed| && st.closed[i]
  }

  lemma StaleStep(st: State, l: Label, i: nat)
    requires Inv(st) && Enabled(st, l)
    ensures Stale(Next(st, l), i) <==> Stale(st, i) || (l == Store(i) && i in st.byUser)
  {
    if l == Store(i) { assert SubOk(st, i) && OpenOk(st, i); }
    hide Inv, SubOk, OpenOk;
    Groups(l, st);
    if Aside(l) {
      AsideStep(st, l);
      hide Next, Enabled;
    } else if Target(st, l).Some? {
      AttachStep(st, l);
      AttachMoves(st, l);
      hide Next, Enabled, Goto, CloseOne;
    }
  }

  lemma ByUserStep(st: State, l: Label, i: nat)
    requires Enabled(st, l)
    ensures i in Next(st, l).byUser <==> i in st.byUser || l == UserClose(i)
  {
    Groups(l, st);
    if Aside(l) {
      AsideStep(st, l);
      hide Next, Enabled;
    } else if Target(st, l).Some? {
      AttachStep(st, l);
      hide Next, Enabled, Goto, CloseOne;
    } else {
    }
  }

  /** The same, counting closes by the user before the schedule begins. */
  predicate StoredLate(trace: seq<Label>, i: nat, before: bool) {
    exists j :: 0 <= j < |trace| && trace[j] == Store(i) && (before || UserClose(i) in trace[..j])
  }

  lemma InTake(trace: seq<Label>, x: Label, j: nat)
    requires 0 < j <= |trace|
    ensures x in trace[..j] <==> trace[0] == x || x in trace[1..][..j - 1]
  {
    assert trace[..j] == [trace[0]] + trace[1..][..j - 1];
  }

  lemma StoredLateTail(trace: seq<Label>, i: nat, before: bool)
    requires trace != [] && StoredLate(trace, i, before) && !(trace[0] == Store(i) && before)
    ensures StoredLate(trace[1..], i, before || trace[0] == UserClose(i))
  {
    var j :| 0 <= j < |trace| && trace[j] == Store(i) && (before || UserClose(i) in trace[..j]);
    assert j > 0;
    InTake(trace, UserClose(i), j);
    assert trace[1..][j - 1] == Store(i);
  }

  lemma StoredLateLonger(trace: seq<Label>, i: nat, before: bool)
    requires trace != [] && StoredLate(trace[1..], i, before || trace[0] == UserClose(i))
    ensures StoredLate(trace, i, before)
  {
    var rest, now := trace[1..], before || trace[0] == UserClose(i);
    var j :| 0 <= j < |rest| && rest[j] == Store(i) && (now || UserClose(i) in rest[..j]);
    InTake(trace, UserClose(i), j + 1);
    assert trace[j + 1] == Store(i);
  }

  lemma StoredLateCons(trace: seq<Label>, i: nat, before: bool)
    requires trace != []
    ensures StoredLate(trace, i, before)
      <==> (trace[0] == Store(i) && before) || StoredLate(trace[1..], i, before || trace[0] == UserClose(i))
  {
    if trace[0] == Store(i) && before {
      assert StoredLate(trace, i, before);
    } else {
      hide StoredLate;
      if StoredLate(trace, i, before) { StoredLateTail(trace, i, before); }
      if StoredLate(trace[1..], i, before || trace[0] == UserClose(i)) { StoredLateLonger(trace, i, before); }
    }
  }

  lemma {:induction false} StaleIs(st: State, trace: seq<Label>, t: State, i: nat)
    requires Inv(st) && Leads(st, trace, t)
    ensures Stale(t, i) <==> Stale(st, i) || StoredLate(trace, i, i in st.byUser)
    decreases |trace|
  {
    hide Inv, Next, Enabled, Stale, StoredLate;
    if trace == [] {
      NoneStored(i, i in st.byUser);
    } else {
      var n := Next(st, trace[0]);
      InvHolds(st, [trace[0]], n);
      StaleStep(st, trace[0], i);
      ByUserStep(st, trace[0], i);
      StoredLateCons(trace, i, i in st.byUser);
      StaleIs(n, trace[1..], t, i);
    }
  }

  lemma NoneStored(i: nat, before: bool)
    ensures !StoredLate([], i, before)
  {
  }

  /** What `Close` leaves in the sub map, for every schedule: exactly the subs that their user had closed
      before they were stored. Nothing will ever delete them. */
  lemma LeftInMapExactly(st: State, trace: seq<Label>, t: State, i: nat)
    requires Initial(st) && Leads(st, trace, t) && t.closer.Finished?
    ensures i in t.subMap <==> ClosedBeforeStore(trace, i)
  {
    InitInv(st);
    StaleIs(st, trace, t, i);
    NoOrphanSubs(st, trace, t);
    hide Inv, Leads;
    assert StoredLate(trace, i, false) <==> ClosedBeforeStore(trace, i);
  }

  /** Such an entry can occur: `listenSub` hands the sub to the listener, which closes it before `setSubBox`
      stores it; `Close` then visits it in vain. */
  lemma StaleEntryHappens(st: State)
    requires Initial(st) && st.attach == [Selecting]
    ensures exists trace, t :: Leads(st, trace, t) && t.closer.Finished? && t.subMap == {0}
  {
    var n := st.(listener := ChannelsMade, attach := [BeforeLock], closed := [true], byUser := {0});
    var u := n.(attach := [Attached], subMap := {0});
    var w, t := CloseInVain(u);
    w := StoreClosed(n, u, w, t);
    w := CloseAtOnce(st, n, w, t);
  }

  lemma CloseAtOnce(st: State, n: State, rest: seq<Label>, t: State) returns (w: seq<Label>)
    requires st.attach == [Selecting] && st.closed == [false] && st.subMap == {} && st.listener.NotListening?
    requires n == st.(listener := ChannelsMade, attach := [BeforeLock], closed := [true], byUser := st.byUser + {0})
    requires Leads(n, rest, t)
    ensures Leads(st, w, t)
  {
    hide Leads;
    var s1 := st.(listener := ChannelsMade);
    var s2 := s1.(attach := [BeforeLock]);
    assert st.closed[0 := true] == [true] && st.subMap - {0} == {} && st.attach[0 := BeforeLock] == [BeforeLock];
    Cons(s2, UserClose(0), n, rest, t);
    w := [UserClose(0)] + rest;
    Cons(s1, Push(0), s2, w, t);
    w := [Push(0)] + w;
    Cons(st, MakeChannels, s1, w, t);
    w := [MakeChannels] + w;
  }

  lemma StoreClosed(st: State, n: State, rest: seq<Label>, t: State) returns (w: seq<Label>)
    requires st.attach == [BeforeLock] && |st.closed| == 1 && st.subMap == {} && !st.disable && st.lock.Nobody?
    requires n == st.(attach := [Attached], subMap := {0}) && Leads(n, rest, t)
    ensures Leads(st, w, t)
  {
    hide Leads;
    var s1 := st.(attach := [Loading], lock := Attaching(0));
    w := StoreLoaded(s1, n, rest, t);
    Cons(st, Lock(0), s1, w, t);
    w := [Lock(0)] + w;
  }

  lemma StoreLoaded(st: State, n: State, rest: seq<Label>, t: State) returns (w: seq<Label>)
    requires st.attach == [Loading] && |st.closed| == 1 && st.subMap == {} && !st.disable
    requires n == st.(attach := [Attached], subMap := {0}, lock := Nobody) && Leads(n, rest, t)
    ensures Leads(st, w, t)
  {
    hide Leads;
    var s2 := st.(attach := [Storing]);
    var s3 := s2.(attach := [Leaving], subMap := {0});
    assert {} + {0} == {0};
    Cons(s3, Unlock(0), n, rest, t);
    w := [Unlock(0)] + rest;
    Cons(s2, Store(0), s3, w, t);
    w := [Store(0)] + w;
    Cons(st, LoadDisable(0), s2, w, t);
    w := [LoadDisable(0)] + w;
  }

  lemma CloseInVain(st: State) returns (w: seq<Label>, t: State)
    requires st.closer.NotBegun? && st.stop == 0 && st.lock.Nobody? && !st.isListen && !st.sawListen
    requires st.subMap == {0} && st.closed == [true]
    ensures Leads(st, w, t) && t.closer.Finished? && t.subMap == {0}
  {
    var s1 := st.(closer := SendStop);
    var s2 := s1.(stop := 1, closer := TakeLock);
    var s3 := s2.(lock := Closing, closer := SetDisable);
    var s4 := s3.(disable := true, closer := LoadListen);
    var s5 := s4.(closer := Ranging({0}));
    var s6 := s5.(closer := Ranging({}));
    t := s6.(lock := Nobody, closer := Finished);
    assert {0} - {0} == {} && Leads(t, [], t);
    hide Leads;
    Cons(s6, CloseStep, t, [], t);
    w := [CloseStep] + [];
    Cons(s5, CloseSub(0), s6, w, t);
    w := [CloseSub(0)] + w;
    Cons(s4, CloseStep, s5, w, t);
    w := [CloseStep] + w;
    Cons(s3, CloseStep, s4, w, t);
    w := [CloseStep] + w;
    Cons(s2, CloseStep, s3, w, t);
    w := [CloseStep] + w;
    Cons(s1, CloseStep, s2, w, t);
    w := [CloseStep] + w;
    Cons(st, Begin, s1, w, t);
    w := [Begin] + w;
  }

  lemma HolderCanStep(t: State, i: nat)
    requires LockOk(t, i) && |t.closed| == |t.attach| && t.lock == Attaching(i)
    ensures Enabled(t, LoadDisable(i)) || Enabled(t, Store(i)) || Enabled(t, Unlock(i))
  {
  }

  /** ... and until `Close` sets disable, a sub handed over that its user has not closed is open and in
      the sub map. */
  lemma SubsStayOpen(st: State, trace: seq<Label>, t: State, i: nat)
    requires Initial(st) && Leads(st, trace, t) && !t.disable
    requires i < |t.attach| && t.attach[i].Attached? && i !in t.byUser
    ensures i in t.subMap && |t.closed| == |t.attach| && !t.closed[i]
  {
    InitInv(st);
    InvHolds(st, trace, t);
    assert SubOk(t, i) && OpenOk(t, i);
  }

  /** `Close` always gets on: until it has finished, it or the holder of the lock it waits for can step. */
  lemma CloseGoesOn(st: State, trace: seq<Label>, t: State)
    requires Initial(st) && Leads(st, trace, t)
    requires !t.closer.NotBegun? && !t.closer.Finished?
    ensures || Enabled(t, CloseStep) || (exists i :: Enabled(t, CloseSub(i)))
            || (t.lock.Attaching? && (var i := t.lock.i;
                Enabled(t, LoadDisable(i)) || Enabled(t, Store(i)) || Enabled(t, Unlock(i))))
  {
    InitInv(st);
    InvHolds(st, trace, t);
    TokensConserved(st, trace, t);
    hide Leads, StopConserved, ListenStopConserved, DisableInv, WaitersHolding, AttachHolders;
    if t.lock.Attaching? {
      assert LockOk(t, t.lock.i);
      HolderCanStep(t, t.lock.i);
    } else if t.closer.Ranging? && t.closer.todo != {} {
      var i :| i in t.closer.todo;
      assert Enabled(t, CloseSub(i));
    }
  }

  // ---- Does ListenSubBox return? ----------------------------------------------------------------

  /** `Close` has passed its load of isListen without seeing it. */
  predicate Missed(st: State) {
    !st.sawListen && (st.closer.Ranging? || st.closer.Finished?)
  }

  lemma MissedStep(st: State, l: Label)
    requires Missed(st) && Enabled(st, l)
    ensures Missed(Next(st, l))
  {
  }

  /** With the token in its channel, the listener takes it, puts it back and returns. */
  lemma TokenReturns(t: State) returns (more: seq<Label>, u: State)
    requires t.listener.Listening? && t.listenStop == CAPACITY
    ensures Leads(t, more, u) && u.listener.Returned?
  {
    var n := t.(listenStop := 0, listener := ListenHolding);
    u := t.(listener := Returned);
    assert Leads(u, [], u);
    hide Leads;
    Cons(n, ListenPutBack, u, [], u);
    more := [ListenPutBack] + [];
    Cons(t, ListenTake, n, more, u);
    more := [ListenTake] + more;
  }

  /** With the token in the hands of a sub's goroutine, that one puts it back first. */
  lemma HeldTokenReturns(t: State, i: nat) returns (more: seq<Label>, u: State)
    requires t.listener.Listening? && Enabled(t, AttachPutBack(i)) && t.listenStop == 0
    ensures Leads(t, more, u) && u.listener.Returned?
  {
    hide Leads;
    var n := Next(t, AttachPutBack(i));
    more, u := TokenReturns(n);
    Cons(t, AttachPutBack(i), n, more, u);
    more := [AttachPutBack(i)] + more;
  }

  /** After `Close`, a listener can still return exactly when it had set isListen before `Close` loaded it:
      then some continuation brings it the token, otherwise none does. */
  lemma ListenerReturnsExactly(st: State, trace: seq<Label>, t: State)
    requires Initial(st) && Leads(st, trace, t) && t.closer.Finished? && t.listener.Listening?
    ensures (exists more, u :: Leads(t, more, u) && u.listener.Returned?) <==> t.sawListen
  {
    InitInv(st);
    InvHolds(st, trace, t);
    TokensConserved(st, trace, t);
    hide Leads;
    if !t.sawListen {
      forall more, u | Leads(t, more, u) ensures !u.listener.Returned? { LateListener(t, more, u); }
    } else if t.listenStop == 0 {
      var i := SomeoneHolds(t.attach);
      assert Enabled(t, AttachPutBack(i));
      var more, u := HeldTokenReturns(t, i);
    } else {
      var more, u := TokenReturns(t);
    }
  }

  lemma {:induction false} LateListener(t: State, more: seq<Label>, u: State)
    requires Inv(t) && Missed(t) && t.listener.Listening? && Leads(t, more, u)
    ensures u.listener.Listening?
    decreases |more|
  {
    hide StopConserved, LockInv, DisableInv, SubInv, OpenInv;
    if more != [] {
      MissedStep(t, more[0]);
      InvHolds(t, [more[0]], Next(t, more[0]));
      LateListener(Next(t, more[0]), more[1..], u);
    }
  }

  lemma Cons(st: State, l: Label, n: State, trace: seq<Label>, t: State)
    requires Enabled(st, l) && Next(st, l) == n && Leads(n, trace, t)
    ensures Leads(st, [l] + trace, t)
  {
    hide Enabled, Next;
    assert ([l] + trace)[1..] == trace;
  }

  lemma ThenListen(st: State) returns (w: seq<Label>)
    requires st.listener.NotListening?
    ensures Leads(st, w, st.(listener := Listening, isListen := true))
  {
    var n := st.(listener := ChannelsMade);
    var t := st.(listener := Listening, isListen := true);
    assert Leads(t, [], t);
    hide Leads;
    Cons(n, MarkListen, t, [], t);
    w := [MarkListen] + [];
    Cons(st, MakeChannels, n, w, t);
    w := [MakeChannels] + w;
  }

  /** It happens: `Close` runs, and only then the listener starts. */
  lemma ListenerCanMiss(st: State)
    requires Initial(st)
    ensures exists trace, t :: Leads(st, trace, t) && t.closer.Finished? && t.listener.Listening? && !t.sawListen
  {
    hide Leads;
    var s1 := st.(closer := SendStop);
    var s2 := s1.(stop := 1, closer := TakeLock);
    var s3 := s2.(lock := Closing, closer := SetDisable);
    var s4 := s3.(disable := true, closer := LoadListen);
    var s5 := s4.(closer := Ranging({}));
    var s6 := s5.(lock := Nobody, closer := Finished);
    var t := s6.(listener := Listening, isListen := true);
    var w := ThenListen(s6);
    Cons(s5, CloseStep, s6, w, t);
    w := [CloseStep] + w;
    Cons(s4, CloseStep, s5, w, t);
    w := [CloseStep] + w;
    Cons(s3, CloseStep, s4, w, t);
    w := [CloseStep] + w;
    Cons(s2, CloseStep, s3, w, t);
    w := [CloseStep] + w;
    Cons(s1, CloseStep, s2, w, t);
    w := [CloseStep] + w;
    Cons(st, Begin, s1, w, t);
  }
}
