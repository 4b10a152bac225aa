/** Many goroutines sending messages over one connection under its write lock (`ProxyClient.Writes`,
    `TaskCbContext.WriteCMsg`), and one reader. A write that fails, or is refused between two frames because
    the connection below was disabled, ends the connection and is not modelled. */
module Writers {
  import opened Bytes
  import opened Codec

  datatype Job<+M> = Job(nonce: nat, msg: M)

  /** Where the lock holder is: lock taken, frames still to be written, or about to unlock. */
  datatype Phase = Entered | Sending(left: seq<seq<byte>>) | Leaving

  datatype Lock<+M> = Free | Held(g: nat, job: Job<M>, phase: Phase)

  datatype Entry<+M> = Entry(g: nat, job: Job<M>)

  /** `queues[g]` are the messages goroutine g has still to send; `log` records the messages whose
      sending began; each connection write puts one whole frame on the wire. checks[g]: goroutine g sends
      through a method that loads `disable` under the lock; the writers of a VPN link do not. */
  datatype State<+M> = State(
    checks: seq<bool>, disable: bool, lock: Lock<M>, queues: seq<seq<Job<M>>>, refused: seq<seq<Job<M>>>,
    log: seq<Entry<M>>, wire: seq<byte>)

  datatype Label = Acquire(g: nat) | LoadDisable | WriteFrame | Release | StoreDisable

  function Init<M>(jobs: seq<seq<Job<M>>>, checks: seq<bool>): State<M> {
    State(checks, false, Free, jobs, seq(|jobs|, _ => []), [], [])
  }

  predicate Enabled<M>(st: State<M>, l: Label) {
    match l
    case Acquire(g) => st.lock.Free? && g < |st.queues| && st.queues[g] != []
    case LoadDisable => st.lock.Held? && st.lock.phase.Entered? && st.lock.g < |st.refused| == |st.checks|
    case WriteFrame => st.lock.Held? && st.lock.phase.Sending? && st.lock.phase.left != []
    case Release => st.lock.Held? && (st.lock.phase.Leaving? || st.lock.phase == Sending([]))
    case StoreDisable => true
  }

  ghost predicate AllFit<M(!new)>(k: Suite<M>, jobs: seq<seq<Job<M>>>) {
    forall g, i | 0 <= g < |jobs| && 0 <= i < |jobs[g]| :: Fits(k, jobs[g][i].msg)
  }

  ghost predicate LogFits<M(!new)>(k: Suite<M>, log: seq<Entry<M>>) {
    forall i | 0 <= i < |log| :: Fits(k, log[i].job.msg)
  }

  /** `SetMsg` of the job's message (one too long to be a Go slice cannot occur). */
  ghost function Frames<M(!new)>(k: Suite<M>, job: Job<M>): seq<seq<byte>>
    requires Valid(k)
  {
    if Fits(k, job.msg) then Encode(k, job.nonce, job.msg) else []
  }

  ghost function Next<M(!new)>(k: Suite<M>, st: State<M>, l: Label): State<M>
    requires Valid(k) && Enabled(st, l)
  {
    match l
    case Acquire(g) =>
      st.(lock := Held(g, st.queues[g][0], Entered), queues := st.queues[g := st.queues[g][1..]])
    case LoadDisable =>
      if st.disable && st.checks[st.lock.g] then
        st.(lock := st.lock.(phase := Leaving),
            refused := st.refused[st.lock.g := st.refused[st.lock.g] + [st.lock.job]])
      else
        st.(lock := st.lock.(phase := Sending(Frames(k, st.lock.job))),
            log := st.log + [Entry(st.lock.g, st.lock.job)])
    case WriteFrame =>
      st.(lock := st.lock.(phase := Sending(st.lock.phase.left[1..])), wire := st.wire + st.lock.phase.left[0])
    case Release => st.(lock := Free)
    case StoreDisable => st.(disable := true)
  }

  function Messages<M>(log: seq<Entry<M>>): (ms: seq<M>) { seq(|log|, i requires 0 <= i < |log| => log[i].job.msg) }

  function Nonces<M>(log: seq<Entry<M>>): seq<nat> { seq(|log|, i requires 0 <= i < |log| => log[i].job.nonce) }

  /** What goroutine g has sent, in order. */
  function SentBy<M>(log: seq<Entry<M>>, g: nat): seq<Job<M>> {
    if log == [] then [] else
      var rest := SentBy(log[..|log| - 1], g);
      var e := log[|log| - 1];
      if e.g == g then rest + [e.job] else rest
  }

  ghost function WireOf<M(!new)>(k: Suite<M>, log: seq<Entry<M>>): seq<byte>
    requires Valid(k) && LogFits(k, log)
  {
    Wire(k, Nonces(log), Messages(log))
  }

  lemma {:induction false} WireAppend<M(!new)>(k: Suite<M>, nonces: seq<nat>, ms: seq<M>, nonce: nat, m: M)
    requires Valid(k) && |nonces| == |ms| && (forall i | 0 <= i < |ms| :: Fits(k, ms[i])) && Fits(k, m)
    ensures Wire(k, nonces + [nonce], ms + [m]) == Wire(k, nonces, ms) + Flatten(Encode(k, nonce, m))
    decreases |ms|
  {
    hide Encode;
    if ms == [] {
      assert (nonces + [nonce])[1..] == [] && (ms + [m])[1..] == [];
    } else {
      WireAppend(k, nonces[1..], ms[1..], nonce, m);
      assert (nonces + [nonce])[1..] == nonces[1..] + [nonce] && (ms + [m])[1..] == ms[1..] + [m];
    }
  }

  lemma WireOfAppend<M(!new)>(k: Suite<M>, log: seq<Entry<M>>, e: Entry<M>)
    requires Valid(k) && LogFits(k, log) && Fits(k, e.job.msg)
    ensures LogFits(k, log + [e])
    ensures WireOf(k, log + [e]) == WireOf(k, log) + Flatten(Encode(k, e.job.nonce, e.job.msg))
  {
    hide Encode;
    WireAppend(k, Nonces(log), Messages(log), e.job.nonce, e.job.msg);
    assert Nonces(log + [e]) == Nonces(log) + [e.job.nonce];
    assert Messages(log + [e]) == Messages(log) + [e.job.msg];
  }

  predicate InFlight<M>(st: State<M>) {
    st.lock.Held? && st.lock.phase.Sending? && st.lock.phase.left != []
  }

  /** The wire carries the logged messages whole, except that the last may still be going out:
      of its frames exactly `left` are missing. */
  ghost predicate WireInv<M(!new)>(k: Suite<M>, st: State<M>)
    requires Valid(k)
  {
    && LogFits(k, st.log)
    && (st.lock.Held? ==> Fits(k, st.lock.job.msg))
    && if st.lock.Held? && st.lock.phase.Sending? then
         && st.log != [] && st.log[|st.log| - 1] == Entry(st.lock.g, st.lock.job)
         && WireOf(k, st.log) == st.wire + Flatten(st.lock.phase.left)
         && (forall i | 0 <= i < |st.lock.phase.left| :: st.lock.phase.left[i] != [])
         && |WireOf(k, st.log[..|st.log| - 1])| <= |st.wire|
       else st.wire == WireOf(k, st.log)
  }

  /** Goroutine g's messages, in order: sent, then refused, then at hand, then queued. */
  predicate Accounted<M(==)>(st: State<M>, jobs: seq<seq<Job<M>>>, g: nat) {
    && g < |st.queues| == |st.refused| == |st.checks| == |jobs|
    && (!(st.disable && st.checks[g]) ==> st.refused[g] == [])
    && jobs[g] == SentBy(st.log, g) + st.refused[g]
                  + (if st.lock.Held? && st.lock.g == g && st.lock.phase.Entered? then [st.lock.job] else [])
                  + st.queues[g]
  }

  predicate OrderInv<M(==)>(st: State<M>, jobs: seq<seq<Job<M>>>) {
    && |st.queues| == |st.refused| == |st.checks| == |jobs|
    && (st.lock.Held? ==> st.lock.g < |jobs|)
    && (forall i | 0 <= i < |st.log| :: st.log[i].g < |jobs|)
    && (forall g | 0 <= g < |jobs| :: Accounted(st, jobs, g))
  }

  ghost predicate Inv<M(!new)>(k: Suite<M>, jobs: seq<seq<Job<M>>>, st: State<M>)
    requires Valid(k)
  {
    && WireInv(k, st) && OrderInv(st, jobs) && AllFit(k, st.queues)
  }

  lemma FramesNotEmpty<M(!new)>(k: Suite<M>, nonce: nat, m: M)
    requires Valid(k) && Fits(k, m)
    ensures forall i | 0 <= i < |Encode(k, nonce, m)| :: Encode(k, nonce, m)[i] != []
  {
    EncodedFrames(k, nonce, m);
    var fs := Encode(k, nonce, m);
    forall i | 0 <= i < |fs| ensures fs[i] != [] {
      if i < |fs| - 1 { assert WellFormed(k, fs[..|fs| - 1][i], true); }
    }
  }

  lemma SentByAppend<M>(log: seq<Entry<M>>, e: Entry<M>, g: nat)
    ensures SentBy(log + [e], g) == if e.g == g then SentBy(log, g) + [e.job] else SentBy(log, g)
  {
    assert (log + [e])[..|log|] == log;
  }

  lemma WireInvStep<M(!new)>(k: Suite<M>, st: State<M>, l: Label)
    requires Valid(k) && WireInv(k, st) && Enabled(st, l) && AllFit(k, st.queues)
    ensures WireInv(k, Next(k, st, l))
  {
    hide Encode, WireOf;
    match l
    case LoadDisable =>
      if !(st.disable && st.checks[st.lock.g]) {
        var e := Entry(st.lock.g, st.lock.job);
        WireOfAppend(k, st.log, e);
        FramesNotEmpty(k, e.job.nonce, e.job.msg);
        assert (st.log + [e])[..|st.log|] == st.log;
      }
    case WriteFrame =>
      var left := st.lock.phase.left;
      assert Flatten(left) == left[0] + Flatten(left[1..]);
      assert st.wire + Flatten(left) == (st.wire + left[0]) + Flatten(left[1..]);
    case Release =>
      if st.lock.phase.Sending? { assert st.wire + Flatten([]) == st.wire; }
    case _ =>
  }

  /** Moving one element across the borders of four pieces. */
  lemma Shift<T>(a: seq<T>, b: seq<T>, x: T, q: seq<T>)
    ensures q != [] && q[0] == x ==> ((a + b) + []) + q == ((a + b) + [x]) + q[1..]
    ensures ((a + b) + [x]) + q == ((a + (b + [x])) + []) + q
    ensures b == [] ==> ((a + b) + [x]) + q == (((a + [x]) + b) + []) + q
  {
    Assoc(a, b, [x]);
    if q != [] && q[0] == x {
      assert [x] + q[1..] == q;
      Assoc(a + b, [x], q[1..]);
    }
  }

  lemma AccountedStep<M(!new)>(k: Suite<M>, jobs: seq<seq<Job<M>>>, st: State<M>, l: Label, g: nat)
    requires Valid(k) && Accounted(st, jobs, g) && Enabled(st, l)
    ensures Accounted(Next(k, st, l), jobs, g)
  {
    hide Encode, Frames, SentBy;
    match l
    case Acquire(h) =>
      if g == h { Shift(SentBy(st.log, g), st.refused[g], st.queues[g][0], st.queues[g]); }
    case LoadDisable =>
      if !(st.disable && st.checks[st.lock.g]) { SentByAppend(st.log, Entry(st.lock.g, st.lock.job), g); }
      Shift(SentBy(st.log, g), st.refused[g], st.lock.job, st.queues[g]);
    case _ =>
  }

  lemma OrderInvStep<M(!new)>(k: Suite<M>, jobs: seq<seq<Job<M>>>, st: State<M>, l: Label)
    requires Valid(k) && OrderInv(st, jobs) && Enabled(st, l)
    ensures OrderInv(Next(k, st, l), jobs)
  {
    hide Encode, Accounted;
    var t := Next(k, st, l);
    forall g | 0 <= g < |jobs| ensures Accounted(t, jobs, g) { AccountedStep(k, jobs, st, l, g); }
  }

  lemma AllFitStep<M(!new)>(k: Suite<M>, st: State<M>, l: Label)
    requires Valid(k) && Enabled(st, l) && AllFit(k, st.queues)
    ensures AllFit(k, Next(k, st, l).queues)
  {
    hide Encode;
  }

  /** The schedule `trace`, from st, leads to t. */
  ghost predicate Leads<M(!new)>(k: Suite<M>, st: State<M>, trace: seq<Label>, t: State<M>)
    requires Valid(k)
    decreases |trace|
  {
    if trace == [] then t == st
    else Enabled(st, trace[0]) && Leads(k, Next(k, st, trace[0]), trace[1..], t)
  }

  lemma InvStep<M(!new)>(k: Suite<M>, jobs: seq<seq<Job<M>>>, st: State<M>, l: Label)
    requires Valid(k) && Inv(k, jobs, st) && Enabled(st, l)
    ensures Inv(k, jobs, Next(k, st, l))
  {
    hide Next, Enabled;
    WireInvStep(k, st, l);
    OrderInvStep(k, jobs, st, l);
    AllFitStep(k, st, l);
  }

  lemma {:induction false} InvHolds<M(!new)>(
    k: Suite<M>, jobs: seq<seq<Job<M>>>, st: State<M>, trace: seq<Label>, t: State<M>)
    requires Valid(k) && Inv(k, jobs, st) && Leads(k, st, trace, t)
    ensures Inv(k, jobs, t)
    decreases |trace|
  {
    hide Inv, Next, Enabled;
    if trace != [] {
      InvStep(k, jobs, st, trace[0]);
      InvHolds(k, jobs, Next(k, st, trace[0]), trace[1..], t);
    }
  }

  lemma InitInv<M(!new)>(k: Suite<M>, jobs: seq<seq<Job<M>>>, checks: seq<bool>)
    requires Valid(k) && AllFit(k, jobs) && |checks| == |jobs|
    ensures Inv(k, jobs, Init(jobs, checks))
  {
  }

  /** The messages wholly on the wire. */
  function Complete<M>(st: State<M>): seq<Entry<M>> {
    if InFlight(st) && st.log != [] then st.log[..|st.log| - 1] else st.log
  }

  lemma ReaderSeesComplete<M(!new)>(k: Suite<M>, st: State<M>)
    requires Valid(k) && WireInv(k, st)
    ensures ParseAll(k, st.wire).msgs == Messages(Complete(st))
    ensures ParseAll(k, st.wire).error == TransportEnded
  {
    hide ParseMsg, Encode, Wire, ParseAll;
    if InFlight(st) {
      var done, e := st.log[..|st.log| - 1], st.log[|st.log| - 1];
      WireOfAppend(k, done, e);
      assert done + [e] == st.log;
      var last := Flatten(Encode(k, e.job.nonce, e.job.msg));
      var n := |st.wire| - |WireOf(k, done)|;
      assert |Flatten(st.lock.phase.left)| > 0;
      assert st.wire == (WireOf(k, done) + last)[..|st.wire|] == WireOf(k, done) + last[..n];
      WireWithPartialTail(k, Nonces(done), Messages(done), e.job.nonce, e.job.msg, n);
    } else {
      if st.lock.Held? && st.lock.phase.Sending? { assert Flatten([]) == []; }
      assert st.wire == WireOf(k, st.log) + [];
      EmptyStreamWaits(k);
      WireRoundTrip(k, Nonces(st.log), Messages(st.log), []);
      assert Messages(st.log) + [] == Messages(st.log);
    }
  }

  lemma EmptyStreamWaits<M>(k: Suite<M>)
    ensures ParseAll(k, []) == AllRead([], TransportEnded, 0)
  {
  }

  lemma OrderKept<M>(jobs: seq<seq<Job<M>>>, t: State<M>)
    requires OrderInv(t, jobs)
    ensures forall g | 0 <= g < |jobs| :: SentBy(t.log, g) <= jobs[g]
    ensures |t.queues| == |t.checks| == |jobs|
    ensures t.lock.Free? ==> forall g | 0 <= g < |jobs| && !(t.disable && t.checks[g]) ::
      jobs[g] == SentBy(t.log, g) + t.queues[g]
  {
    hide SentBy;
    forall g | 0 <= g < |jobs|
      ensures SentBy(t.log, g) <= jobs[g]
      ensures t.lock.Free? && !(t.disable && t.checks[g]) ==> jobs[g] == SentBy(t.log, g) + t.queues[g]
    {
      assert Accounted(t, jobs, g);
    }
  }

  /** The wire is the beginning of the log's. */
  lemma WireIsPrefix<M(!new)>(k: Suite<M>, st: State<M>)
    requires Valid(k) && WireInv(k, st)
    ensures st.wire <= WireOf(k, st.log)
  {
    hide WireOf;
    if st.lock.Held? && st.lock.phase.Sending? {
      assert WireOf(k, st.log) == st.wire + Flatten(st.lock.phase.left);
    }
  }

  /** A reader that has received the first n bytes. */
  lemma ReaderSeesArrived<M(!new)>(k: Suite<M>, st: State<M>, n: nat)
    requires Valid(k) && WireInv(k, st) && n <= |st.wire|
    ensures ParseAll(k, st.wire[..n]).msgs == Messages(st.log)[..Arrived(k, Nonces(st.log), Messages(st.log), n)]
    ensures ParseAll(k, st.wire[..n]).error == TransportEnded
    ensures st.lock.Free? && n == |st.wire| ==> Arrived(k, Nonces(st.log), Messages(st.log), n) == |st.log|
  {
    WireIsPrefix(k, st);
    hide ParseAll, Wire, Arrived;
    assert st.wire[..n] == WireOf(k, st.log)[..n];
    WirePrefixRead(k, Nonces(st.log), Messages(st.log), n);
  }

  /** For every schedule of any number of goroutines: the reader gets exactly the messages wholly
      written so far, each from one of the goroutines, in the order their sending began; of each
      goroutine that is its own order; and nothing is missing from it unless the connection was
      disabled and the goroutine checks that. A reader that has received only some of the bytes, cut
      anywhere, gets exactly the messages that have arrived whole. */
  lemma ReaderGetsAMerge<M(!new)>(
    k: Suite<M>, jobs: seq<seq<Job<M>>>, checks: seq<bool>, trace: seq<Label>, t: State<M>)
    requires Valid(k) && AllFit(k, jobs) && |checks| == |jobs|
    requires Leads(k, Init(jobs, checks), trace, t)
    ensures ParseAll(k, t.wire).msgs == Messages(Complete(t))
    ensures LogFits(k, t.log)
    ensures forall n | 0 <= n <= |t.wire| ::
      ParseAll(k, t.wire[..n]).msgs == Messages(t.log)[..Arrived(k, Nonces(t.log), Messages(t.log), n)]
    ensures forall g | 0 <= g < |jobs| :: SentBy(t.log, g) <= jobs[g]
    ensures forall i | 0 <= i < |t.log| :: t.log[i].g < |jobs|
    ensures |t.queues| == |jobs| && t.checks == checks
    ensures t.lock.Free? ==> forall g | 0 <= g < |jobs| && !(t.disable && checks[g]) ::
      jobs[g] == SentBy(t.log, g) + t.queues[g]
    ensures t.lock.Free? ==>
      Complete(t) == t.log && Arrived(k, Nonces(t.log), Messages(t.log), |t.wire|) == |t.log|
  {
    hide Leads, Accounted, WireInv, AllFit, SentBy, ParseAll;
    InitInv(k, jobs, checks);
    InvHolds(k, jobs, Init(jobs, checks), trace, t);
    ChecksStay(k, Init(jobs, checks), trace, t);
    LogHasFits(k, t);
    ReaderSeesComplete(k, t);
    OrderKept(jobs, t);
    forall n | 0 <= n <= |t.wire|
      ensures ParseAll(k, t.wire[..n]).msgs == Messages(t.log)[..Arrived(k, Nonces(t.log), Messages(t.log), n)]
    {
      ReaderSeesArrived(k, t, n);
    }
    ReaderSeesArrived(k, t, |t.wire|);
  }

  lemma MessagesTake<M>(log: seq<Entry<M>>, c: nat)
    requires c <= |log|
    ensures |Messages(log)| == |log| && Messages(log)[..c] == Messages(log[..c])
  {
  }

  /** The same for one number of bytes: the messages are those of the beginning of the log that has arrived;
      when everything has, and a goroutine that never checks `disable` has nothing left, that is all of its. */
  lemma ReaderGetsArrived<M(!new)>(
    k: Suite<M>, jobs: seq<seq<Job<M>>>, checks: seq<bool>, trace: seq<Label>, t: State<M>, n: nat)
    requires Valid(k) && AllFit(k, jobs) && |checks| == |jobs|
    requires Leads(k, Init(jobs, checks), trace, t) && n <= |t.wire|
    ensures LogFits(k, t.log) && |t.queues| == |jobs|
    ensures var c := Arrived(k, Nonces(t.log), Messages(t.log), n);
      && c <= |t.log| && ParseAll(k, t.wire[..n]).msgs == Messages(t.log[..c])
      && (n == |t.wire| && t.lock.Free? ==> forall g | 0 <= g < |jobs| && !checks[g] && t.queues[g] == [] ::
            SentBy(t.log[..c], g) == jobs[g])
    ensures forall g | 0 <= g < |jobs| :: SentBy(t.log, g) <= jobs[g]
    ensures forall i | 0 <= i < |t.log| :: t.log[i].g < |jobs|
  {
    hide Leads, Accounted, WireInv, AllFit, SentBy, ParseAll, Arrived;
    ReaderGetsAMerge(k, jobs, checks, trace, t);
    var c := Arrived(k, Nonces(t.log), Messages(t.log), n);
    MessagesTake(t.log, |t.log|);
    MessagesTake(t.log, c);
    if n == |t.wire| && t.lock.Free? {
      assert t.log[..c] == t.log;
      forall g | 0 <= g < |jobs| && !checks[g] && t.queues[g] == [] ensures SentBy(t.log, g) == jobs[g] {
        assert jobs[g] == SentBy(t.log, g) + t.queues[g];
      }
    }
  }

  lemma LogHasFits<M(!new)>(k: Suite<M>, st: State<M>)
    requires Valid(k) && WireInv(k, st)
    ensures LogFits(k, st.log)
  {
  }

  lemma {:induction false} ChecksStay<M(!new)>(k: Suite<M>, st: State<M>, trace: seq<Label>, t: State<M>)
    requires Valid(k) && Leads(k, st, trace, t)
    ensures t.checks == st.checks
    decreases |trace|
  {
    hide Frames;
    if trace != [] { ChecksStay(k, Next(k, st, trace[0]), trace[1..], t); }
  }

  // ---- After the connection is disabled ------------------------------------------------------------

  lemma DisabledStep<M(!new)>(k: Suite<M>, st: State<M>, l: Label)
    requires Valid(k) && Enabled(st, l)
    ensures var t := Next(k, st, l);
      && t.checks == st.checks && (t.disable <==> st.disable || l == StoreDisable)
      && (t.log == st.log
          || (t.log == st.log + [Entry(st.lock.g, st.lock.job)] && st.lock.Held? && st.lock.g < |st.checks|
              && !(st.disable && st.checks[st.lock.g])))
  {
  }

  lemma {:induction false} LogGrows<M(!new)>(k: Suite<M>, st: State<M>, trace: seq<Label>, t: State<M>)
    requires Valid(k) && Leads(k, st, trace, t)
    ensures t.checks == st.checks && st.log <= t.log && (t.disable <==> st.disable || StoreDisable in trace)
    ensures st.disable ==> forall i | |st.log| <= i < |t.log| :: t.log[i].g < |t.checks| && !t.checks[t.log[i].g]
    decreases |trace|
  {
    hide Next, Enabled;
    if trace != [] {
      DisabledStep(k, st, trace[0]);
      LogGrows(k, Next(k, st, trace[0]), trace[1..], t);
      assert trace == [trace[0]] + trace[1..];
    }
  }

  /** Once the connection is disabled, on every schedule, no message of a goroutine that checks begins to be
      sent; those of one that does not check still are. */
  lemma NothingAfterDisable<M(!new)>(k: Suite<M>, jobs: seq<seq<Job<M>>>, checks: seq<bool>,
                                     before: seq<Label>, st: State<M>, after: seq<Label>, t: State<M>)
    requires Valid(k) && Leads(k, Init(jobs, checks), before, st) && StoreDisable in before && Leads(k, st, after, t)
    ensures st.disable && st.log <= t.log
    ensures forall i | |st.log| <= i < |t.log| :: t.log[i].g < |checks| && !checks[t.log[i].g]
  {
    hide Leads;
    LogGrows(k, Init(jobs, checks), before, st);
    LogGrows(k, st, after, t);
  }

  // ---- Everything can be sent ----------------------------------------------------------------------

  lemma {:induction false} Snoc<M(!new)>(k: Suite<M>, st: State<M>, trace: seq<Label>, t: State<M>, l: Label)
    requires Valid(k) && Leads(k, st, trace, t) && Enabled(t, l)
    ensures Leads(k, st, trace + [l], Next(k, t, l))
    decreases |trace|
  {
    hide Next, Enabled;
    if trace == [] {
      assert (trace + [l])[1..] == [];
    } else {
      assert (trace + [l])[1..] == trace[1..] + [l];
      Snoc(k, Next(k, st, trace[0]), trace[1..], t, l);
    }
  }

  lemma {:induction false} Concat<M(!new)>(
    k: Suite<M>, st: State<M>, trace: seq<Label>, t: State<M>, more: seq<Label>, u: State<M>)
    requires Valid(k) && Leads(k, st, trace, t) && Leads(k, t, more, u)
    ensures Leads(k, st, trace + more, u)
    decreases |trace|
  {
    hide Next, Enabled;
    if trace == [] {
      assert trace + more == more;
    } else {
      assert (trace + more)[1..] == trace[1..] + more;
      Concat(k, Next(k, st, trace[0]), trace[1..], t, more, u);
    }
  }

  /** The lock holder can write the frames that are left. */
  lemma {:induction false} WriteAll<M(!new)>(k: Suite<M>, st: State<M>, trace: seq<Label>, t: State<M>)
    returns (more: seq<Label>, u: State<M>)
    requires Valid(k) && Leads(k, st, trace, t) && t.lock.Held? && t.lock.phase.Sending?
    ensures Leads(k, st, more, u) && u.lock.Free? && u.queues == t.queues
    decreases if t.lock.Held? && t.lock.phase.Sending? then |t.lock.phase.left| else 0
  {
    hide Leads;
    if t.lock.phase.left == [] {
      Snoc(k, st, trace, t, Release);
      more, u := trace + [Release], Next(k, t, Release);
    } else {
      Snoc(k, st, trace, t, WriteFrame);
      more, u := WriteAll(k, st, trace + [WriteFrame], Next(k, t, WriteFrame));
    }
  }

  /** Whoever has the lock can get rid of it. */
  lemma Unlocks<M(!new)>(k: Suite<M>, st: State<M>, trace: seq<Label>, t: State<M>)
    returns (more: seq<Label>, u: State<M>)
    requires Valid(k) && Leads(k, st, trace, t) && (t.lock.Held? ==> t.lock.g < |t.refused| == |t.checks|)
    ensures Leads(k, st, more, u) && u.lock.Free? && u.queues == t.queues
  {
    hide Leads;
    more, u := trace, t;
    if u.lock.Held? && u.lock.phase.Entered? {
      Snoc(k, st, more, u, LoadDisable);
      more, u := more + [LoadDisable], Next(k, u, LoadDisable);
    }
    if u.lock.Held? && u.lock.phase.Sending? {
      more, u := WriteAll(k, st, more, u);
    } else if u.lock.Held? {
      Snoc(k, st, more, u, Release);
      more, u := more + [Release], Next(k, u, Release);
    }
  }

  function Queued<T>(queues: seq<seq<T>>): nat {
    if queues == [] then 0 else Queued(queues[1..]) + |queues[0]|
  }

  lemma {:induction false} QueuedFalls<T>(queues: seq<seq<T>>, g: nat)
    requires g < |queues| && queues[g] != []
    ensures Queued(queues[g := queues[g][1..]]) < Queued(queues)
  {
    if g == 0 {
      assert queues[g := queues[g][1..]][1..] == queues[1..];
    } else {
      QueuedFalls(queues[1..], g - 1);
      assert queues[g := queues[g][1..]][1..] == queues[1..][g - 1 := queues[1..][g - 1][1..]];
    }
  }

  lemma {:induction false} Drain<M(!new)>(
    k: Suite<M>, jobs: seq<seq<Job<M>>>, st: State<M>, trace: seq<Label>, t: State<M>)
    returns (more: seq<Label>, u: State<M>)
    requires Valid(k) && Inv(k, jobs, st) && Leads(k, st, trace, t)
    ensures Leads(k, st, more, u) && u.lock.Free? && forall g | 0 <= g < |u.queues| :: u.queues[g] == []
    decreases Queued(t.queues)
  {
    InvHolds(k, jobs, st, trace, t);
    hide Leads, WireInv, Accounted, AllFit;
    more, u := Unlocks(k, st, trace, t);
    if g :| 0 <= g < |u.queues| && u.queues[g] != [] {
      Snoc(k, st, more, u, Acquire(g));
      QueuedFalls(u.queues, g);
      more, u := Drain(k, jobs, st, more + [Acquire(g)], Next(k, u, Acquire(g)));
    }
  }

  /** From every reachable state some continuation gets through with every message: nothing is queued, the lock
      is free, and a reader then has all messages of each goroutine, but for those refused because of `disable`. */
  lemma EverythingCanBeSent<M(!new)>(
    k: Suite<M>, jobs: seq<seq<Job<M>>>, checks: seq<bool>, trace: seq<Label>, st: State<M>)
    returns (more: seq<Label>, t: State<M>)
    requires Valid(k) && AllFit(k, jobs) && |checks| == |jobs| && Leads(k, Init(jobs, checks), trace, st)
    ensures Leads(k, st, more, t) && t.lock.Free?
    ensures ParseAll(k, t.wire).msgs == Messages(t.log)
    ensures forall g | 0 <= g < |jobs| && !(t.disable && checks[g]) :: SentBy(t.log, g) == jobs[g]
  {
    InitInv(k, jobs, checks);
    assert Leads(k, st, [], st);
    hide Inv, Leads, ParseAll, SentBy;
    InvHolds(k, jobs, Init(jobs, checks), trace, st);
    more, t := Drain(k, jobs, st, [], st);
    Concat(k, Init(jobs, checks), trace, st, more, t);
    ReaderGetsAMerge(k, jobs, checks, trace + more, t);
    forall g | 0 <= g < |jobs| && !(t.disable && checks[g]) ensures SentBy(t.log, g) == jobs[g] {
      assert jobs[g] == SentBy(t.log, g) + t.queues[g];
    }
  }
}
