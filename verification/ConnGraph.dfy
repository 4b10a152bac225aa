/** Which connections are registered and which are attached to which, for arbitrary (also
    non-conforming) sequences of messages on any number of connections handled concurrently; and the
    recursive speed totals over the sub maps. */
module ConnGraph {
  import opened Bytes

  /** What the connection's handler is doing: waiting for a message; in TaskQ, holding the parent it looked
      up; in HandshakeCheckStepQ2, between registering and `pc.step += 1`. */
  datatype Doing = Idle | Found(parent: nat) | Registering

  /** registeredAt counts registrations; a handler registers its connection only in step 1. */
  datatype Conn = Conn(step: nat, doing: Doing, registeredAt: Option<nat>)

  /** subs[p] lists the keys of connection p's subMap, in the order a Range meets them. */
  datatype State = State(conns: seq<Conn>, names: map<nat, nat>, subs: seq<seq<nat>>, clock: nat)

  datatype Label = Accept
                 | HandshakeQ1(c: nat)
                 | TaskQ(c: nat, name: nat)      // getProxyClient(SrcName) finds the parent
                 | Attach(c: nat)                // setProxySubClient stores
                 | AttachRefused(c: nat)         // ... or finds the parent disabled
                 | Register(c: nat, name: nat)   // setProxyClient stores
                 | StepUp(c: nat)
                 | DeleteName(name: nat)         // a close
                 | DeleteSub(p: nat, i: nat)     // a close's delProxySubClient

  const EMPTY := State([], map[], [], 0)

  predicate Is(st: State, c: nat, step: nat, doing: Doing) {
    c < |st.conns| && st.conns[c].step == step && st.conns[c].doing == doing
  }

  predicate Enabled(st: State, l: Label) {
    match l
    case Accept => true
    case HandshakeQ1(c) => Is(st, c, 0, Idle)
    case TaskQ(c, name) => Is(st, c, 0, Idle) && name in st.names
    case Attach(c) => c < |st.conns| && st.conns[c].doing.Found? && st.conns[c].doing.parent < |st.subs|
    case AttachRefused(c) => c < |st.conns| && st.conns[c].doing.Found?
    case Register(c, name) => Is(st, c, 1, Idle)
    case StepUp(c) => c < |st.conns| && st.conns[c].doing.Registering?
    case DeleteName(name) => true
    case DeleteSub(p, i) => p < |st.subs| && i < |st.subs[p]|
  }

  function Put(cs: seq<nat>, c: nat): seq<nat> {
    if c in cs then cs else cs + [c]
  }

  function Next(st: State, l: Label): State
    requires Enabled(st, l)
  {
    match l
    case Accept => st.(conns := st.conns + [Conn(0, Idle, None)], subs := st.subs + [[]])
    case HandshakeQ1(c) => st.(conns := st.conns[c := st.conns[c].(step := 1)])
    case TaskQ(c, name) => st.(conns := st.conns[c := st.conns[c].(doing := Found(st.names[name]))])
    case Attach(c) =>
      var p := st.conns[c].doing.parent;
      st.(conns := st.conns[c := st.conns[c].(doing := Idle)], subs := st.subs[p := Put(st.subs[p], c)])
    case AttachRefused(c) => st.(conns := st.conns[c := st.conns[c].(doing := Idle)])
    case Register(c, name) =>
      st.(conns := st.conns[c := Conn(1, Registering, Some(st.clock))],
          names := st.names[name := c], clock := st.clock + 1)
    case StepUp(c) => st.(conns := st.conns[c := st.conns[c].(step := st.conns[c].step + 1, doing := Idle)])
    case DeleteName(name) => st.(names := st.names - {name})
    case DeleteSub(p, i) => st.(subs := st.subs[p := st.subs[p][..i] + st.subs[p][i + 1..]])
  }

  predicate Leads(st: State, trace: seq<Label>, t: State)
    decreases |trace|
  {
    if trace == [] then t == st
    else Enabled(st, trace[0]) && Leads(Next(st, trace[0]), trace[1..], t)
  }

  predicate Registered(st: State, c: nat) {
    c < |st.conns| && st.conns[c].registeredAt.Some?
  }

  /** A connection in step 0 is not registered; one registers once, at an earlier clock. */
  predicate ConnOk(st: State, c: nat) {
    c < |st.conns| &&
    var x := st.conns[c];
    && (x.registeredAt.Some? ==>
          x.registeredAt.value < st.clock && (x.step > 1 || (x.step == 1 && x.doing.Registering?)))
    && (x.doing.Registering? ==> x.step == 1)
    && (x.doing.Found? ==> x.step == 0 && Registered(st, x.doing.parent))
  }

  /** c's registration, if it ever comes, is later than p's. */
  predicate Older(st: State, p: nat, c: nat) {
    && Registered(st, p) && c < |st.conns|
    && (st.conns[c].registeredAt.None? || st.conns[p].registeredAt.value < st.conns[c].registeredAt.value)
  }

  predicate Inv(st: State) {
    && |st.subs| == |st.conns|
    && (forall c | 0 <= c < |st.conns| :: ConnOk(st, c))
    && (forall n | n in st.names :: Registered(st, st.names[n]))
    && (forall p, i | 0 <= p < |st.subs| && 0 <= i < |st.subs[p]| :: Older(st, p, st.subs[p][i]))
  }

  lemma RegisteredStays(st: State, l: Label, c: nat)
    requires Enabled(st, l) && Registered(st, c) && ConnOk(st, c)
    ensures Registered(Next(st, l), c)
  {
  }

  lemma ConnStep(st: State, l: Label, c: nat)
    requires Inv(st) && Enabled(st, l) && c < |Next(st, l).conns|
    ensures ConnOk(Next(st, l), c)
  {
    if c < |st.conns| {
      assert ConnOk(st, c);
      if st.conns[c].doing.Found? {
        assert ConnOk(st, st.conns[c].doing.parent);
        RegisteredStays(st, l, st.conns[c].doing.parent);
      }
    }
  }

  lemma NamesStep(st: State, l: Label, n: nat)
    requires Inv(st) && Enabled(st, l) && n in Next(st, l).names
    ensures Registered(Next(st, l), Next(st, l).names[n])
  {
    if n in st.names {
      assert ConnOk(st, st.names[n]);
      RegisteredStays(st, l, st.names[n]);
    }
  }

  lemma OlderStays(st: State, l: Label, p: nat, c: nat)
    requires Enabled(st, l) && Older(st, p, c) && ConnOk(st, p) && ConnOk(st, c)
    ensures Older(Next(st, l), p, c)
  {
  }

  /** The heart: a handler attaches its connection before that is registered, to one that already is. */
  lemma AttachIsOlder(st: State, c: nat)
    requires Inv(st) && Enabled(st, Attach(c))
    ensures Older(Next(st, Attach(c)), st.conns[c].doing.parent, c)
  {
    assert ConnOk(st, c);
  }

  lemma SubsStep(st: State, l: Label, p: nat, i: nat)
    requires Inv(st) && Enabled(st, l)
    requires p < |Next(st, l).subs| && i < |Next(st, l).subs[p]|
    ensures Older(Next(st, l), p, Next(st, l).subs[p][i])
  {
    var c := Next(st, l).subs[p][i];
    if l.Attach? && p == st.conns[l.c].doing.parent && c == l.c {
      AttachIsOlder(st, c);
    } else {
      SubWasThere(st, l, p, i);
      var j :| 0 <= j < |st.subs[p]| && st.subs[p][j] == c;
      assert Older(st, p, st.subs[p][j]);
      assert ConnOk(st, p) && ConnOk(st, c);
      OlderStays(st, l, p, c);
    }
  }

  lemma SubWasThere(st: State, l: Label, p: nat, i: nat)
    requires Enabled(st, l) && p < |Next(st, l).subs| && i < |Next(st, l).subs[p]|
    requires !(l.Attach? && p == st.conns[l.c].doing.parent && Next(st, l).subs[p][i] == l.c)
    ensures p < |st.subs| && Next(st, l).subs[p][i] in st.subs[p]
  {
  }

  lemma InvStep(st: State, l: Label)
    requires Inv(st) && Enabled(st, l)
    ensures Inv(Next(st, l))
  {
    var t := Next(st, l);
    forall c | 0 <= c < |t.conns| ensures ConnOk(t, c) { ConnStep(st, l, c); }
    forall n | n in t.names ensures Registered(t, t.names[n]) { NamesStep(st, l, n); }
    forall p, i | 0 <= p < |t.subs| && 0 <= i < |t.subs[p]| ensures Older(t, p, t.subs[p][i]) {
      SubsStep(st, l, p, i);
    }
    assert |t.subs| == |t.conns|;
  }

  lemma {:induction false} InvHolds(st: State, trace: seq<Label>, t: State)
    requires Inv(st) && Leads(st, trace, t)
    ensures Inv(t)
    decreases |trace|
  {
    hide Inv, Enabled, Next;
    if trace != [] {
      InvStep(st, trace[0]);
      InvHolds(Next(st, trace[0]), trace[1..], t);
    }
  }

  // ---- Who is registered, and what is in a sub map ------------------------------------------------

  predicate Registers(l: Label, c: nat) { l.Register? && l.c == c }

  predicate EverRegisters(trace: seq<Label>, c: nat) {
    exists i | 0 <= i < |trace| :: Registers(trace[i], c)
  }

  lemma RegisteredStep(st: State, l: Label, c: nat)
    requires Inv(st) && Enabled(st, l)
    ensures Registered(Next(st, l), c) <==> Registered(st, c) || Registers(l, c)
  {
    if c < |st.conns| { assert ConnOk(st, c); }
  }

  /** A connection is registered exactly if it has shaken hands up to its name. */
  lemma {:induction false} RegisteredExactly(st: State, trace: seq<Label>, t: State, c: nat)
    requires Inv(st) && Leads(st, trace, t)
    ensures Registered(t, c) <==> Registered(st, c) || EverRegisters(trace, c)
    decreases |trace|
  {
    hide Inv, Next, Enabled, Registered, Registers;
    if trace != [] {
      var rest := trace[1..];
      RegisteredStep(st, trace[0], c);
      InvStep(st, trace[0]);
      RegisteredExactly(Next(st, trace[0]), rest, t, c);
      if EverRegisters(rest, c) {
        var i :| 0 <= i < |rest| && Registers(rest[i], c);
        assert trace[i + 1] == rest[i];
      }
      if EverRegisters(trace, c) && !Registers(trace[0], c) {
        var i :| 0 <= i < |trace| && Registers(trace[i], c);
        assert rest[i - 1] == trace[i];
      }
    }
  }

  /** The only steps that change who is in a sub map are an attach, which puts one connection into its
      parent's, and a close that takes one out. The names change by registering and closing only. */
  lemma MembersExactly(st: State, l: Label, p: nat, x: nat)
    requires Inv(st) && Enabled(st, l) && p < |st.subs| && Distinct(st.subs[p])
    ensures p < |Next(st, l).subs|
    ensures x in Next(st, l).subs[p] <==>
      || (l.Attach? && x == l.c && st.conns[x].doing == Found(p))
      || (x in st.subs[p] && !(l.DeleteSub? && l.p == p && st.subs[p][l.i] == x))
    ensures forall n, y :: (n in Next(st, l).names && Next(st, l).names[n] == y) <==>
      || (l == Register(y, n))
      || (n in st.names && st.names[n] == y && !(l.Register? && l.name == n) && l != DeleteName(n))
  {
    hide Inv;
    if l.DeleteSub? && l.p == p { DeleteOne(st.subs[p], l.i, x); }
  }

  lemma DeleteOne(cs: seq<nat>, i: nat, x: nat)
    requires Distinct(cs) && i < |cs|
    ensures x in cs[..i] + cs[i + 1..] <==> x in cs && x != cs[i]
  {
    if x in cs && x != cs[i] {
      var j :| 0 <= j < |cs| && cs[j] == x;
      if j < i { assert cs[..i][j] == x; } else { assert cs[i + 1..][j - i - 1] == x; }
    }
  }

  /** The label is a statement of connection c's own handler. */
  predicate OfHandler(l: Label, c: nat) {
    match l
    case HandshakeQ1(x) => x == c
    case TaskQ(x, _) => x == c
    case Attach(x) => x == c
    case AttachRefused(x) => x == c
    case Register(x, _) => x == c
    case StepUp(x) => x == c
    case _ => false
  }

  lemma {:induction false} HandlerAlone(st: State, trace: seq<Label>, t: State, c: nat)
    requires Leads(st, trace, t) && c < |st.conns| && |st.subs| == |st.conns|
    requires forall i | 0 <= i < |trace| :: !OfHandler(trace[i], c)
    ensures c < |t.conns| && t.conns[c] == st.conns[c] && |st.subs| <= |t.subs| == |t.conns|
    decreases |trace|
  {
    if trace != [] {
      assert !OfHandler(trace[0], c);
      HandlerAlone(Next(st, trace[0]), trace[1..], t, c);
    }
  }

  /** A TaskQ attaches the connection to whoever was registered under the name it gives, whatever happens in
      between; if that one is disabled, nothing changes and the handler waits for the next message. */
  lemma TaskQAttaches(st: State, c: nat, name: nat, between: seq<Label>, t: State)
    requires Inv(st) && Enabled(st, TaskQ(c, name)) && Leads(Next(st, TaskQ(c, name)), between, t)
    requires forall i | 0 <= i < |between| :: !OfHandler(between[i], c)
    ensures var p := st.names[name];
      && Enabled(t, Attach(c)) && p < |t.subs| && c in Next(t, Attach(c)).subs[p]
      && Enabled(t, AttachRefused(c)) && Next(t, AttachRefused(c)) == t.(conns := t.conns[c := st.conns[c]])
      && Is(Next(t, Attach(c)), c, 0, Idle)
  {
    assert Registered(st, st.names[name]);
    HandlerAlone(Next(st, TaskQ(c, name)), between, t, c);
  }

  /** A handshake registers the connection under the name it gives in its second step, whatever happens in
      between; its handler takes it for a registered one after that. */
  lemma HandshakeRegisters(st: State, c: nat, name: nat, first: seq<Label>, t: State, second: seq<Label>, u: State)
    requires Inv(st) && Enabled(st, HandshakeQ1(c)) && Leads(Next(st, HandshakeQ1(c)), first, t)
    requires forall i | 0 <= i < |first| :: !OfHandler(first[i], c)
    requires Enabled(t, Register(c, name)) ==> Leads(Next(t, Register(c, name)), second, u)
    requires forall i | 0 <= i < |second| :: !OfHandler(second[i], c)
    ensures Enabled(t, Register(c, name))
    ensures name in Next(t, Register(c, name)).names && Next(t, Register(c, name)).names[name] == c
    ensures Enabled(u, StepUp(c)) && Is(Next(u, StepUp(c)), c, 2, Idle) && Registered(Next(u, StepUp(c)), c)
  {
    HandlerAlone(Next(st, HandshakeQ1(c)), first, t, c);
    HandlerAlone(Next(t, Register(c, name)), second, u, c);
  }

  // ---- No cycles --------------------------------------------------------------------------------

  /** ns goes from each connection to one in its sub map. */
  predicate Path(st: State, ns: seq<nat>) {
    forall i | 0 <= i < |ns| - 1 :: ns[i] < |st.subs| && ns[i + 1] in st.subs[ns[i]]
  }

  lemma EdgeIsOlder(st: State, p: nat, c: nat)
    requires Inv(st) && p < |st.subs| && c in st.subs[p]
    ensures Older(st, p, c)
  {
    var i :| 0 <= i < |st.subs[p]| && st.subs[p][i] == c;
  }

  lemma {:induction false} PathIsOlder(st: State, ns: seq<nat>)
    requires Inv(st) && Path(st, ns) && |ns| >= 2
    ensures Older(st, ns[0], ns[|ns| - 1])
  {
    var n := |ns| - 1;
    assert ns[n - 1] < |st.subs| && ns[n - 1 + 1] in st.subs[ns[n - 1]];
    EdgeIsOlder(st, ns[n - 1], ns[n]);
    if n >= 2 {
      assert Path(st, ns[..n]) by {
        forall i | 0 <= i < n - 1 ensures ns[..n][i] < |st.subs| && ns[..n][i + 1] in st.subs[ns[..n][i]] {
          assert ns[i] < |st.subs| && ns[i + 1] in st.subs[ns[i]];
        }
      }
      PathIsOlder(st, ns[..n]);
    }
  }

  /** Whatever the clients send, no connection is ever its own sub, directly or through others. */
  lemma GraphIsAcyclic(trace: seq<Label>, t: State, ns: seq<nat>)
    requires Leads(EMPTY, trace, t) && Path(t, ns) && |ns| >= 2
    ensures ns[0] != ns[|ns| - 1]
  {
    InvHolds(EMPTY, trace, t);
    PathIsOlder(t, ns);
  }

  // ---- Speed totals ---------------------------------------------------------------------------

  datatype View = View(upload: int, download: int)

  function Total(xs: seq<int>): int {
    if xs == [] then 0 else Total(xs[..|xs| - 1]) + xs[|xs| - 1]
  }

  /** What makes it the sum. */
  lemma {:induction false} TotalIsSum(a: seq<int>, b: seq<int>, x: int)
    ensures Total([x]) == x && Total(a + b) == Total(a) + Total(b)
  {
    assert [x][..0] == [];
    if b == [] {
      assert a + b == a;
    } else {
      var n := |b| - 1;
      TotalIsSum(a, b[..n], x);
      assert (a + b)[..|a + b| - 1] == a + b[..n];
    }
  }

  function Uploads(list: seq<View>): seq<int> { seq(|list|, i requires 0 <= i < |list| => list[i].upload) }

  function Downloads(list: seq<View>): seq<int> { seq(|list|, i requires 0 <= i < |list| => list[i].download) }

  /** v is the total of the list, in both directions. */
  predicate Totals(v: View, list: seq<View>) {
    v.upload == Total(Uploads(list)) && v.download == Total(Downloads(list))
  }

  lemma TotalsNothing()
    ensures Totals(View(0, 0), [])
  {
  }

  lemma TotalsAppend(v: View, a: seq<View>, w: View, b: seq<View>)
    requires Totals(v, a) && Totals(w, b)
    ensures Totals(View(v.upload + w.upload, v.download + w.download), a + b)
  {
    assert Uploads(a + b) == Uploads(a) + Uploads(b) && Downloads(a + b) == Downloads(a) + Downloads(b);
    TotalIsSum(Uploads(a), Uploads(b), 0);
    TotalIsSum(Downloads(a), Downloads(b), 0);
  }

  lemma TotalsOne(v: View)
    ensures Totals(v, [v])
  {
    assert Uploads([v]) == [v.upload] && Downloads([v]) == [v.download];
    TotalIsSum([], [], v.upload);
    TotalIsSum([], [], v.download);
  }

  /** `CountAllNetworkSpeedView`, without the formatted strings. */
  method CountAllNetworkSpeedView(list: seq<View>) returns (resp: View)
    ensures Totals(resp, list)
  {
    hide *;
    resp := View(0, 0);
    TotalsNothing();
    for i := 0 to |list|
      invariant Totals(resp, list[..i])
    {
      TotalsOne(list[i]);
      TotalsAppend(resp, list[..i], list[i], [list[i]]);
      assert list[..i] + [list[i]] == list[..i + 1];
      resp := View(resp.upload + list[i].upload, resp.download + list[i].download);
    }
    assert list[..|list|] == list;
  }

  /** How many registrations came after c's: the recursion over sub maps goes down in it. */
  function Height(st: State, c: nat): nat
    requires Inv(st) && c < |st.conns|
  {
    if st.conns[c].registeredAt.None? then 0
    else
      assert ConnOk(st, c);
      st.clock - st.conns[c].registeredAt.value
  }

  lemma HeightFalls(st: State, p: nat, c: nat)
    requires Inv(st) && p < |st.subs| && c in st.subs[p]
    ensures c < |st.conns| && Height(st, c) < Height(st, p)
  {
    EdgeIsOlder(st, p, c);
    assert ConnOk(st, p) && ConnOk(st, c);
  }

  /** All chains of sub maps from p down, p itself first: one entry for each way to reach a connection. */
  function Reached(st: State, p: nat): seq<nat>
    requires Inv(st) && p < |st.subs|
    decreases Height(st, p), |st.subs[p]| + 1
  {
    ReachedBelow(st, p, |st.subs[p]|) + [p]
  }

  function ReachedBelow(st: State, p: nat, n: nat): seq<nat>
    requires Inv(st) && p < |st.subs| && n <= |st.subs[p]|
    decreases Height(st, p), n
  {
    if n == 0 then [] else
      HeightFalls(st, p, st.subs[p][n - 1]);
      ReachedBelow(st, p, n - 1) + Reached(st, st.subs[p][n - 1])
  }

  lemma BelowHas(st: State, p: nat, n: nat, j: nat, x: nat)
    requires Inv(st) && p < |st.subs| && j < n <= |st.subs[p]|
    requires st.subs[p][j] < |st.subs| && Height(st, st.subs[p][j]) < Height(st, p) && x in Reached(st, st.subs[p][j])
    ensures x in ReachedBelow(st, p, n)
    decreases n
  {
    hide Height, Inv;
    HeightFalls(st, p, st.subs[p][n - 1]);
    if j < n - 1 { BelowHas(st, p, n - 1, j, x); }
  }

  lemma BelowComes(st: State, p: nat, n: nat, x: nat) returns (j: nat)
    requires Inv(st) && p < |st.subs| && n <= |st.subs[p]| && x in ReachedBelow(st, p, n)
    ensures j < n && st.subs[p][j] < |st.subs| && Height(st, st.subs[p][j]) < Height(st, p)
    ensures x in Reached(st, st.subs[p][j])
    decreases n
  {
    HeightFalls(st, p, st.subs[p][n - 1]);
    if x in ReachedBelow(st, p, n - 1) { j := BelowComes(st, p, n - 1, x); } else { j := n - 1; }
  }

  predicate PathFromTo(st: State, ns: seq<nat>, p: nat, x: nat) {
    ns != [] && Path(st, ns) && ns[0] == p && ns[|ns| - 1] == x
  }

  lemma PathCons(st: State, p: nat, c: nat, ns: seq<nat>, x: nat)
    requires p < |st.subs| && c in st.subs[p] && PathFromTo(st, ns, c, x)
    ensures PathFromTo(st, [p] + ns, p, x)
  {
    var ms := [p] + ns;
    forall i | 0 <= i < |ms| - 1 ensures ms[i] < |st.subs| && ms[i + 1] in st.subs[ms[i]] {
      if i > 0 { assert ns[i - 1] < |st.subs| && ns[i - 1 + 1] in st.subs[ns[i - 1]]; }
    }
  }

  lemma PathTail(st: State, ns: seq<nat>, p: nat, x: nat)
    requires PathFromTo(st, ns, p, x) && |ns| > 1
    ensures p < |st.subs| && ns[1] in st.subs[p] && PathFromTo(st, ns[1..], ns[1], x)
  {
    assert ns[0] < |st.subs| && ns[0 + 1] in st.subs[ns[0]];
    forall i | 0 <= i < |ns| - 2 ensures ns[1..][i] < |st.subs| && ns[1..][i + 1] in st.subs[ns[1..][i]] {
      assert ns[i + 1] < |st.subs| && ns[i + 1 + 1] in st.subs[ns[i + 1]];
    }
  }

  lemma {:induction false} ReachedIsOnPath(st: State, p: nat, x: nat) returns (ns: seq<nat>)
    requires Inv(st) && p < |st.subs| && x in Reached(st, p)
    ensures PathFromTo(st, ns, p, x)
    decreases Height(st, p)
  {
    if x == p {
      ns := [p];
    } else {
      var j := BelowComes(st, p, |st.subs[p]|, x);
      var rest := ReachedIsOnPath(st, st.subs[p][j], x);
      PathCons(st, p, st.subs[p][j], rest, x);
      ns := [p] + rest;
    }
  }

  lemma {:induction false} PathIsReached(st: State, ns: seq<nat>, p: nat, x: nat)
    requires Inv(st) && p < |st.subs| && PathFromTo(st, ns, p, x)
    ensures x in Reached(st, p)
    decreases |ns|
  {
    if |ns| > 1 {
      PathTail(st, ns, p, x);
      var j :| 0 <= j < |st.subs[p]| && st.subs[p][j] == ns[1];
      HeightFalls(st, p, ns[1]);
      PathIsReached(st, ns[1..], ns[1], x);
      BelowHas(st, p, |st.subs[p]|, j, x);
    }
  }

  /** The totals are over exactly the connections that paths of sub maps lead to. */
  lemma ReachedExactly(st: State, p: nat, x: nat)
    requires Inv(st) && p < |st.subs|
    ensures x in Reached(st, p) <==> exists ns :: PathFromTo(st, ns, p, x)
  {
    hide Reached, Inv, PathFromTo;
    if x in Reached(st, p) {
      var ns := ReachedIsOnPath(st, p, x);
    }
    if ns :| PathFromTo(st, ns, p, x) {
      PathIsReached(st, ns, p, x);
    }
  }

  /** A sub map has one entry per key, whatever is attached how often. */
  predicate Distinct(cs: seq<nat>) {
    forall i, j | 0 <= i < j < |cs| :: cs[i] != cs[j]
  }

  lemma {:induction false} NoSubTwice(st: State, trace: seq<Label>, t: State)
    requires Leads(st, trace, t) && forall p | 0 <= p < |st.subs| :: Distinct(st.subs[p])
    ensures forall p | 0 <= p < |t.subs| :: Distinct(t.subs[p])
    decreases |trace|
  {
    if trace != [] { NoSubTwice(Next(st, trace[0]), trace[1..], t); }
  }

  /** An attach puts the connection into its parent's sub map and changes no other. */
  lemma AttachStores(st: State, c: nat)
    requires Inv(st) && Enabled(st, Attach(c))
    ensures Inv(Next(st, Attach(c)))
    ensures var t, p := Next(st, Attach(c)), st.conns[c].doing.parent;
      && c in t.subs[p] && c in Reached(t, p)
      && forall q, x | 0 <= q < |st.subs| && (q, x) != (p, c) :: x in t.subs[q] <==> x in st.subs[q]
  {
    var t, p := Next(st, Attach(c)), st.conns[c].doing.parent;
    InvStep(st, Attach(c));
    assert ConnOk(st, c);
    var j :| 0 <= j < |t.subs[p]| && t.subs[p][j] == c;
    HeightFalls(t, p, c);
    BelowHas(t, p, |t.subs[p]|, j, c);
  }

  function SpeedOf(own: seq<View>, c: nat): View {
    if c < |own| then own[c] else View(0, 0)
  }

  function Speeds(own: seq<View>, cs: seq<nat>): (vs: seq<View>)
    ensures |vs| == |cs| && forall i | 0 <= i < |cs| :: vs[i] == SpeedOf(own, cs[i])
  {
    seq(|cs|, i requires 0 <= i < |cs| => SpeedOf(own, cs[i]))
  }

  lemma SpeedsConcat(own: seq<View>, a: seq<nat>, b: seq<nat>)
    ensures Speeds(own, a + b) == Speeds(own, a) + Speeds(own, b)
  {
    hide Speeds, SpeedOf;
    var x, y := Speeds(own, a + b), Speeds(own, a) + Speeds(own, b);
    assert |x| == |y|;
    forall i | 0 <= i < |x| ensures x[i] == y[i] {
      if i < |a| { assert (a + b)[i] == a[i]; } else { assert (a + b)[i] == b[i - |a|]; }
    }
  }

  predicate SameTotals(a: seq<View>, b: seq<View>) {
    Total(Uploads(a)) == Total(Uploads(b)) && Total(Downloads(a)) == Total(Downloads(b))
  }

  /** Totals of totals. */
  lemma SameTotalsAppend(a: seq<View>, b: seq<View>, v: View, c: seq<View>)
    requires SameTotals(a, b) && Totals(v, c)
    ensures SameTotals(a + [v], b + c)
  {
    TotalsOne(v);
    TotalsAppend(View(Total(Uploads(a)), Total(Downloads(a))), a, v, [v]);
    TotalsAppend(View(Total(Uploads(b)), Total(Downloads(b))), b, v, c);
    hide Total, Uploads, Downloads;
  }

  lemma SpeedsEnds(own: seq<View>, p: nat)
    requires p < |own|
    ensures Speeds(own, []) == [] && SameTotals([], Speeds(own, [])) && Totals(own[p], Speeds(own, [p]))
  {
    TotalsOne(own[p]);
    assert Speeds(own, [p]) == [own[p]];
  }

  lemma TotalsSame(v: View, a: seq<View>, b: seq<View>)
    requires Totals(v, a) && SameTotals(a, b)
    ensures Totals(v, b)
  {
  }

  lemma ReachedUnfold(st: State, p: nat, n: nat)
    requires Inv(st) && p < |st.subs| && n <= |st.subs[p]|
    ensures Reached(st, p) == ReachedBelow(st, p, |st.subs[p]|) + [p]
    ensures ReachedBelow(st, p, 0) == []
    ensures n > 0 ==>
      && st.subs[p][n - 1] < |st.subs| && Height(st, st.subs[p][n - 1]) < Height(st, p)
      && ReachedBelow(st, p, n) == ReachedBelow(st, p, n - 1) + Reached(st, st.subs[p][n - 1])
  {
    hide Height;
    if n > 0 { HeightFalls(st, p, st.subs[p][n - 1]); }
  }

  /** `getAllNetworkSpeed` on a sub graph that does not change meanwhile: it terminates, and returns the sum
      over everything reached. */
  method GetAllNetworkSpeed(st: State, own: seq<View>, p: nat) returns (v: View)
    requires Inv(st) && |own| == |st.conns| && p < |st.conns|
    ensures Totals(v, Speeds(own, Reached(st, p)))
    decreases Height(st, p)
  {
    assert |st.subs| == |st.conns|;
    hide *;
    var list: seq<View> := [];
    var subs := st.subs[p];
    SpeedsEnds(own, p);
    ReachedUnfold(st, p, 0);
    for i := 0 to |subs|
      invariant SameTotals(list, Speeds(own, ReachedBelow(st, p, i)))
    {
      ReachedUnfold(st, p, i + 1);
      var one := GetAllNetworkSpeed(st, own, subs[i]);
      SpeedsConcat(own, ReachedBelow(st, p, i), Reached(st, subs[i]));
      SameTotalsAppend(list, Speeds(own, ReachedBelow(st, p, i)), one, Speeds(own, Reached(st, subs[i])));
      list := list + [one];
    }
    SpeedsConcat(own, ReachedBelow(st, p, |subs|), [p]);
    SameTotalsAppend(list, Speeds(own, ReachedBelow(st, p, |subs|)), own[p], Speeds(own, [p]));
    v := CountAllNetworkSpeedView(list + [own[p]]);
    TotalsSame(v, list + [own[p]], Speeds(own, Reached(st, p)));
  }

  // ---- How often a connection is counted -----------------------------------------------------------

  /** ns put in front of by p. */
  function From(p: nat, paths: seq<seq<nat>>): (r: seq<seq<nat>>)
    ensures |r| == |paths| && forall i | 0 <= i < |r| :: r[i] == [p] + paths[i]
  {
    seq(|paths|, i requires 0 <= i < |paths| => [p] + paths[i])
  }

  /** The paths are as many, and end where cs says, and begin at p. */
  predicate LeadTo(st: State, paths: seq<seq<nat>>, p: nat, cs: seq<nat>) {
    |paths| == |cs| && forall i | 0 <= i < |paths| :: PathFromTo(st, paths[i], p, cs[i])
  }

  predicate AllDifferent(paths: seq<seq<nat>>) {
    forall i, j | 0 <= i < j < |paths| :: paths[i] != paths[j]
  }

  predicate NoDuplicates(st: State) {
    forall q | 0 <= q < |st.subs| :: Distinct(st.subs[q])
  }

  /** The paths go through one of p's first n subs. */
  predicate Through(st: State, paths: seq<seq<nat>>, p: nat, n: nat)
    requires p < |st.subs| && n <= |st.subs[p]|
  {
    forall i | 0 <= i < |paths| :: |paths[i]| > 1 && paths[i][1] in st.subs[p][..n]
  }

  /** All paths from p, in the order of `Reached`. */
  function Paths(st: State, p: nat): seq<seq<nat>>
    requires Inv(st) && p < |st.subs|
    decreases Height(st, p), |st.subs[p]| + 1
  {
    PathsBelow(st, p, |st.subs[p]|) + [[p]]
  }

  function PathsBelow(st: State, p: nat, n: nat): seq<seq<nat>>
    requires Inv(st) && p < |st.subs| && n <= |st.subs[p]|
    decreases Height(st, p), n
  {
    if n == 0 then [] else
      HeightFalls(st, p, st.subs[p][n - 1]);
      PathsBelow(st, p, n - 1) + From(p, Paths(st, st.subs[p][n - 1]))
  }

  lemma PathsUnfold(st: State, p: nat, n: nat)
    requires Inv(st) && p < |st.subs| && n <= |st.subs[p]|
    ensures Paths(st, p) == PathsBelow(st, p, |st.subs[p]|) + [[p]]
    ensures PathsBelow(st, p, 0) == []
    ensures n > 0 ==>
      && st.subs[p][n - 1] < |st.subs|
      && PathsBelow(st, p, n) == PathsBelow(st, p, n - 1) + From(p, Paths(st, st.subs[p][n - 1]))
  {
    hide Height;
    if n > 0 { HeightFalls(st, p, st.subs[p][n - 1]); }
  }

  lemma {:induction false} PathsBelowLead(st: State, p: nat, n: nat)
    requires Inv(st) && p < |st.subs| && n <= |st.subs[p]| && NoDuplicates(st)
    ensures var paths := PathsBelow(st, p, n);
      LeadTo(st, paths, p, ReachedBelow(st, p, n)) && AllDifferent(paths) && Through(st, paths, p, n)
    decreases Height(st, p), n
  {
    hide *;
    ReachedUnfold(st, p, n);
    PathsUnfold(st, p, n);
    if n == 0 {
      NoPaths(st, p);
    } else {
      var c := st.subs[p][n - 1];
      PathsBelowLead(st, p, n - 1);
      PathsLead(st, c);
      MorePaths(st, p, n, PathsBelow(st, p, n - 1), Paths(st, c));
    }
  }

  lemma NoPaths(st: State, p: nat)
    requires p < |st.subs|
    ensures LeadTo(st, [], p, []) && AllDifferent([]) && Through(st, [], p, 0)
  {
  }

  lemma MorePaths(st: State, p: nat, n: nat, before: seq<seq<nat>>, rest: seq<seq<nat>>)
    requires Inv(st) && p < |st.subs| && 0 < n <= |st.subs[p]| && NoDuplicates(st)
    requires LeadTo(st, before, p, ReachedBelow(st, p, n - 1)) && AllDifferent(before) && Through(st, before, p, n - 1)
    requires st.subs[p][n - 1] < |st.subs|
    requires LeadTo(st, rest, st.subs[p][n - 1], Reached(st, st.subs[p][n - 1])) && AllDifferent(rest)
    ensures var paths := before + From(p, rest);
      LeadTo(st, paths, p, ReachedBelow(st, p, n)) && AllDifferent(paths) && Through(st, paths, p, n)
  {
    ReachedUnfold(st, p, n);
    hide Inv, Reached, ReachedBelow, Path, Height;
    var c := st.subs[p][n - 1];
    var longer := From(p, rest);
    forall i | 0 <= i < |rest|
      ensures PathFromTo(st, longer[i], p, Reached(st, c)[i]) && |longer[i]| > 1 && longer[i][1] == c
    {
      PathCons(st, p, c, rest[i], Reached(st, c)[i]);
    }
    assert c !in st.subs[p][..n - 1] by { assert Distinct(st.subs[p]); }
    forall i, j | 0 <= i < j < |rest| ensures longer[i] != longer[j] {
      assert longer[i][1..] == rest[i] && longer[j][1..] == rest[j];
    }
  }

  lemma {:induction false} PathsLead(st: State, p: nat)
    requires Inv(st) && p < |st.subs| && NoDuplicates(st)
    ensures LeadTo(st, Paths(st, p), p, Reached(st, p)) && AllDifferent(Paths(st, p))
    decreases Height(st, p), |st.subs[p]| + 1
  {
    hide *;
    PathsBelowLead(st, p, |st.subs[p]|);
    ReachedUnfold(st, p, 0);
    PathsUnfold(st, p, 0);
    OwnPath(st, p, PathsBelow(st, p, |st.subs[p]|), ReachedBelow(st, p, |st.subs[p]|));
  }

  lemma OwnPath(st: State, p: nat, below: seq<seq<nat>>, cs: seq<nat>)
    requires p < |st.subs| && LeadTo(st, below, p, cs) && AllDifferent(below) && Through(st, below, p, |st.subs[p]|)
    ensures LeadTo(st, below + [[p]], p, cs + [p]) && AllDifferent(below + [[p]])
  {
  }

  lemma {:induction false} BelowHasPath(st: State, p: nat, n: nat, j: nat, ns: seq<nat>)
    requires Inv(st) && p < |st.subs| && j < n <= |st.subs[p]|
    requires st.subs[p][j] < |st.subs| && ns in Paths(st, st.subs[p][j])
    ensures [p] + ns in PathsBelow(st, p, n)
    decreases n
  {
    hide *;
    PathsUnfold(st, p, n);
    if j < n - 1 {
      BelowHasPath(st, p, n - 1, j, ns);
    } else {
      var paths := Paths(st, st.subs[p][j]);
      var i :| 0 <= i < |paths| && paths[i] == ns;
      assert From(p, paths)[i] == [p] + ns;
    }
  }

  lemma {:induction false} PathIsListed(st: State, ns: seq<nat>, p: nat, x: nat)
    requires Inv(st) && p < |st.subs| && PathFromTo(st, ns, p, x)
    ensures ns in Paths(st, p)
    decreases |ns|
  {
    hide Inv, Paths, PathsBelow, Height, Path;
    PathsUnfold(st, p, 0);
    if |ns| > 1 {
      PathTail(st, ns, p, x);
      var j :| 0 <= j < |st.subs[p]| && st.subs[p][j] == ns[1];
      PathsUnfold(st, p, j + 1);
      PathIsListed(st, ns[1..], ns[1], x);
      BelowHasPath(st, p, |st.subs[p]|, j, ns[1..]);
      assert ns == [p] + ns[1..];
    } else {
      assert ns == [p];
    }
  }

  /** Each entry of the total stands for one path of sub maps from p, each path has one entry: a connection is
      counted once for each way it is reached, p itself once. */
  lemma CountedOncePerPath(st: State, p: nat)
    requires Inv(st) && p < |st.subs| && NoDuplicates(st)
    ensures exists paths ::
      && LeadTo(st, paths, p, Reached(st, p)) && AllDifferent(paths)
      && forall ns, x :: PathFromTo(st, ns, p, x) ==> ns in paths
  {
    hide *;
    PathsLead(st, p);
    forall ns, x | PathFromTo(st, ns, p, x) ensures ns in Paths(st, p) { PathIsListed(st, ns, p, x); }
  }
}
