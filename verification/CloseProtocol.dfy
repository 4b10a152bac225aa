/** Closing on the server, as steps of any number of goroutines: `close` and `Close` with their
    cascades over links and sub-clients, attaching subs, registering names, shutdown.

    A `close` body runs at most once per client, inside its `sync.Once`; whoever calls `Do` later
    waits until that body has finished, and so does the goroutine that runs it, being suspended in
    its own call. So it does not matter which goroutine runs the body: the state holds one program counter
    per client for its body, and one per call, whose caller waits for the body to be `Done`. */
module CloseProtocol {
  import opened Bytes

  type Name = string

  /** What a connection conforms to: `Box` shakes hands and registers a name, `Sub` sends task and VPN
      requests, any number of them. `Both` is a connection that does both, in any order. */
  datatype Role = Box | Sub | Both {
    predicate CanParent() { Box? || Both? }
    predicate CanLink() { Sub? || Both? }
  }

  /** A call under way: `x.Close()` starts at Load, `x.close()` at Once. */
  datatype Call = Load(x: nat) | Once(x: nat) | Await(x: nat)

  datatype ClosePc =
    | Unclosed | StoreDisable | CloseRaw | ReadLink | CloseLink(call: Call)
    | LockSubs | RangeSubs | CloseSub(call: Call) | DropSub(key: nat) | DelName | UnlockSubs | Done
  {
    /** The body holds the client's subMapLock. */
    predicate HoldsSubs() { RangeSubs? || CloseSub? || DropSub? || DelName? || UnlockSubs? }

    /** The body has not yet ranged over the subs. */
    predicate BeforeSubs() { Unclosed? || StoreDisable? || CloseRaw? || ReadLink? || CloseLink? || LockSubs? }

    predicate BeforeLink() { Unclosed? || StoreDisable? || CloseRaw? || ReadLink? }

    /** The name has been deleted from the registry. */
    predicate NameGone() { UnlockSubs? || Done? }
  }

  datatype Link = NoLink | Peer(y: nat) | Foreign

  /** The last request that may set `linkConn`: none, the one linking operation i is about, or one for a VPN. */
  datatype Room = NoRoom | Joined(i: nat) | Vpn

  datatype Owner = Nobody | Closer | ByOp(i: nat)

  /** `stamp` counts disable stores, `saw` is the link the body read, `regOp` the operation that
      registers the client, `retired` a client whose handler ended before registering. */
  datatype Client = Client(
    role: Role, disable: bool, pc: ClosePc, link: Link, name: Option<Name>, subs: set<nat>, subLock: Owner,
    stored: bool, retired: bool, regOp: Option<nat>, room: Room, stamp: nat, saw: Option<nat>)

  datatype AttachPc = ALock | ALoad | AClose(call: Call) | AStore | AUnlock | ADone {
    predicate Holds() { !ALock? && !ADone? }
  }
  datatype RegisterPc = RLock | RLookup | RClose(call: Call) | RStore | RUnlock | RDone {
    predicate Holds() { !RLock? && !RDone? }
  }
  datatype ShutdownPc = SLock | SRange(todo: set<Name>) | SClose(call: Call, rest: set<Name>) | SUnlock | SDone {
    predicate Holds() { !SLock? && !SDone? }
  }
  datatype LinkPc = LFirst | LSecond | LDone

  /** What goroutines do besides running close bodies. */
  datatype Op =
    | Closing(call: Call)                     // a call of close() from a handler or a failed write
    | Closed(x: nat)                          // ... which has returned
    | Attach(p: nat, s: nat, a: AttachPc)     // p.setProxySubClient(s.id, s)
    // ps.setProxyClient(n, c); `found` records the client it displaces
    | Register(c: nat, n: Name, r: RegisterPc, found: Option<nat>)
    | Shutdown(d: ShutdownPc)                 // the server's close function
    | LinkUp(c1: nat, c2: nat, l: LinkPc)     // both initLinkConn calls of joinTaskRoom

  datatype State = State(clients: seq<Client>, ops: seq<Op>, registry: map<Name, nat>, regLock: Owner, clock: nat,
                         shutdownOp: Option<nat>)

  datatype Label =
    | Connect(role: Role)
    | StartClose(x: nat) | StartAttach(p: nat, s: nat) | StartRegister(c: nat, n: Name)
    | StartShutdown | StartLink(c1: nat, c2: nat) | LinkForeign(x: nat)
    | StepClose(x: nat, pick: nat)            // the body of x's close; pick is the entry Range yields next
    | StepOp(i: nat, pickName: Name)

  const EMPTY := State([], [], map[], Nobody, 0, None)

  function NewClient(role: Role): Client {
    Client(role, false, Unclosed, NoLink, None, {}, Nobody, false, false, None, NoRoom, 0, None)
  }

  function Set(st: State, x: nat, c: Client): State
    requires x < |st.clients|
  {
    st.(clients := st.clients[x := c])
  }

  function SetOp(st: State, i: nat, op: Op): State
    requires i < |st.ops|
  {
    st.(ops := st.ops[i := op])
  }

  function Spawn(st: State, op: Op): State { st.(ops := st.ops + [op]) }

  // ---- Calls ----------------------------------------------------------------------

  predicate CallEnabled(st: State, c: Call) {
    c.x < |st.clients| && (c.Await? ==> st.clients[c.x].pc.Done?)
  }

  /** Entering the Once starts the body if nobody has. */
  function AfterCall(st: State, c: Call): State
    requires c.x < |st.clients|
  {
    if c.Once? && st.clients[c.x].pc.Unclosed? then Set(st, c.x, st.clients[c.x].(pc := StoreDisable)) else st
  }

  /** Where the call is next; None when it has returned. */
  function CallNext(st: State, c: Call): Option<Call>
    requires c.x < |st.clients|
  {
    match c
    case Load(x) => if st.clients[x].disable then None else Some(Once(x))
    case Once(x) => Some(Await(x))
    case Await(x) => None
  }

  // ---- The close body -----------------------------------------------------------------

  predicate CloseEnabled(st: State, x: nat, pick: nat) {
    x < |st.clients| &&
    var c := st.clients[x];
    match c.pc
    case Unclosed => false
    case Done => false
    case CloseLink(call) => CallEnabled(st, call)
    case CloseSub(call) => CallEnabled(st, call)
    case LockSubs => c.subLock.Nobody?
    case RangeSubs => c.subs == {} || pick in c.subs
    case _ => true
  }

  function CloseNext(st: State, x: nat, pick: nat): State
    requires CloseEnabled(st, x, pick)
  {
    var c := st.clients[x];
    match c.pc
    case StoreDisable =>
      Set(st.(clock := st.clock + 1), x, c.(disable := true, stamp := st.clock, pc := CloseRaw))
    case CloseRaw => Set(st, x, c.(pc := ReadLink))
    case ReadLink =>
      if c.link.Peer? then Set(st, x, c.(pc := CloseLink(Load(c.link.y)), saw := Some(c.link.y)))
      else Set(st, x, c.(pc := LockSubs))
    case CloseLink(call) =>
      var r := CallNext(st, call);
      var t := AfterCall(st, call);
      Set(t, x, t.clients[x].(pc := if r.None? then LockSubs else CloseLink(r.value)))
    case LockSubs => Set(st, x, c.(pc := RangeSubs, subLock := Closer))
    case RangeSubs =>
      if c.subs == {} then Set(st, x, c.(pc := DelName)) else Set(st, x, c.(pc := CloseSub(Once(pick))))
    case CloseSub(call) =>
      var r := CallNext(st, call);
      var t := AfterCall(st, call);
      Set(t, x, t.clients[x].(pc := if r.None? then DropSub(call.x) else CloseSub(r.value)))
    case DropSub(key) => Set(st, x, c.(pc := RangeSubs, subs := c.subs - {key}))
    case DelName =>
      var t := Set(st, x, c.(pc := UnlockSubs));
      if c.name.Some? then t.(registry := st.registry - {c.name.value}) else t
    case UnlockSubs => Set(st, x, c.(pc := Done, subLock := Nobody))
    case _ => st
  }

  // ---- The other operations --------------------------------------------------------------

  predicate OpEnabled(st: State, i: nat, pick: Name) {
    i < |st.ops| &&
    match st.ops[i]
    case Closing(call) => CallEnabled(st, call)
    case Closed(x) => false
    case Attach(p, s, a) =>
      p < |st.clients| && s < |st.clients| &&
      (match a
       case ALock => st.clients[p].subLock.Nobody?
       case AClose(call) => CallEnabled(st, call)
       case ADone => false
       case _ => true)
    case Register(c, n, r, found) =>
      c < |st.clients| &&
      (match r
       case RLock => st.regLock.Nobody?
       case RClose(call) => CallEnabled(st, call)
       case RDone => false
       case _ => true)
    case Shutdown(d) =>
      (match d
       case SLock => st.regLock.Nobody?
       case SRange(todo) => todo == {} || pick in todo
       case SClose(call, rest) => CallEnabled(st, call)
       case SDone => false
       case _ => true)
    case LinkUp(c1, c2, l) => c1 < |st.clients| && c2 < |st.clients| && !l.LDone?
  }

  function AttachNext(st: State, i: nat): State
    requires OpEnabled(st, i, "") && st.ops[i].Attach?
  {
    var Attach(p, s, a) := st.ops[i];
    var c := st.clients[p];
    match a
    case ALock => SetOp(Set(st, p, c.(subLock := ByOp(i))), i, Attach(p, s, ALoad))
    case ALoad => SetOp(st, i, Attach(p, s, if c.disable then AClose(Once(s)) else AStore))
    case AClose(call) =>
      var r := CallNext(st, call);
      SetOp(AfterCall(st, call), i, Attach(p, s, if r.None? then AUnlock else AClose(r.value)))
    case AStore => SetOp(Set(st, p, c.(subs := c.subs + {s})), i, Attach(p, s, AUnlock))
    case AUnlock => SetOp(Set(st, p, c.(subLock := Nobody)), i, Attach(p, s, ADone))
    case ADone => st
  }

  function RegisterNext(st: State, i: nat): State
    requires OpEnabled(st, i, "") && st.ops[i].Register?
  {
    var Register(c, n, r, found) := st.ops[i];
    match r
    case RLock => SetOp(st.(regLock := ByOp(i)), i, Register(c, n, RLookup, found))
    case RLookup =>
      if n in st.registry then
        SetOp(st, i, Register(c, n, RClose(Once(st.registry[n])), Some(st.registry[n])))
      else SetOp(st, i, Register(c, n, RStore, None))
    case RClose(call) =>
      var q := CallNext(st, call);
      SetOp(AfterCall(st, call), i, Register(c, n, if q.None? then RStore else RClose(q.value), found))
    case RStore =>
      var t := Set(st.(registry := st.registry[n := c]), c, st.clients[c].(stored := true));
      SetOp(t, i, Register(c, n, RUnlock, found))
    case RUnlock => SetOp(st.(regLock := Nobody), i, Register(c, n, RDone, found))
    case RDone => st
  }

  function ShutdownNext(st: State, i: nat, pick: Name): State
    requires OpEnabled(st, i, pick) && st.ops[i].Shutdown?
  {
    match st.ops[i].d
    case SLock => SetOp(st.(regLock := ByOp(i)), i, Shutdown(SRange(st.registry.Keys)))
    case SRange(todo) =>
      if todo == {} then SetOp(st, i, Shutdown(SUnlock))
      else if pick in st.registry then SetOp(st, i, Shutdown(SClose(Once(st.registry[pick]), todo - {pick})))
      else SetOp(st, i, Shutdown(SRange(todo - {pick})))
    case SClose(call, rest) =>
      var r := CallNext(st, call);
      SetOp(AfterCall(st, call), i, Shutdown(if r.None? then SRange(rest) else SClose(r.value, rest)))
    case SUnlock => SetOp(st.(regLock := Nobody), i, Shutdown(SDone))
    case SDone => st
  }

  function OpNext(st: State, i: nat, pick: Name): State
    requires OpEnabled(st, i, pick)
  {
    match st.ops[i]
    case Closing(call) =>
      var r := CallNext(st, call);
      SetOp(AfterCall(st, call), i, if r.None? then Closed(call.x) else Closing(r.value))
    case Closed(x) => st
    case Attach(p, s, a) => AttachNext(st, i)
    case Register(c, n, r, found) => RegisterNext(st, i)
    case Shutdown(d) => ShutdownNext(st, i, pick)
    case LinkUp(c1, c2, l) =>
      if l.LFirst? then SetOp(Set(st, c1, st.clients[c1].(link := Peer(c2))), i, LinkUp(c1, c2, LSecond))
      else SetOp(Set(st, c2, st.clients[c2].(link := Peer(c1))), i, LinkUp(c1, c2, LDone))
  }

  // ---- The whole server --------------------------------------------------------------------

  predicate Enabled(st: State, l: Label) {
    match l
    case Connect(role) => true
    // a client whose registration is under way is known to its own handler only, which is busy
    case StartClose(x) => x < |st.clients| && (st.clients[x].name.Some? ==> st.clients[x].stored)
    // the parent was found in the registry
    case StartAttach(p, s) =>
      && p < |st.clients| && s < |st.clients|
      && st.clients[p].role.CanParent() && st.clients[p].stored && st.clients[s].role.CanLink()
    // once per connection, from its own handler
    case StartRegister(c, n) =>
      && c < |st.clients| && st.clients[c].role.CanParent()
      && st.clients[c].name.None? && !st.clients[c].retired
    // inside the server's own sync.Once
    case StartShutdown => st.shutdownOp.None?
    // of one room or of several, and it may be the same connection twice
    case StartLink(c1, c2) =>
      && c1 < |st.clients| && c2 < |st.clients|
      && st.clients[c1].role.CanLink() && st.clients[c2].role.CanLink()
    case LinkForeign(x) => x < |st.clients| && st.clients[x].role.CanLink()
    case StepClose(x, pick) => CloseEnabled(st, x, pick)
    case StepOp(i, pick) => OpEnabled(st, i, pick)
  }

  function Next(st: State, l: Label): State
    requires Enabled(st, l)
  {
    match l
    case Connect(role) => st.(clients := st.clients + [NewClient(role)])
    case StartClose(x) =>
      var c := st.clients[x];
      Spawn(Set(st, x, if c.name.None? then c.(retired := true) else c), Closing(Once(x)))
    case StartAttach(p, s) => Spawn(st, Attach(p, s, ALock))
    case StartRegister(c, n) =>
      Spawn(Set(st, c, st.clients[c].(name := Some(n), regOp := Some(|st.ops|))), Register(c, n, RLock, None))
    case StartShutdown => Spawn(st.(shutdownOp := Some(|st.ops|)), Shutdown(SLock))
    case StartLink(c1, c2) =>
      var t := Set(st, c1, st.clients[c1].(room := Joined(|st.ops|)));
      Spawn(Set(t, c2, t.clients[c2].(room := Joined(|st.ops|))), LinkUp(c1, c2, LFirst))
    case LinkForeign(x) => Set(st, x, st.clients[x].(room := Vpn, link := Foreign))
    case StepClose(x, pick) => CloseNext(st, x, pick)
    case StepOp(i, pick) => OpNext(st, i, pick)
  }

  /** Progress of calls already made, as opposed to new ones. */
  predicate InFlight(l: Label) { l.StepClose? || l.StepOp? }

  /** The schedule `trace`, from st, leads to t. */
  predicate Leads(st: State, trace: seq<Label>, t: State)
    decreases |trace|
  {
    if trace == [] then t == st
    else Enabled(st, trace[0]) && Leads(Next(st, trace[0]), trace[1..], t)
  }

  /** Conforming clients only. */
  predicate Conforming(trace: seq<Label>) {
    forall i | 0 <= i < |trace| :: trace[i].Connect? ==> !trace[i].role.Both?
  }
}
