/** `joinTaskRoom`: two connections meet in a room under its lock and are linked. */
module TaskRoom {
  import opened Bytes

  type ConnId = nat
  type Addr = nat
  type RoomId = nat

  /** One join request: who sends it (with the address the server sees) and what it says. */
  datatype Joiner = Joiner(conn: ConnId, publicAddr: Addr, srcName: string, addr: Addr, id: string)

  datatype SubInfo = SubInfo(
    localName: string, remoteName: string, localIntranet: Addr, remoteIntranet: Addr,
    localPublic: Addr, remotePublic: Addr)

  /** What one join does: nothing yet, link c1 and c2 and answer both, or refuse. */
  datatype Outcome =
    | Waits
    | Links(c1: ConnId, c2: ConnId, id1: string, info1: SubInfo, id2: string, info2: SubInfo)
    | Refused(id: string)

  datatype Room = Room(step: nat, first: Option<Joiner>, second: Option<Joiner>)

  const NEW_ROOM := Room(0, None, None)

  /** Each side's view is the other's with local and remote exchanged. */
  predicate Mirrors(a: SubInfo, b: SubInfo) {
    && a.localName == b.remoteName && a.remoteName == b.localName
    && a.localIntranet == b.remoteIntranet && a.remoteIntranet == b.localIntranet
    && a.localPublic == b.remotePublic && a.remotePublic == b.localPublic
  }

  function InfoFor(a: Joiner, b: Joiner): SubInfo {
    SubInfo(a.srcName, b.srcName, a.addr, b.addr, a.publicAddr, b.publicAddr)
  }

  /** The room after a joiner entered, and what came of it. */
  function Enter(r: Room, j: Joiner): (Room, Outcome) {
    if r.step == 0 then (Room(1, Some(j), r.second), Waits)
    else if r.step == 1 && r.first.Some? then
      var a := r.first.value;
      (Room(2, r.first, Some(j)), Links(a.conn, j.conn, a.id, InfoFor(a, j), j.id, InfoFor(j, a)))
    else (r, Refused(j.id))
  }

  /** A `proxyTaskRoom`, changed in place while its lock is held. */
  class ProxyTaskRoom {
    var step: nat
    var c1: Option<ConnId>
    var c2: Option<ConnId>
    var i1: Option<Joiner>
    var i2: Option<Joiner>

    ghost function Value(): Room reads this { Room(step, i1, i2) }

    ghost predicate Valid() reads this {
      && (step > 0 ==> i1.Some? && c1 == Some(i1.value.conn))
      && (step > 1 ==> i2.Some? && c2 == Some(i2.value.conn))
    }

    constructor ()
      ensures Valid() && Value() == NEW_ROOM
    {
      step, c1, c2, i1, i2 := 0, None, None, None, None;
    }

    method Join(j: Joiner) returns (o: Outcome)
      requires Valid()
      modifies this
      ensures Valid() && (Value(), o) == Enter(old(Value()), j)
    {
      if step == 0 {
        c1 := Some(j.conn);
        i1 := Some(j);
        step := step + 1;
        o := Waits;
      } else if step == 1 {
        c2 := Some(j.conn);
        i2 := Some(j);
        var a := i1.value;
        var info1 := SubInfo(a.srcName, j.srcName, a.addr, j.addr, a.publicAddr, j.publicAddr);
        var info2 := SubInfo(j.srcName, a.srcName, j.addr, a.addr, j.publicAddr, a.publicAddr);
        step := step + 1;
        o := Links(c1.value, c2.value, a.id, info1, j.id, info2);
      } else {
        o := Refused(j.id);
      }
    }
  }

  // ---- Any number of rooms and join requests ----------------------------------------------

  type ReqId = nat

  /** Where a join request is: it found the room and has still to take its lock, it is the i-th that
      entered the room, or it found no room. A connection may make any number of requests. */
  datatype Place = Found(room: RoomId, j: Joiner) | In(room: RoomId, i: nat, j: Joiner) | TurnedAway(j: Joiner)

  /** A room, and the record of who entered it, by which requests, in which order, and what came of it. */
  datatype Visited = Visited(room: Room, entered: seq<Joiner>, reqs: seq<ReqId>, outcomes: seq<Outcome>)

  /** `listed` are the rooms still to be found; a room deleted from the map can still be entered by a
      request that found it before. `links` says who is linked with whom. */
  datatype State = State(
    rooms: map<RoomId, Visited>, listed: set<RoomId>, places: map<ReqId, Place>, links: map<ConnId, ConnId>)

  const EMPTY := State(map[], {}, map[], map[])

  datatype Label = Open(room: RoomId) | LookUp(req: ReqId, room: RoomId, j: Joiner) | EnterRoom(req: ReqId)
                 | Expire(room: RoomId)

  predicate Enabled(st: State, l: Label) {
    match l
    case Open(room) => room !in st.rooms            // a fresh id
    case LookUp(req, room, j) => req !in st.places
    case EnterRoom(req) => req in st.places && st.places[req].Found? && st.places[req].room in st.rooms
    case Expire(room) => true
  }

  function Next(st: State, l: Label): State
    requires Enabled(st, l)
  {
    match l
    case Open(room) =>
      st.(rooms := st.rooms[room := Visited(NEW_ROOM, [], [], [])], listed := st.listed + {room})
    case LookUp(req, room, j) =>
      st.(places := st.places[req := if room in st.listed then Found(room, j) else TurnedAway(j)])
    case EnterRoom(req) =>
      var Found(room, j) := st.places[req];
      var v := st.rooms[room];
      var (r, o) := Enter(v.room, j);
      st.(rooms := st.rooms[room := Visited(r, v.entered + [j], v.reqs + [req], v.outcomes + [o])],
          listed := if o.Links? then st.listed - {room} else st.listed,
          places := st.places[req := In(room, |v.entered|, j)],
          links := if o.Links? then st.links[o.c1 := o.c2][o.c2 := o.c1] else st.links)
    case Expire(room) => st.(listed := st.listed - {room})
  }

  predicate Leads(st: State, trace: seq<Label>, t: State)
    decreases |trace|
  {
    if trace == [] then t == st
    else Enabled(st, trace[0]) && Leads(Next(st, trace[0]), trace[1..], t)
  }

  /** The room after js entered a new one, in that order: stated without `Enter`. */
  function RoomAfter(js: seq<Joiner>): Room {
    Room(if |js| < 2 then |js| else 2, if |js| > 0 then Some(js[0]) else None, if |js| > 1 then Some(js[1]) else None)
  }

  /** An answer to a about its link with b. */
  predicate Answers(info: SubInfo, a: Joiner, b: Joiner) {
    && info.localName == a.srcName && info.localIntranet == a.addr && info.localPublic == a.publicAddr
    && info.remoteName == b.srcName && info.remoteIntranet == b.addr && info.remotePublic == b.publicAddr
  }

  /** o links a with b, and answers each to its own request. */
  predicate LinksThem(o: Outcome, a: Joiner, b: Joiner) {
    && o.Links? && o.c1 == a.conn && o.c2 == b.conn && o.id1 == a.id && o.id2 == b.id
    && Answers(o.info1, a, b) && Answers(o.info2, b, a) && Mirrors(o.info1, o.info2)
  }

  /** The first waits, the second is linked with the first, everybody else is refused. */
  predicate OneShot(js: seq<Joiner>, os: seq<Outcome>) {
    && |os| == |js|
    && (|js| > 0 ==> os[0] == Waits)
    && (|js| > 1 ==> LinksThem(os[1], js[0], js[1]))
    && (forall i | 2 <= i < |js| :: os[i] == Refused(js[i].id))
  }

  predicate RoomInv(st: State, room: RoomId)
    requires room in st.rooms
  {
    var v := st.rooms[room];
    && v.room == RoomAfter(v.entered)
    && OneShot(v.entered, v.outcomes)
    && |v.reqs| == |v.entered|
    && (forall i | 0 <= i < |v.reqs| :: v.reqs[i] in st.places && st.places[v.reqs[i]] == In(room, i, v.entered[i]))
  }

  predicate Inv(st: State) {
    && (forall room | room in st.listed :: room in st.rooms)
    && (forall q | q in st.places && st.places[q].Found? :: st.places[q].room in st.rooms)
    && (forall room | room in st.rooms :: RoomInv(st, room))
  }

  lemma EnterMatches(js: seq<Joiner>, os: seq<Outcome>, j: Joiner)
    requires OneShot(js, os)
    ensures var (r, o) := Enter(RoomAfter(js), j);
      && r == RoomAfter(js + [j]) && OneShot(js + [j], os + [o])
      && (o.Links? <==> |js| == 1)
      && (o.Links? ==> o.c1 == js[0].conn && o.c2 == j.conn)
  {
  }

  /** What entering changes, the room having been entered by js so far. */
  lemma EnterNext(st: State, req: ReqId)
    requires Enabled(st, EnterRoom(req)) && RoomInv(st, st.places[req].room)
    ensures var (t, room, j) := (Next(st, EnterRoom(req)), st.places[req].room, st.places[req].j);
      var v := st.rooms[room];
      && room in t.rooms && t.rooms == st.rooms[room := t.rooms[room]]
      && t.rooms[room].entered == v.entered + [j] && t.rooms[room].reqs == v.reqs + [req]
      && t.rooms[room].room == RoomAfter(v.entered + [j])
      && OneShot(v.entered + [j], t.rooms[room].outcomes)
      && t.places == st.places[req := In(room, |v.entered|, j)] && t.listed <= st.listed
      && t.links == if |v.entered| == 1 then st.links[v.entered[0].conn := j.conn][j.conn := v.entered[0].conn]
                    else st.links
  {
    var v := st.rooms[st.places[req].room];
    EnterMatches(v.entered, v.outcomes, st.places[req].j);
    hide OneShot, Enter, RoomAfter;
  }

  lemma EnterRoomInv(st: State, req: ReqId, r: RoomId)
    requires Enabled(st, EnterRoom(req)) && r in st.rooms
    requires RoomInv(st, st.places[req].room) && RoomInv(st, r)
    ensures r in Next(st, EnterRoom(req)).rooms && RoomInv(Next(st, EnterRoom(req)), r)
  {
    EnterNext(st, req);
    hide OneShot, RoomAfter, Next;
  }

  lemma OtherRoomInv(st: State, l: Label, r: RoomId)
    requires Enabled(st, l) && !l.EnterRoom? && r in Next(st, l).rooms && (r in st.rooms ==> RoomInv(st, r))
    ensures RoomInv(Next(st, l), r)
  {
    if r in st.rooms { hide OneShot, RoomAfter; } else { NewRoomIsOneShot(); }
  }

  lemma NewRoomIsOneShot()
    ensures OneShot([], []) && RoomAfter([]) == NEW_ROOM
  {
  }

  lemma EnterInv(st: State, req: ReqId)
    requires Inv(st) && Enabled(st, EnterRoom(req))
    ensures Inv(Next(st, EnterRoom(req)))
  {
    hide RoomInv, Next;
    var t := Next(st, EnterRoom(req));
    assert RoomInv(st, st.places[req].room);
    EnterNext(st, req);
    forall r | r in t.rooms ensures RoomInv(t, r) { EnterRoomInv(st, req, r); }
  }

  lemma OtherInv(st: State, l: Label)
    requires Inv(st) && Enabled(st, l) && !l.EnterRoom?
    ensures Inv(Next(st, l))
  {
    hide RoomInv;
    var t := Next(st, l);
    forall r | r in t.rooms ensures RoomInv(t, r) { OtherRoomInv(st, l, r); }
  }

  lemma StepInv(st: State, l: Label)
    requires Inv(st) && Enabled(st, l)
    ensures Inv(Next(st, l))
  {
    hide *;
    if l.EnterRoom? { EnterInv(st, l.req); } else { OtherInv(st, l); }
  }

  lemma {:induction false} RunInv(st: State, trace: seq<Label>, t: State)
    requires Inv(st) && Leads(st, trace, t)
    ensures Inv(t)
    decreases |trace|
  {
    hide Inv, Next, Enabled;
    if trace != [] {
      StepInv(st, trace[0]);
      RunInv(Next(st, trace[0]), trace[1..], t);
    }
  }

  lemma EmptyInv()
    ensures Inv(EMPTY)
  {
  }

  /** Under every interleaving of lookups, entries and expiry, for connections that join as often and
      wherever they like: a room links exactly its first two entrants, once, answers them with
      mirrored infos and refuses the rest. */
  lemma RoomsAreOneShot(trace: seq<Label>, st: State, room: RoomId)
    requires Leads(EMPTY, trace, st) && room in st.rooms
    ensures OneShot(st.rooms[room].entered, st.rooms[room].outcomes)
    ensures st.rooms[room].room == RoomAfter(st.rooms[room].entered)
  {
    hide Leads, OneShot, RoomAfter;
    EmptyInv();
    RunInv(EMPTY, trace, st);
    assert RoomInv(st, room);
  }

  // ---- Which rooms are found ---------------------------------------------------------------------

  /** The room was opened and has not expired since. */
  predicate OpenIn(trace: seq<Label>, room: RoomId) {
    trace != [] &&
    var n := |trace| - 1;
    if trace[n] == Expire(room) then false else trace[n] == Open(room) || OpenIn(trace[..n], room)
  }

  /** The rooms still listed are the open ones that nobody or one request has entered. */
  ghost predicate ListInv(before: seq<Label>, st: State) {
    forall room: RoomId ::
      room in st.listed <==> OpenIn(before, room) && room in st.rooms && |st.rooms[room].entered| < 2
  }

  ghost predicate OpenedInv(before: seq<Label>, st: State) {
    forall room: RoomId :: OpenIn(before, room) ==> room in st.rooms
  }

  lemma OpenSnoc(trace: seq<Label>, l: Label, room: RoomId)
    ensures OpenIn(trace + [l], room) <==> l != Expire(room) && (l == Open(room) || OpenIn(trace, room))
  {
    assert (trace + [l])[..|trace|] == trace;
  }

  predicate SameRoom(st: State, t: State, room: RoomId) {
    room in t.rooms ==> room in st.rooms && t.rooms[room] == st.rooms[room]
  }

  /** What a step does to one room and its listing. */
  lemma ListStep(st: State, l: Label, room: RoomId)
    requires Inv(st) && Enabled(st, l)
    ensures var t := Next(st, l);
      && (room in st.rooms ==> room in t.rooms)
      && match l
         case Open(r) =>
           if r == room then room !in st.rooms && room in t.listed && room in t.rooms && t.rooms[room].entered == []
           else (room in t.listed <==> room in st.listed) && SameRoom(st, t, room)
         case Expire(r) => t.rooms == st.rooms && (room in t.listed <==> room in st.listed && r != room)
         case LookUp(_, _, _) => t.rooms == st.rooms && t.listed == st.listed
         case EnterRoom(req) =>
           var r := st.places[req].room;
           if r == room then
             && room in st.rooms && |t.rooms[room].entered| == |st.rooms[room].entered| + 1
             && (room in t.listed <==> room in st.listed && |st.rooms[room].entered| != 1)
           else (room in t.listed <==> room in st.listed) && SameRoom(st, t, room)
  {
    if l.EnterRoom? {
      var r := st.places[l.req].room;
      assert RoomInv(st, r);
      EnterMatches(st.rooms[r].entered, st.rooms[r].outcomes, st.places[l.req].j);
    }
    hide Inv, OneShot, RoomInv;
  }

  lemma ListInvStep(before: seq<Label>, st: State, l: Label)
    requires Inv(st) && ListInv(before, st) && OpenedInv(before, st) && Enabled(st, l)
    ensures ListInv(before + [l], Next(st, l)) && OpenedInv(before + [l], Next(st, l))
  {
    var t := Next(st, l);
    hide Inv, Next, OpenIn;
    forall room: RoomId
      ensures OpenIn(before + [l], room) ==> room in t.rooms
      ensures room in t.listed <==> OpenIn(before + [l], room) && room in t.rooms && |t.rooms[room].entered| < 2
    {
      OpenSnoc(before, l, room);
      ListStep(st, l, room);
    }
  }

  lemma {:induction false} ListRuns(before: seq<Label>, st: State, trace: seq<Label>, t: State)
    requires Inv(st) && ListInv(before, st) && OpenedInv(before, st) && Leads(st, trace, t)
    ensures ListInv(before + trace, t) && OpenedInv(before + trace, t)
    decreases |trace|
  {
    hide Inv, ListInv, OpenedInv, Next, Enabled;
    if trace == [] {
      assert before + [] == before;
    } else {
      ListInvStep(before, st, trace[0]);
      StepInv(st, trace[0]);
      ListRuns(before + [trace[0]], Next(st, trace[0]), trace[1..], t);
      assert (before + [trace[0]]) + trace[1..] == before + trace;
    }
  }

  /** A request finds a room exactly if that was opened, has not expired since, and no second request has
      entered it; otherwise it is turned away. */
  lemma FoundExactly(trace: seq<Label>, st: State, req: ReqId, room: RoomId, j: Joiner)
    requires Leads(EMPTY, trace, st) && Enabled(st, LookUp(req, room, j))
    ensures var p := Next(st, LookUp(req, room, j)).places[req];
      p == if OpenIn(trace, room) && room in st.rooms && |st.rooms[room].entered| < 2 then Found(room, j)
           else TurnedAway(j)
    ensures OpenIn(trace, room) ==> room in st.rooms
  {
    EmptyInv();
    hide Leads, Inv, OpenIn;
    OpenEmpty();
    ListRuns([], EMPTY, trace, st);
    assert [] + trace == trace;
  }

  lemma OpenEmpty()
    ensures ListInv([], EMPTY) && OpenedInv([], EMPTY)
  {
  }

  // ---- Each connection joins at most once ----------------------------------------------------

  predicate OneJoinEach(trace: seq<Label>) {
    forall i, k | 0 <= i < k < |trace| && trace[i].LookUp? && trace[k].LookUp? :: trace[i].j.conn != trace[k].j.conn
  }

  /** At most the connections in `repeaters` make more than one request. */
  predicate OneJoinBut(trace: seq<Label>, repeaters: set<ConnId>) {
    forall i, k | 0 <= i < k < |trace| && trace[i].LookUp? && trace[k].LookUp? && trace[i].j.conn == trace[k].j.conn ::
      trace[i].j.conn in repeaters
  }

  /** c is linked with another connection, and that one with c. */
  predicate LinkedBack(st: State, c: ConnId)
    requires c in st.links
  {
    var d := st.links[c];
    d != c && d in st.links && st.links[d] == c
  }

  /** The links are a symmetric matching. */
  predicate Matched(st: State) {
    forall c | c in st.links :: LinkedBack(st, c)
  }

  /** No two requests come from one connection. */
  predicate Apart(st: State) {
    forall p, q | p in st.places && q in st.places && p != q :: st.places[p].j.conn != st.places[q].j.conn
  }

  /** The joins of the schedule come from connections without a request so far. */
  predicate StillToJoin(st: State, trace: seq<Label>) {
    forall i, q | 0 <= i < |trace| && trace[i].LookUp? && q in st.places :: st.places[q].j.conn != trace[i].j.conn
  }

  predicate RoomLinked(st: State, room: RoomId)
    requires room in st.rooms
  {
    var js := st.rooms[room].entered;
    |js| > 1 ==>
      && js[0].conn != js[1].conn && js[0].conn in st.links && js[1].conn in st.links
      && st.links[js[0].conn] == js[1].conn && st.links[js[1].conn] == js[0].conn
  }

  predicate Pair(st: State, room: RoomId, c: ConnId) {
    && room in st.rooms && |st.rooms[room].entered| > 1
    && (c == st.rooms[room].entered[0].conn || c == st.rooms[room].entered[1].conn)
  }

  predicate LinkedInRoom(st: State, c: ConnId) {
    exists room | room in st.rooms :: Pair(st, room, c)
  }

  predicate MatchInv(st: State) {
    && Apart(st)
    && (forall room | room in st.rooms :: RoomLinked(st, room))
    && (forall c | c in st.links :: LinkedInRoom(st, c))
  }

  /** Who entered another room has another connection than who enters now or waits there. */
  lemma Strangers(st: State, req: ReqId, r: RoomId, i: nat)
    requires Apart(st) && Enabled(st, EnterRoom(req)) && r in st.rooms && RoomInv(st, r)
    requires RoomInv(st, st.places[req].room) && i < |st.rooms[r].entered|
    ensures st.rooms[r].entered[i].conn != st.places[req].j.conn
    ensures r != st.places[req].room && |st.rooms[st.places[req].room].entered| > 0 ==>
      st.rooms[r].entered[i].conn != st.rooms[st.places[req].room].entered[0].conn
  {
    hide OneShot, RoomAfter;
    var p := st.rooms[r].reqs[i];
    assert st.places[p] == In(r, i, st.rooms[r].entered[i]);
    var v := st.rooms[st.places[req].room];
    if |v.entered| > 0 { assert st.places[v.reqs[0]] == In(st.places[req].room, 0, v.entered[0]); }
  }

  lemma EnterKeepsLinked(st: State, req: ReqId, r: RoomId)
    requires Apart(st) && Enabled(st, EnterRoom(req)) && r in st.rooms && RoomInv(st, r) && RoomLinked(st, r)
    requires RoomInv(st, st.places[req].room)
    ensures r in Next(st, EnterRoom(req)).rooms && RoomLinked(Next(st, EnterRoom(req)), r)
  {
    EnterNext(st, req);
    var js := st.rooms[r].entered;
    if |js| > 0 { Strangers(st, req, r, 0); }
    if |js| > 1 { Strangers(st, req, r, 1); }
    hide RoomInv, Next, Apart, OneShot, RoomAfter;
  }

  lemma EnterKeepsPairs(st: State, req: ReqId, c: ConnId)
    requires Enabled(st, EnterRoom(req)) && RoomInv(st, st.places[req].room)
    requires c in Next(st, EnterRoom(req)).links && (c in st.links ==> LinkedInRoom(st, c))
    ensures LinkedInRoom(Next(st, EnterRoom(req)), c)
  {
    EnterNext(st, req);
    var t, room := Next(st, EnterRoom(req)), st.places[req].room;
    hide Next, RoomInv, OneShot, RoomAfter;
    if c in st.links {
      var r :| r in st.rooms && Pair(st, r, c);
      assert r in t.rooms && st.rooms[r].entered <= t.rooms[r].entered;
      assert Pair(t, r, c);
    } else {
      assert Pair(t, room, c);
    }
  }

  lemma ApartStep(st: State, l: Label, rest: seq<Label>)
    requires Apart(st) && Enabled(st, l) && StillToJoin(st, [l] + rest) && OneJoinEach([l] + rest)
    ensures Apart(Next(st, l)) && StillToJoin(Next(st, l), rest) && OneJoinEach(rest)
  {
    var trace := [l] + rest;
    assert trace[0] == l;
    assert forall i | 0 <= i < |rest| :: rest[i] == trace[i + 1];
    assert forall q | q in Next(st, l).places :: q in st.places || (l.LookUp? && q == l.req);
    assert forall q | q in st.places :: Next(st, l).places[q].j == st.places[q].j;
    assert l.LookUp? ==> Next(st, l).places[l.req].j == l.j;
    hide Next;
  }

  /** Any other step leaves links and rooms alone, but for a new empty room. */
  lemma OtherNext(st: State, l: Label)
    requires Enabled(st, l) && !l.EnterRoom?
    ensures Next(st, l).links == st.links
    ensures forall r | r in st.rooms :: r in Next(st, l).rooms && Next(st, l).rooms[r] == st.rooms[r]
    ensures forall r | r in Next(st, l).rooms && r !in st.rooms :: Next(st, l).rooms[r].entered == []
  {
  }

  lemma OtherMatch(st: State, l: Label)
    requires MatchInv(st) && Enabled(st, l) && !l.EnterRoom?
    ensures var t := Next(st, l);
      (forall room | room in t.rooms :: RoomLinked(t, room)) && forall c | c in t.links :: LinkedInRoom(t, c)
  {
    var t := Next(st, l);
    OtherNext(st, l);
    hide Next, Enabled, Apart;
    forall room | room in t.rooms ensures RoomLinked(t, room) {
      if room in st.rooms { assert RoomLinked(st, room); }
    }
    forall c | c in t.links ensures LinkedInRoom(t, c) {
      assert LinkedInRoom(st, c);
      var r :| r in st.rooms && Pair(st, r, c);
      assert Pair(t, r, c);
    }
  }

  lemma MatchStep(st: State, l: Label)
    requires Inv(st) && MatchInv(st) && Enabled(st, l) && Apart(Next(st, l))
    ensures MatchInv(Next(st, l))
  {
    var t := Next(st, l);
    if l.EnterRoom? {
      EnterNext(st, l.req);
      assert Enabled(st, EnterRoom(l.req)) && RoomInv(st, st.places[l.req].room);
      hide RoomInv, RoomLinked, LinkedInRoom, Next, Enabled, Apart, OneShot, RoomAfter;
      forall r | r in t.rooms ensures RoomLinked(t, r) { EnterKeepsLinked(st, l.req, r); }
      forall c | c in t.links ensures LinkedInRoom(t, c) { EnterKeepsPairs(st, l.req, c); }
    } else {
      hide Inv, Apart;
      OtherMatch(st, l);
    }
  }

  lemma {:induction false} RunMatch(st: State, trace: seq<Label>, t: State)
    requires Inv(st) && MatchInv(st) && Leads(st, trace, t) && OneJoinEach(trace) && StillToJoin(st, trace)
    ensures Inv(t) && MatchInv(t)
    decreases |trace|
  {
    if trace != [] {
      assert trace == [trace[0]] + trace[1..];
      assert Apart(st);
      hide Inv, MatchInv, Next, Enabled, OneJoinEach, StillToJoin, Apart;
      ApartStep(st, trace[0], trace[1..]);
      StepInv(st, trace[0]);
      MatchStep(st, trace[0]);
      RunMatch(Next(st, trace[0]), trace[1..], t);
    }
  }

  /** If each connection joins at most once, the links of all rooms together are a symmetric matching. */
  lemma LinksAreAMatching(trace: seq<Label>, st: State, c: ConnId)
    requires Leads(EMPTY, trace, st) && OneJoinEach(trace) && c in st.links
    ensures LinkedBack(st, c)
  {
    hide Leads, OneJoinEach, RoomInv;
    EmptyInv();
    RunMatch(EMPTY, trace, st);
    assert LinkedInRoom(st, c);
    var room :| room in st.rooms && Pair(st, room, c);
    assert RoomLinked(st, room);
  }

  lemma LeadsCons(st: State, l: Label, n: State, trace: seq<Label>, t: State)
    requires Enabled(st, l) && Next(st, l) == n && Leads(n, trace, t)
    ensures Leads(st, [l] + trace, t)
  {
    hide Enabled, Next;
    assert ([l] + trace)[1..] == trace;
  }

  /** A connection that joins a room twice can be linked with itself. */
  lemma SelfLinkHappens(j: Joiner) returns (w: seq<Label>, t: State)
    ensures Leads(EMPTY, w, t) && OneJoinBut(w, {j.conn})
    ensures j.conn in t.links && t.links[j.conn] == j.conn
  {
    var s1 := Next(EMPTY, Open(0));
    var s2 := Next(s1, LookUp(0, 0, j));
    var s3 := Next(s2, EnterRoom(0));
    assert s3.listed == {0};
    var s4 := Next(s3, LookUp(1, 0, j));
    t := Next(s4, EnterRoom(1));
    assert t.links[j.conn] == j.conn;
    w := [];
    assert Leads(t, w, t);
    hide Leads, Next;
    LeadsCons(s4, EnterRoom(1), t, w, t);
    w := [EnterRoom(1)] + w;
    LeadsCons(s3, LookUp(1, 0, j), s4, w, t);
    w := [LookUp(1, 0, j)] + w;
    LeadsCons(s2, EnterRoom(0), s3, w, t);
    w := [EnterRoom(0)] + w;
    LeadsCons(s1, LookUp(0, 0, j), s2, w, t);
    w := [LookUp(0, 0, j)] + w;
    LeadsCons(EMPTY, Open(0), s1, w, t);
    w := [Open(0)] + w;
  }

  /** The links of all rooms together are a matching, for every schedule in which at most the connections in
      `repeaters` join more than once, if and only if there are none of those. */
  lemma MatchingExactly(repeaters: set<ConnId>)
    ensures (forall trace, st :: Leads(EMPTY, trace, st) && OneJoinBut(trace, repeaters) ==> Matched(st))
      <==> repeaters == {}
  {
    if c :| c in repeaters {
      var w, t := SelfLinkHappens(Joiner(c, 0, "", 0, ""));
      assert OneJoinBut(w, repeaters) && !Matched(t);
    } else {
      forall trace, st | Leads(EMPTY, trace, st) && OneJoinBut(trace, repeaters) ensures Matched(st) {
        assert OneJoinEach(trace);
        hide Leads, OneJoinEach;
        forall c | c in st.links ensures LinkedBack(st, c) { LinksAreAMatching(trace, st, c); }
      }
    }
  }

  /** Of one room: it links c with itself exactly when the first two requests that enter it are c's. */
  lemma SelfLinkExactly(trace: seq<Label>, st: State, room: RoomId, c: ConnId)
    requires Leads(EMPTY, trace, st) && room in st.rooms
    ensures var v := st.rooms[room];
      (exists i | 0 <= i < |v.outcomes| :: LinksSelf(v.outcomes[i], c))
      <==> |v.entered| > 1 && v.entered[0].conn == c && v.entered[1].conn == c
  {
    RoomsAreOneShot(trace, st, room);
    hide Leads;
    var v := st.rooms[room];
    if |v.entered| > 1 && v.entered[0].conn == c && v.entered[1].conn == c { assert LinksSelf(v.outcomes[1], c); }
  }

  predicate LinksSelf(o: Outcome, c: ConnId) { o.Links? && o.c1 == c && o.c2 == c }
}
