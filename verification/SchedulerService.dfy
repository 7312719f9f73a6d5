/** What the request counter of a connection counts, and how many requests a connection really serves. */
module SchedulerService {
  import opened Wrappers
  import opened SchedulerSpec
  import opened SchedulerInvariants
  import opened SchedulerOrder

  // ---- The counter ----------------------------------------------------------------------------------------

  ghost predicate CountsFit<I, C>(s: Sched<I, C>) {
    forall c :: c in s.conns ==> s.conns[c].reqCount <= s.limits.maxRequests
  }

  /** NET_CONNECT for a connection that carries a request and has counted all it may. */
  predicate CountsAgain<I, C>(s: Sched<I, C>, e: Event<I, C>) {
    e.NetConnect? && e.c in s.conns && s.conns[e.c].requestId in s.mapped && s.conns[e.c].reqCount == s.limits.maxRequests
  }

  lemma ConnectFits<I, C>(s: Sched<I, C>, i: I, spare: C)
    requires CountsFit(s) && PoolInv(s) && FreeInv(s)
    ensures CountsFit(Connect(s, i, spare))
  {
    if s.available != [] { assert s.available[0] in s.available; }
  }

  lemma ReleaseFits<I, C>(s: Sched<I, C>, id: nat)
    requires CountsFit(s) && MapInv(s) && id in s.mapped
    ensures CountsFit(Release(s, id))
  {
  }

  lemma RemovalFits<I, C>(s: Sched<I, C>, id: nat, spare: C)
    requires Inv(s) && CountsFit(s)
    ensures CountsFit(RemoveIntercept(s, id, spare))
  {
    hide Connect, Release;
    if id in s.mapped {
      ReleaseFits(s, id);
      ReleaseKeeps(s, id);
      var t := Release(s, id);
      if t.queue != [] { ConnectFits(t.(queue := t.queue[1..]), t.queue[0], spare); }
    }
  }

  lemma ReconnectionFits<I, C>(s: Sched<I, C>, c: C, spare: C)
    requires Inv(s) && CountsFit(s) && c in s.conns
    ensures CountsFit(ConnectionClosed(SetState(ReConnect(s, s.conns[c].requestId, spare), c, Closed), c))
  {
    hide Connect, ConnectionClosed, SetState;
    var id := s.conns[c].requestId;
    if id in s.mapped { ConnectFits(s.(mapped := s.mapped - {id}), s.mapped[id].0, spare); }
    ClosedFits(ReConnect(s, id, spare), c);
  }

  /** An event takes a counter beyond the limit exactly if it is the NET_CONNECT of a connection whose request
      was counted before. */
  lemma StepFits<I, C>(s: Sched<I, C>, e: Event<I, C>)
    requires Inv(s) && CountsFit(s) && Enabled(s, e)
    ensures CountsFit(Step(s, e)) <==> !CountsAgain(s, e)
  {
    hide Connect, RemoveIntercept, ReConnect, ConnectionClosed;
    match e
    case Submit(i, spare) => ConnectFits(Submitted(s, i), i, spare);
    case NetConnect(c) => NetConnectFits(s, c);
    case ConnectFailed(c, spare) => ReconnectionFits(s, c, spare);
    case RequestWritten(id) =>
    case ResponseDone(c, spare) =>
      SetFieldsKeeps(s, c, s.conns[c].(state := Complete), {}, {});
      RemovalFits(SetState(s, c, Complete), s.conns[c].requestId, spare);
    case Abort(id, spare) => RemovalFits(s, id, spare);
    case Eos(c, spare) => if !s.conns[c].readEnable { ReconnectionFits(s, c, spare); } else { ClosedFits(s, c); }
    case NetError(c) => ClosedFits(s, c);
  }

  lemma NetConnectFits<I, C>(s: Sched<I, C>, c: C)
    requires CountsFit(s) && c in s.conns
    ensures CountsFit(Step(s, NetConnect(c))) <==> !CountsAgain(s, NetConnect(c))
  {
    var t := Step(s, NetConnect(c));
    assert t.conns[c].reqCount == s.conns[c].reqCount + if s.conns[c].requestId in s.mapped then 1 else 0;
  }

  lemma ClosedFits<I, C>(s: Sched<I, C>, c: C)
    requires CountsFit(s)
    ensures CountsFit(ConnectionClosed(s, c)) && CountsFit(ConnectionClosed(SetState(s, c, Closed), c))
  {
  }

  /** In all states of the run. */
  ghost predicate AlwaysFit<I, C>(s: Sched<I, C>, es: seq<Event<I, C>>)
    decreases |es|
  {
    CountsFit(s) && (es == [] || AlwaysFit(Step(s, es[0]), es[1..]))
  }

  ghost predicate NeverAgain<I, C>(s: Sched<I, C>, es: seq<Event<I, C>>)
    decreases |es|
  {
    es == [] || (!CountsAgain(s, es[0]) && NeverAgain(Step(s, es[0]), es[1..]))
  }

  lemma {:induction false} RunsFit<I, C>(s: Sched<I, C>, es: seq<Event<I, C>>)
    requires Inv(s) && CountsFit(s) && Possible(s, es)
    ensures AlwaysFit(s, es) <==> NeverAgain(s, es)
    decreases |es|
  {
    hide Inv, Step, CountsFit, CountsAgain, Enabled;
    if es != [] {
      StepFits(s, es[0]);
      StepKeeps(s, es[0]);
      if !CountsAgain(s, es[0]) { RunsFit(Step(s, es[0]), es[1..]); } else { NotAlways(Step(s, es[0]), es[1..]); }
    }
  }

  lemma NotAlways<I, C>(s: Sched<I, C>, es: seq<Event<I, C>>)
    requires !CountsFit(s)
    ensures !AlwaysFit(s, es)
  {
  }

  // ---- The service ----------------------------------------------------------------------------------------

  function Count<I, C>(s: Sched<I, C>, c: C): nat {
    Fields(s, c).reqCount
  }

  /** The intercept a connection carries. */
  function Carried<I, C>(s: Sched<I, C>, c: C): Option<I> {
    if c in s.conns && s.conns[c].requestId in s.mapped then Some(s.mapped[s.conns[c].requestId].0) else None
  }

  /** createFCGIClient took effect on the connection, for the intercept it carries then. */
  function Begun<I, C>(s: Sched<I, C>, t: Sched<I, C>, c: C): set<I> {
    if Count(t, c) > Count(s, c) && Carried(t, c).Some? then {Carried(t, c).value} else {}
  }

  /** The intercepts a connection has served so far, carried from `s` to `t`; a new connection has none. */
  function Served<I, C>(s: Sched<I, C>, t: Sched<I, C>, served: map<C, set<I>>): map<C, set<I>> {
    map c | c in t.conns :: (if c in s.conns && c in served then served[c] else {}) + Begun(s, t, c)
  }

  function AtLeastOne(n: nat): nat {
    if n == 0 then 1 else n
  }

  /** No connection has served more intercepts than it may, nor more than it has counted; and the one it
      carries is among them, unless it has served none yet. */
  ghost predicate Service<I, C>(s: Sched<I, C>, served: map<C, set<I>>) {
    served.Keys == s.conns.Keys &&
    forall c :: c in s.conns ==>
      && |served[c]| <= Count(s, c)
      && |served[c]| <= AtLeastOne(s.limits.maxRequests)
      && (Carried(s, c).Some? ==> Carried(s, c).value in served[c] || served[c] == {})
  }

  /** How a connection can fare: it is new; or it keeps its count and, if it carries an intercept, carried it
      before; or it counts one more, for an intercept it has begun, or as its first, or being below its limit. */
  ghost predicate Fares<I, C>(s: Sched<I, C>, t: Sched<I, C>, served: map<C, set<I>>, c: C) {
    || (c !in s.conns && Count(t, c) == 0)
    || (c in s.conns && Count(t, c) == Count(s, c) && (Carried(t, c).Some? ==> Carried(t, c) == Carried(s, c)))
    || (c in s.conns && c in served && Count(t, c) == Count(s, c) + 1 && Carried(t, c).Some? &&
        (Carried(t, c).value in served[c] || served[c] == {} || Count(s, c) < s.limits.maxRequests))
  }

  lemma FareKeepsService<I, C>(s: Sched<I, C>, t: Sched<I, C>, served: map<C, set<I>>)
    requires Service(s, served) && t.limits == s.limits && forall c :: c in t.conns ==> Fares(s, t, served, c)
    ensures Service(t, Served(s, t, served))
  {
    hide Carried, Count;
    var after := Served(s, t, served);
    forall c | c in t.conns
      ensures |after[c]| <= Count(t, c) && |after[c]| <= AtLeastOne(t.limits.maxRequests)
      ensures Carried(t, c).Some? ==> Carried(t, c).value in after[c] || after[c] == {}
    {
      OneFare(s, t, served, c);
    }
  }

  lemma OneFare<I, C>(s: Sched<I, C>, t: Sched<I, C>, served: map<C, set<I>>, c: C)
    requires Service(s, served) && t.limits == s.limits && c in t.conns && Fares(s, t, served, c)
    ensures var after := Served(s, t, served)[c];
            && |after| <= Count(t, c) && |after| <= AtLeastOne(t.limits.maxRequests)
            && (Carried(t, c).Some? ==> Carried(t, c).value in after || after == {})
  {
    hide Carried;
    var before := if c in s.conns && c in served then served[c] else {};
    var begun := Begun(s, t, c);
    if c !in s.conns {
      assert Count(s, c) == 0;
      assert begun == {} && before + begun == {};
    } else if Count(t, c) == Count(s, c) {
      assert before + begun == before;
    } else if Carried(t, c).value in served[c] {
      assert before + begun == before;
    }
  }

  /** What the invariants say that matters here. */
  ghost predicate Basics<I, C>(s: Sched<I, C>) {
    PoolInv(s) && FreeInv(s) && MapInv(s) && s.issued < ID_SPACE
  }

  /** connect: the connection it finds is new, or free and below its limit. */
  lemma ConnectFares<I, C>(s: Sched<I, C>, i: I, spare: C, served: map<C, set<I>>, c: C)
    requires Basics(s) && served.Keys == s.conns.Keys && spare !in s.conns && c in Connect(s, i, spare).conns
    ensures Fares(s, Connect(s, i, spare), served, c)
  {
    hide Initiate, AddToQueue, Fares;
    ConnectKeys(s, i, spare);
    var (conn, s1) := GetAvailable(s, spare);
    if conn.Some? {
      if |s.connections| < s.limits.maxConn {
        NewFares(s, i, spare, served, c);
      } else {
        TakenFares(s, i, served, c);
      }
    } else {
      QueuedFares(s, i, spare, served, c);
    }
  }

  lemma ConnectKeys<I, C>(s: Sched<I, C>, i: I, spare: C)
    requires PoolInv(s)
    ensures forall c :: c in Connect(s, i, spare).conns ==> c in s.conns || (c == spare && |s.connections| < s.limits.maxConn)
    ensures s.conns.Keys <= Connect(s, i, spare).conns.Keys
  {
    if s.available != [] { assert s.available[0] in s.available; }
  }

  lemma QueuedFares<I, C>(s: Sched<I, C>, i: I, spare: C, served: map<C, set<I>>, c: C)
    requires c in s.conns && GetAvailable(s, spare) == (None, s)
    ensures Fares(s, Connect(s, i, spare), served, c)
  {
  }

  lemma NewFares<I, C>(s: Sched<I, C>, i: I, spare: C, served: map<C, set<I>>, c: C)
    requires Basics(s) && spare !in s.conns && (c == spare || c in s.conns)
    ensures Fares(s, Initiate(s.(conns := s.conns[spare := NEW_CONN], connections := s.connections + [spare]), i, spare), served, c)
  {
    hide PoolInv, FreeInv;
    assert s.issued % ID_SPACE == s.issued;
  }

  lemma TakenFares<I, C>(s: Sched<I, C>, i: I, served: map<C, set<I>>, c: C)
    requires Basics(s) && s.available != [] && served.Keys == s.conns.Keys && c in s.conns
    ensures var k := s.available[0];
            Fares(s, Initiate(s.(available := s.available[1..], conns := s.conns[k := Fields(s, k).(state := Ready)]), i, k), served, c)
  {
    var k := s.available[0];
    assert k in s.available;
    hide PoolInv;
    assert s.issued % ID_SPACE == s.issued;
  }

  // ---- Compositions ---------------------------------------------------------------------------------------

  /** Nothing begins: those left keep their count, and what they carry they carried before. */
  ghost predicate Quiet<I, C>(s: Sched<I, C>, t: Sched<I, C>) {
    forall c :: c in t.conns ==> c in s.conns && Count(t, c) == Count(s, c) && (Carried(t, c).Some? ==> Carried(t, c) == Carried(s, c))
  }

  ghost predicate AllFare<I, C>(s: Sched<I, C>, t: Sched<I, C>, served: map<C, set<I>>) {
    forall c :: c in t.conns ==> Fares(s, t, served, c)
  }

  lemma QuietFirst<I, C>(s: Sched<I, C>, t: Sched<I, C>, u: Sched<I, C>, served: map<C, set<I>>, spare: C)
    requires Quiet(s, t) && t.limits == s.limits && served.Keys == s.conns.Keys
    requires AllFare(t, u, map c | c in t.conns && c in served :: served[c])
    requires spare !in s.conns && forall c :: c in u.conns ==> c in t.conns || c == spare
    ensures AllFare(s, u, served)
  {
    hide Carried, Count;
    var kept := map c | c in t.conns && c in served :: served[c];
    forall c | c in u.conns ensures Fares(s, u, served, c) {
      assert Fares(t, u, kept, c);
    }
  }

  /** Behind all that, a connection goes, and nothing changes for the others. */
  lemma ClosedLast<I, C>(s: Sched<I, C>, t: Sched<I, C>, served: map<C, set<I>>, c: C)
    requires AllFare(s, t, served) && t.conns.Keys >= {c} && t.conns[c].requestId !in t.mapped
    ensures AllFare(s, ConnectionClosed(SetState(t, c, Closed), c), served)
  {
    hide Fares;
    var u := ConnectionClosed(SetState(t, c, Closed), c);
    assert u.mapped == t.mapped;
    forall d | d in u.conns ensures Fares(s, u, served, d) { SameFare(s, t, u, served, d); }
  }

  lemma SameFare<I, C>(s: Sched<I, C>, t: Sched<I, C>, u: Sched<I, C>, served: map<C, set<I>>, d: C)
    requires d in t.conns && d in u.conns && u.conns[d] == t.conns[d] && u.mapped == t.mapped && Fares(s, t, served, d)
    ensures Fares(s, u, served, d)
  {
  }

  lemma QuietFares<I, C>(s: Sched<I, C>, t: Sched<I, C>, served: map<C, set<I>>)
    requires Quiet(s, t)
    ensures AllFare(s, t, served)
  {
    hide Carried, Count;
  }

  // ---- Events ---------------------------------------------------------------------------------------------

  /** Counts and what is carried depend on connections and map only. */
  lemma SameViews<I, C>(s: Sched<I, C>, s1: Sched<I, C>, t: Sched<I, C>, t1: Sched<I, C>, served: map<C, set<I>>)
    requires AllFare(s, t, served) && s1.conns == s.conns && s1.mapped == s.mapped && s1.limits == s.limits && t1.conns == t.conns && t1.mapped == t.mapped
    ensures AllFare(s1, t1, served)
  {
    forall c | c in t1.conns ensures Fares(s1, t1, served, c) { assert Fares(s, t, served, c); }
  }

  lemma ConnectAllFare<I, C>(s: Sched<I, C>, i: I, spare: C, served: map<C, set<I>>)
    requires Basics(s) && served.Keys == s.conns.Keys && spare !in s.conns
    ensures AllFare(s, Connect(s, i, spare), served)
  {
    hide Basics, Connect, Fares;
    forall c | c in Connect(s, i, spare).conns ensures Fares(s, Connect(s, i, spare), served, c) { ConnectFares(s, i, spare, served, c); }
  }

  lemma ReleaseIsQuiet<I, C>(s: Sched<I, C>, id: nat)
    requires MapInv(s) && id in s.mapped
    ensures Quiet(s, Release(s, id)) && Release(s, id).conns.Keys <= s.conns.Keys
  {
  }

  lemma RemovalFares<I, C>(s: Sched<I, C>, id: nat, spare: C, served: map<C, set<I>>)
    requires Inv(s) && s.issued < ID_SPACE && served.Keys == s.conns.Keys && spare !in s.conns
    ensures AllFare(s, RemoveIntercept(s, id, spare), served)
  {
    hide Connect, Release, Inv, Quiet, AllFare, Basics, MapInv;
    if id !in s.mapped {
      NothingIsQuiet(s);
      QuietFares(s, s, served);
    } else {
      ReleaseKeeps(s, id);
      MapPart(s);
      ReleaseIsQuiet(s, id);
      var r := Release(s, id);
      if r.queue == [] {
        QuietFares(s, r, served);
      } else {
        ReleasedFares(s, r, id, spare, served);
      }
    }
  }

  lemma MapPart<I, C>(s: Sched<I, C>)
    requires Inv(s)
    ensures MapInv(s)
  {
  }

  lemma NothingIsQuiet<I, C>(s: Sched<I, C>)
    ensures Quiet(s, s)
  {
  }

  lemma ReleasedFares<I, C>(s: Sched<I, C>, r: Sched<I, C>, id: nat, spare: C, served: map<C, set<I>>)
    requires s.issued < ID_SPACE && served.Keys == s.conns.Keys && spare !in s.conns && id in s.mapped
    requires r == Release(s, id) && InvWith(r, {}, {}) && Quiet(s, r) && r.queue != [] && r.conns.Keys <= s.conns.Keys
    ensures AllFare(s, Connect(r.(queue := r.queue[1..]), r.queue[0], spare), served)
  {
    hide Connect, Quiet, AllFare, PoolInv, FreeInv, MapInv, Conserved;
    var kept := map c | c in r.conns && c in served :: served[c];
    var r1 := r.(queue := r.queue[1..]);
    SamePool(r, r1);
    ConnectAllFare(r1, r.queue[0], spare, kept);
    ConnectKeys(r1, r.queue[0], spare);
    QuietQueue(s, r, r1);
    QuietFirst(s, r1, Connect(r1, r.queue[0], spare), served, spare);
  }

  lemma SamePool<I, C>(r: Sched<I, C>, r1: Sched<I, C>)
    requires PoolInv(r) && FreeInv(r) && MapInv(r) && r1 == r.(queue := r1.queue) && r.issued < ID_SPACE
    ensures Basics(r1) && PoolInv(r1)
  {
  }

  lemma QuietQueue<I, C>(s: Sched<I, C>, r: Sched<I, C>, r1: Sched<I, C>)
    requires Quiet(s, r) && r1 == r.(queue := r1.queue)
    ensures Quiet(s, r1)
  {
  }

  lemma ReconnectionFares<I, C>(s: Sched<I, C>, c: C, spare: C, served: map<C, set<I>>)
    requires Inv(s) && s.issued < ID_SPACE && served.Keys == s.conns.Keys && spare !in s.conns && c in s.conns
    ensures AllFare(s, ConnectionClosed(SetState(ReConnect(s, s.conns[c].requestId, spare), c, Closed), c), served)
  {
    hide Connect, Quiet, AllFare, ConnectionClosed, SetState, PoolInv, FreeInv, Conserved;
    var id := s.conns[c].requestId;
    if id in s.mapped {
      var s1 := s.(mapped := s.mapped - {id});
      UnmapIsQuiet(s, id);
      ConnectAllFare(s1, s.mapped[id].0, spare, served);
      ConnectKeys(s1, s.mapped[id].0, spare);
      assert (map d | d in s1.conns && d in served :: served[d]) == served;
      QuietFirst(s, s1, Connect(s1, s.mapped[id].0, spare), served, spare);
      LeavesUnmapped(s1, s.mapped[id].0, spare, c);
      ClosedLast(s, Connect(s1, s.mapped[id].0, spare), served, c);
    } else {
      NothingIsQuiet(s);
      QuietFares(s, s, served);
      ClosedLast(s, s, served, c);
    }
  }

  lemma UnmapIsQuiet<I, C>(s: Sched<I, C>, id: nat)
    requires Inv(s) && s.issued < ID_SPACE
    ensures Quiet(s, s.(mapped := s.mapped - {id})) && Basics(s.(mapped := s.mapped - {id})) && PoolInv(s.(mapped := s.mapped - {id}))
  {
  }

  /** A connection that carries nothing and is not free is left alone by connect. */
  lemma LeavesUnmapped<I, C>(s: Sched<I, C>, i: I, spare: C, c: C)
    requires Basics(s) && spare !in s.conns && c in s.conns && s.conns[c].requestId !in s.mapped && s.conns[c].requestId != 0
    ensures var t := Connect(s, i, spare); c in t.conns && t.conns[c].requestId !in t.mapped
  {
    if s.available != [] { assert s.available[0] in s.available; }
  }

  lemma StepFares<I, C>(s: Sched<I, C>, e: Event<I, C>, served: map<C, set<I>>)
    requires Inv(s) && Enabled(s, e) && s.issued < ID_SPACE && Service(s, served)
    ensures AllFare(s, Step(s, e), served)
  {
    hide Connect, RemoveIntercept, ReConnect, ConnectionClosed, AllFare, Inv, Service, Basics, SetState;
    ServiceKeys(s, served);
    match e
    case Submit(i, spare) => SubmitFares(s, i, spare, served);
    case NetConnect(c) => NetConnectFares(s, c, served);
    case ConnectFailed(c, spare) => ReconnectionFares(s, c, spare, served);
    case RequestWritten(id) => WrittenFares(s, id, served);
    case ResponseDone(c, spare) => DoneFares(s, c, spare, served);
    case Abort(id, spare) => RemovalFares(s, id, spare, served);
    case Eos(c, spare) => if !s.conns[c].readEnable { ReconnectionFares(s, c, spare, served); } else { ClosingFares(s, c, served); }
    case NetError(c) => ClosingFares(s, c, served);
  }

  lemma ServiceKeys<I, C>(s: Sched<I, C>, served: map<C, set<I>>)
    requires Service(s, served)
    ensures served.Keys == s.conns.Keys
  {
  }

  lemma SubmitFares<I, C>(s: Sched<I, C>, i: I, spare: C, served: map<C, set<I>>)
    requires Inv(s) && s.issued < ID_SPACE && served.Keys == s.conns.Keys && spare !in s.conns
    ensures AllFare(s, Step(s, Submit(i, spare)), served)
  {
    hide Connect, AllFare, PoolInv, MapInv, FreeInv;
    var s1 := Submitted(s, i);
    SubmittedBasics(s, i);
    ConnectAllFare(s1, i, spare, served);
    SameViews(s1, s, Connect(s1, i, spare), Accept(Connect(s1, i, spare), i), served);
  }

  lemma SubmittedBasics<I, C>(s: Sched<I, C>, i: I)
    requires Inv(s) && s.issued < ID_SPACE
    ensures Basics(Submitted(s, i))
  {
  }

  lemma NetConnectFares<I, C>(s: Sched<I, C>, c: C, served: map<C, set<I>>)
    requires Service(s, served) && c in s.conns
    ensures AllFare(s, Step(s, NetConnect(c)), served)
  {
    var t := Step(s, NetConnect(c));
    assert Carried(t, c) == Carried(s, c);
    forall d | d in t.conns ensures Fares(s, t, served, d) { if d != c { assert t.conns[d] == s.conns[d]; } }
  }

  lemma WrittenFares<I, C>(s: Sched<I, C>, id: nat, served: map<C, set<I>>)
    requires Inv(s) && id in s.mapped
    ensures AllFare(s, Step(s, RequestWritten(id)), served)
  {
    assert Quiet(s, Step(s, RequestWritten(id)));
    QuietFares(s, Step(s, RequestWritten(id)), served);
  }

  lemma DoneFares<I, C>(s: Sched<I, C>, c: C, spare: C, served: map<C, set<I>>)
    requires Inv(s) && s.issued < ID_SPACE && served.Keys == s.conns.Keys && spare !in s.conns && c in s.conns && s.conns[c].requestId in s.mapped
    ensures AllFare(s, Step(s, ResponseDone(c, spare)), served)
  {
    hide RemoveIntercept, Inv, AllFare;
    CompleteKeeps(s, c);
    var s1 := SetState(s, c, Complete);
    RemovalFares(s1, s.conns[c].requestId, spare, served);
    CompletedFares(s, s1, RemoveIntercept(s1, s.conns[c].requestId, spare), c, served);
  }

  lemma CompletedFares<I, C>(s: Sched<I, C>, s1: Sched<I, C>, t: Sched<I, C>, c: C, served: map<C, set<I>>)
    requires c in s.conns && s1 == SetState(s, c, Complete) && AllFare(s1, t, served)
    ensures AllFare(s, t, served)
  {
    assert forall d :: Count(s1, d) == Count(s, d) && Carried(s1, d) == Carried(s, d);
    forall d | d in t.conns ensures Fares(s, t, served, d) { assert Fares(s1, t, served, d); }
  }

  lemma ClosingFares<I, C>(s: Sched<I, C>, c: C, served: map<C, set<I>>)
    requires c in s.conns
    ensures AllFare(s, ConnectionClosed(s, c), served) && AllFare(s, ConnectionClosed(SetState(s, c, Closed), c), served)
  {
    assert Quiet(s, ConnectionClosed(s, c));
    QuietFares(s, ConnectionClosed(s, c), served);
    assert s.conns[c := s.conns[c].(state := Closed)] - {c} == s.conns - {c};
  }

  lemma StepServes<I, C>(s: Sched<I, C>, e: Event<I, C>, served: map<C, set<I>>)
    requires Inv(s) && Enabled(s, e) && s.issued < ID_SPACE && Service(s, served)
    ensures Service(Step(s, e), Served(s, Step(s, e), served))
  {
    hide Inv, Step, Service, Enabled, Fares;
    StepFares(s, e, served);
    StepKeepsLimits(s, e);
    FareKeepsService(s, Step(s, e), served);
  }

  /** What each connection has served in the course of a run. */
  function ServedIn<I, C>(s: Sched<I, C>, es: seq<Event<I, C>>, served: map<C, set<I>>): map<C, set<I>>
    decreases |es|
  {
    if es == [] then served else ServedIn(Step(s, es[0]), es[1..], Served(s, Step(s, es[0]), served))
  }

  lemma {:induction false} RunServes<I, C>(s: Sched<I, C>, es: seq<Event<I, C>>, served: map<C, set<I>>)
    requires Inv(s) && Possible(s, es) && Service(s, served)
    ensures Service(Run(s, es), ServedIn(s, es, served))
    decreases |es|
  {
    hide Inv, Step, Service, Enabled, Served;
    if es != [] {
      StepKeeps(s, es[0]);
      StepServes(s, es[0], served);
      RunServes(Step(s, es[0]), es[1..], Served(s, Step(s, es[0]), served));
    }
  }

  /** In every run, early aborts or not, a connection serves no more distinct intercepts than its limit says
      (or one, if the limit is zero), and no more than it has counted. */
  lemma ServiceWithinLimit<I, C>(limits: Limits, es: seq<Event<I, C>>, c: C)
    requires Possible(Init<I, C>(limits), es) && c in Run(Init<I, C>(limits), es).conns
    ensures var s, served := Run(Init<I, C>(limits), es), ServedIn(Init<I, C>(limits), es, map[]);
            c in served && |served[c]| <= AtLeastOne(limits.maxRequests) && |served[c]| <= s.conns[c].reqCount
  {
    hide Inv, Step, Run, Possible, ServedIn;
    InitHolds<I, C>(limits);
    RunServes(Init<I, C>(limits), es, map[]);
    RunKeepsLimits(Init<I, C>(limits), es);
  }

  lemma {:induction false} RunKeepsLimits<I, C>(s: Sched<I, C>, es: seq<Event<I, C>>)
    ensures Run(s, es).limits == s.limits
    decreases |es|
  {
    hide Step;
    if es != [] {
      StepKeepsLimits(s, es[0]);
      RunKeepsLimits(Step(s, es[0]), es[1..]);
    }
  }
}
