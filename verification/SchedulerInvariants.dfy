/** What every event of the scheduler keeps, and what follows for every run. */
module SchedulerInvariants {
  import opened SchedulerSpec

  ghost predicate NoDuplicates<T>(s: seq<T>) {
    forall i, j :: 0 <= i < j < |s| ==> s[i] != s[j]
  }

  function Elements<T>(s: seq<T>): set<T> {
    set x | x in s
  }

  ghost function Mapped<I, C>(s: Sched<I, C>): set<I> {
    set id | id in s.mapped :: s.mapped[id].0
  }

  /** The pool's two lists. */
  ghost predicate PoolInv<I, C>(s: Sched<I, C>) {
    && NoDuplicates(s.connections) && NoDuplicates(s.available)
    && |s.connections| <= s.limits.maxConn
    && Elements(s.connections) == s.conns.Keys
    && (forall c :: c in s.available ==> c in s.conns)
  }

  /** Free connections are ready, carry no request, and can serve at least one more. */
  ghost predicate Free<C>(limits: Limits, available: seq<C>, conns: map<C, Conn>) {
    forall c :: c in available && c in conns ==>
      var k := conns[c]; k.state == Ready && k.requestId == 0 && k.reqCount < limits.maxRequests && !k.readEnable
  }

  ghost predicate FreeInv<I, C>(s: Sched<I, C>) {
    Free(s.limits, s.available, s.conns)
  }

  /** The id map: both sides of an entry carry its id, and no id at or above the counter is in use. */
  ghost predicate MapInv<I, C>(s: Sched<I, C>) {
    && 0 < s.issued <= ID_SPACE
    && (forall c :: c in s.conns ==> s.conns[c].requestId < s.issued)
    && forall id :: id in s.mapped ==>
         var (i, c) := s.mapped[id];
         && 0 < id < s.issued
         && c in s.conns && s.conns[c].requestId == id && c !in s.available
         && i in s.ids && s.ids[i] == id
  }

  /** Every connection is free or serves a mapped intercept, except those `inHand`. */
  ghost predicate PartInv<I, C>(s: Sched<I, C>, inHand: set<C>) {
    forall c :: c in s.conns ==>
      if c in inHand then c !in s.available && s.conns[c].requestId !in s.mapped
      else c in s.available || (s.conns[c].requestId in s.mapped && s.mapped[s.conns[c].requestId].1 == c)
  }

  /** Every submitted intercept is in one place, except those `inHand`. */
  ghost predicate Conserved<I, C>(s: Sched<I, C>, inHand: set<I>) {
    var h := s.history;
    && NoDuplicates(s.queue) && |s.queue| <= s.limits.queueSize
    && Elements(s.queue) + Mapped(s) + h.finished + h.failed + h.dropped + inHand == h.submitted
    && Elements(s.queue) !! Mapped(s) !! h.finished !! h.failed !! h.dropped !! inHand
  }

  ghost predicate InvWith<I, C>(s: Sched<I, C>, i: set<I>, c: set<C>) {
    Pooled(s, c) && Conserved(s, i)
  }

  ghost predicate Pooled<I, C>(s: Sched<I, C>, c: set<C>) {
    PoolInv(s) && FreeInv(s) && MapInv(s) && PartInv(s, c) && forall x :: x in c ==> x in s.conns
  }

  ghost predicate Inv<I, C>(s: Sched<I, C>) {
    InvWith(s, {}, {})
  }

  /** The lists and the map lead to live objects only. */
  lemma LeadsToLive<I, C>(s: Sched<I, C>)
    requires Inv(s)
    ensures forall c :: c in s.available ==> c in s.conns
    ensures forall id :: id in s.mapped ==> s.mapped[id].1 in s.conns && s.mapped[id].0 in s.ids
  {
  }

  // ---- Lists --------------------------------------------------------------------------------------------

  lemma {:induction false} WithoutKeeps<T>(s: seq<T>, x: T)
    requires NoDuplicates(s)
    ensures NoDuplicates(Without(s, x))
    ensures forall y :: y in Without(s, x) <==> y in s && y != x
    ensures |Without(s, x)| == |s| - if x in s then 1 else 0
    decreases |s|
  {
    if s != [] {
      var rest := Without(s[1..], x);
      WithoutKeeps(s[1..], x);
      if s[0] != x {
        forall j | 0 <= j < |rest| ensures rest[j] != s[0] { assert rest[j] in rest; }
      }
    }
  }

  lemma {:induction false} ElementsOf<T>(s: seq<T>, x: T)
    ensures Elements(s + [x]) == Elements(s) + {x}
    ensures s != [] ==> Elements(s) == {s[0]} + Elements(s[1..])
  {
  }

  // ---- Pool ---------------------------------------------------------------------------------------------

  lemma GetAvailablePooled<I, C>(s: Sched<I, C>, spare: C, cs: set<C>)
    requires Pooled(s, cs) && spare !in s.conns
    ensures var (conn, s1) := GetAvailable(s, spare);
            && (conn.Some? ==> conn.value !in cs && Pooled(s1, cs + {conn.value}))
            && (conn.None? ==> s1 == s)
  {
    var (conn, s1) := GetAvailable(s, spare);
    if |s.connections| < s.limits.maxConn {
      assert s1.available == s.available;
    } else if s.available != [] {
      assert s.available[0] in s.available;
      assert forall x :: x in s1.available ==> x in s.available;
    }
  }

  lemma GetAvailableRest<I, C>(s: Sched<I, C>, spare: C)
    ensures var (conn, s1) := GetAvailable(s, spare);
            && s1 == s.(conns := s1.conns, connections := s1.connections, available := s1.available)
            && forall c :: c in s.conns && c != spare && c !in s.available ==> c in s1.conns && s1.conns[c] == s.conns[c]
  {
  }

  lemma InitiatePooled<I, C>(s: Sched<I, C>, i: I, c: C, cs: set<C>)
    requires Pooled(s, cs + {c}) && c !in cs && s.issued < ID_SPACE
    requires forall id :: id in s.mapped ==> s.mapped[id].0 != i
    ensures Pooled(Initiate(s, i, c), cs)
  {
    var t := Initiate(s, i, c);
    assert s.issued % ID_SPACE == s.issued;
    assert forall other :: other in s.mapped ==> s.mapped[other].1 != c;
    assert t.conns.Keys == s.conns.Keys;
    assert PoolInv(t);
    assert MapInv(t);
  }

  lemma InitiateConserves<I, C>(s: Sched<I, C>, i: I, c: C, ins: set<I>)
    requires Conserved(s, ins + {i}) && i !in ins && s.issued < ID_SPACE && s.issued !in s.mapped
    ensures Conserved(Initiate(s, i, c), ins)
  {
    InitiateMapped(s, i, c);
    InHandIsNowhereElse(s, i, ins);
  }

  lemma InitiateMapped<I, C>(s: Sched<I, C>, i: I, c: C)
    requires s.issued < ID_SPACE && s.issued !in s.mapped
    ensures Mapped(Initiate(s, i, c)) == Mapped(s) + {i}
  {
    var t := Initiate(s, i, c);
    assert s.issued in t.mapped;
    forall x | x in Mapped(s) + {i} ensures x in Mapped(t) {
      if x in Mapped(s) {
        var id :| id in s.mapped && s.mapped[id].0 == x;
        assert id in t.mapped;
      }
    }
  }

  lemma InHandIsNowhereElse<I, C>(s: Sched<I, C>, i: I, ins: set<I>)
    requires Conserved(s, ins + {i}) && i !in ins
    ensures i in s.history.submitted && i !in s.queue && i !in Mapped(s) && i !in s.history.finished && i !in s.history.failed && i !in s.history.dropped
    ensures forall id :: id in s.mapped ==> s.mapped[id].0 != i
  {
    assert i in ins + {i};
    assert i in s.queue ==> i in Elements(s.queue);
    assert forall id :: id in s.mapped ==> s.mapped[id].0 in Mapped(s);
  }

  lemma AddToQueueConserves<I, C>(s: Sched<I, C>, i: I, ins: set<I>)
    requires Conserved(s, ins + {i}) && i !in ins
    ensures Conserved(AddToQueue(s, i), ins)
  {
    InHandIsNowhereElse(s, i, ins);
    ElementsOf(s.queue, i);
    assert Mapped(AddToQueue(s, i)) == Mapped(s);
  }

  /** Pooled and Conserved look at different fields. */
  lemma PooledFields<I, C>(s: Sched<I, C>, t: Sched<I, C>, cs: set<C>)
    requires Pooled(s, cs)
    requires s.(queue := t.queue, history := t.history) == t
    ensures Pooled(t, cs)
  {
  }

  lemma ConservedFields<I, C>(s: Sched<I, C>, t: Sched<I, C>, ins: set<I>)
    requires Conserved(s, ins)
    requires s.(conns := t.conns, connections := t.connections, available := t.available) == t
    ensures Conserved(t, ins)
  {
    assert Mapped(t) == Mapped(s);
  }

  lemma ConnectKeeps<I, C>(s: Sched<I, C>, i: I, spare: C, ins: set<I>, cs: set<C>)
    requires InvWith(s, ins + {i}, cs) && i !in ins && spare !in s.conns && s.issued < ID_SPACE
    ensures InvWith(Connect(s, i, spare), ins, cs)
  {
    hide GetAvailable, Initiate, AddToQueue, Pooled, Conserved;
    GetAvailablePooled(s, spare, cs);
    GetAvailableRest(s, spare);
    var (conn, s1) := GetAvailable(s, spare);
    ConservedFields(s, s1, ins + {i});
    InHandIsNowhereElse(s, i, ins);
    if conn.Some? {
      NextIdIsFree(s, cs);
      InitiatePooled(s1, i, conn.value, cs);
      InitiateConserves(s1, i, conn.value, ins);
    } else {
      AddToQueueConserves(s, i, ins);
      AddToQueueRest(s, i);
      PooledFields(s, AddToQueue(s, i), cs);
    }
  }

  lemma AddToQueueRest<I, C>(s: Sched<I, C>, i: I)
    ensures s.(queue := AddToQueue(s, i).queue, history := AddToQueue(s, i).history) == AddToQueue(s, i)
  {
  }

  lemma NextIdIsFree<I, C>(s: Sched<I, C>, cs: set<C>)
    requires Pooled(s, cs)
    ensures s.issued !in s.mapped
  {
  }

  /** A connection in hand is left alone. */
  lemma ConnectLeaves<I, C>(s: Sched<I, C>, i: I, spare: C, c: C)
    requires c in s.conns && c != spare && c !in s.available
    ensures c in Connect(s, i, spare).conns && Connect(s, i, spare).conns[c] == s.conns[c]
  {
    GetAvailableRest(s, spare);
  }

  lemma ConnectionClosedKeeps<I, C>(s: Sched<I, C>, c: C, cs: set<C>)
    requires InvWith(s, {}, cs) && c in s.conns
    ensures InvWith(ConnectionClosed(s, c), {}, cs - {c})
  {
    ClosedPooled(s, c, cs);
    ClosedConserves(s, c, cs);
  }

  lemma ClosedPooled<I, C>(s: Sched<I, C>, c: C, cs: set<C>)
    requires Pooled(s, cs) && c in s.conns
    ensures Pooled(ConnectionClosed(s, c), cs - {c})
  {
    WithoutKeeps(s.available, c);
    WithoutKeeps(s.connections, c);
    var t := ConnectionClosed(s, c);
    assert PoolInv(t);
    assert MapInv(t);
  }

  lemma ClosedConserves<I, C>(s: Sched<I, C>, c: C, cs: set<C>)
    requires InvWith(s, {}, cs) && c in s.conns
    ensures Conserved(ConnectionClosed(s, c), {})
  {
    UnmapConserves(s, s.conns[c].requestId);
    assert Mapped(ConnectionClosed(s, c)) == Mapped(s.(mapped := s.mapped - {s.conns[c].requestId}));
  }

  /** Taking an entry out of the map takes one intercept out of the mapped ones. */
  lemma UnmapConserves<I, C>(s: Sched<I, C>, id: nat)
    requires MapInv(s)
    ensures Mapped(s.(mapped := s.mapped - {id})) == if id in s.mapped then Mapped(s) - {s.mapped[id].0} else Mapped(s)
    ensures id in s.mapped ==> s.mapped[id].0 in Mapped(s)
  {
    var t := s.(mapped := s.mapped - {id});
    forall x | x in Mapped(s) && (id in s.mapped ==> x != s.mapped[id].0) ensures x in Mapped(t) {
      var other :| other in s.mapped && s.mapped[other].0 == x;
      assert other in t.mapped;
    }
  }

  // ---- Server -------------------------------------------------------------------------------------------

  /** An entry taken out of the map leaves both its sides in hand. */
  lemma UnmapKeeps<I, C>(s: Sched<I, C>, id: nat)
    requires Inv(s) && id in s.mapped
    ensures var (i, c) := s.mapped[id]; InvWith(s.(mapped := s.mapped - {id}), {i}, {c})
  {
    UnmapConserves(s, id);
    var t := s.(mapped := s.mapped - {id});
    var (i, c) := s.mapped[id];
    assert PartInv(t, {c});
    assert Conserved(t, {i});
  }

  lemma SetFieldsKeeps<I, C>(s: Sched<I, C>, c: C, k: Conn, ins: set<I>, cs: set<C>)
    requires InvWith(s, ins, cs) && c in s.conns && k.requestId == s.conns[c].requestId
    requires c in s.available ==> k.state == Ready && k.reqCount < s.limits.maxRequests && !k.readEnable
    ensures InvWith(s.(conns := s.conns[c := k]), ins, cs)
  {
    var t := s.(conns := s.conns[c := k]);
    assert t.conns.Keys == s.conns.Keys;
    assert Mapped(t) == Mapped(s);
  }

  lemma ReleaseKeeps<I, C>(s: Sched<I, C>, id: nat)
    requires Inv(s) && id in s.mapped
    ensures Inv(Release(s, id))
    ensures Release(s, id).queue == s.queue && Release(s, id).issued == s.issued && Release(s, id).conns.Keys <= s.conns.Keys
  {
    var (i, c) := s.mapped[id];
    UnmapKeeps(s, id);
    var k := s.conns[c].ReleaseFCGIClient().(requestId := 0);
    var s0 := s.(mapped := s.mapped - {id});
    var s1 := s0.(conns := s.conns[c := k], history := s.history.(finished := s.history.finished + {i}));
    FinishKeeps(s0, i, c, k);
    if s.limits.maxRequests > k.reqCount {
      ReuseKeeps(s1, c);
    } else {
      SetFieldsKeeps(s1, c, k.(state := Closed), {}, {c});
      ConnectionClosedKeeps(s1.(conns := s1.conns[c := k.(state := Closed)]), c, {c});
    }
  }

  lemma FinishKeeps<I, C>(s: Sched<I, C>, i: I, c: C, k: Conn)
    requires InvWith(s, {i}, {c}) && k.requestId == 0
    ensures InvWith(s.(conns := s.conns[c := k], history := s.history.(finished := s.history.finished + {i})), {}, {c})
  {
    InHandIsNowhereElse(s, i, {});
    var t := s.(conns := s.conns[c := k], history := s.history.(finished := s.history.finished + {i}));
    assert t.conns.Keys == s.conns.Keys;
    assert Mapped(t) == Mapped(s);
    assert PartInv(t, {c});
    assert Conserved(t, {});
  }

  lemma ReuseKeeps<I, C>(s: Sched<I, C>, c: C)
    requires InvWith(s, {}, {c}) && s.conns[c].requestId == 0 && s.conns[c].reqCount < s.limits.maxRequests
    ensures Inv(Reuse(s, c))
  {
    var t := Reuse(s, c);
    ElementsOf(s.available, c);
    assert t.conns.Keys == s.conns.Keys;
    assert Mapped(t) == Mapped(s);
    assert PoolInv(t);
    assert PartInv(t, {});
  }

  lemma PopKeeps<I, C>(s: Sched<I, C>)
    requires Inv(s) && s.queue != []
    ensures InvWith(s.(queue := s.queue[1..]), {s.queue[0]}, {})
  {
    var t := s.(queue := s.queue[1..]);
    ElementsOf(s.queue, s.queue[0]);
    assert Mapped(t) == Mapped(s);
    assert Conserved(t, {s.queue[0]});
  }

  lemma RemoveInterceptKeeps<I, C>(s: Sched<I, C>, id: nat, spare: C)
    requires Inv(s) && spare !in s.conns && s.issued < ID_SPACE
    ensures Inv(RemoveIntercept(s, id, spare))
  {
    if id in s.mapped {
      ReleaseKeeps(s, id);
      var t := Release(s, id);
      if t.queue != [] {
        PopKeeps(t);
        ConnectKeeps(t.(queue := t.queue[1..]), t.queue[0], spare, {}, {});
      }
    }
  }

  /** The connection whose request is moved is left in hand. */
  lemma ReConnectKeeps<I, C>(s: Sched<I, C>, id: nat, spare: C)
    requires Inv(s) && spare !in s.conns && s.issued < ID_SPACE
    ensures InvWith(ReConnect(s, id, spare), {}, if id in s.mapped then {s.mapped[id].1} else {})
    ensures id in s.mapped ==> ReConnect(s, id, spare).conns[s.mapped[id].1] == s.conns[s.mapped[id].1]
  {
    if id in s.mapped {
      UnmapKeeps(s, id);
      ConnectKeeps(s.(mapped := s.mapped - {id}), s.mapped[id].0, spare, {}, {s.mapped[id].1});
      ConnectLeaves(s.(mapped := s.mapped - {id}), s.mapped[id].0, spare, s.mapped[id].1);
    }
  }

  // ---- Events and runs ----------------------------------------------------------------------------------

  lemma SubmitKeeps<I, C>(s: Sched<I, C>, i: I, spare: C)
    requires Inv(s) && Enabled(s, Submit(i, spare)) && s.issued < ID_SPACE
    ensures Inv(Step(s, Submit(i, spare)))
  {
    hide Connect, Pooled;
    var t := Submitted(s, i);
    assert Mapped(t) == Mapped(s);
    assert Conserved(t, {i});
    PooledFields(s, t, {});
    ConnectKeeps(t, i, spare, {}, {});
    var u := Connect(t, i, spare);
    assert Mapped(Accept(u, i)) == Mapped(u);
    PooledFields(u, Accept(u, i), {});
  }

  lemma NetConnectKeeps<I, C>(s: Sched<I, C>, c: C)
    requires Inv(s) && c in s.conns
    ensures Inv(Step(s, NetConnect(c)))
  {
    var k := s.conns[c].(state := Ready, connecting := false);
    SetFieldsKeeps(s, c, if k.requestId in s.mapped then k.CreateFCGIClient() else k, {}, {});
  }

  lemma RequestWrittenKeeps<I, C>(s: Sched<I, C>, id: nat)
    requires Inv(s) && id in s.mapped
    ensures Inv(Step(s, RequestWritten(id)))
  {
    var c := s.mapped[id].1;
    SetFieldsKeeps(s, c, s.conns[c].(readEnable := true), {}, {});
  }

  lemma CompleteKeeps<I, C>(s: Sched<I, C>, c: C)
    requires Inv(s) && c in s.conns && s.conns[c].requestId in s.mapped
    ensures Inv(SetState(s, c, Complete))
  {
    SetFieldsKeeps(s, c, s.conns[c].(state := Complete), {}, {});
  }

  lemma ResponseDoneKeeps<I, C>(s: Sched<I, C>, c: C, spare: C)
    requires Inv(s) && c in s.conns && s.conns[c].requestId in s.mapped && spare !in s.conns && s.issued < ID_SPACE
    ensures Inv(RemoveIntercept(SetState(s, c, Complete), s.conns[c].requestId, spare))
  {
    hide RemoveIntercept, Inv;
    CompleteKeeps(s, c);
    RemoveInterceptKeeps(SetState(s, c, Complete), s.conns[c].requestId, spare);
  }

  /** At every event boundary the pool is the disjoint union of its free list and the mapped connections,
      within its limit; the id map is consistent; and every submitted intercept is in exactly one place. */
  lemma StepKeeps<I, C>(s: Sched<I, C>, e: Event<I, C>)
    requires Inv(s) && Enabled(s, e) && s.issued < ID_SPACE
    ensures Inv(Step(s, e))
  {
    hide Connect, RemoveIntercept, ReConnect, ConnectionClosed, Inv;
    match e
    case Submit(i, spare) => SubmitKeeps(s, i, spare);
    case NetConnect(c) => NetConnectKeeps(s, c);
    case ConnectFailed(c, spare) => FailedConnectionGoes(s, c, spare);
    case RequestWritten(id) => RequestWrittenKeeps(s, id);
    case ResponseDone(c, spare) => ResponseDoneKeeps(s, c, spare);
    case Abort(id, spare) => RemoveInterceptKeeps(s, id, spare);
    case Eos(c, spare) => if !s.conns[c].readEnable { FailedConnectionGoes(s, c, spare); } else { ClosingKeeps(s, c); }
    case NetError(c) => ClosingKeeps(s, c);
  }

  /** A connection that dies before its request was sent: the request moves, the connection goes. */
  lemma FailedConnectionGoes<I, C>(s: Sched<I, C>, c: C, spare: C)
    requires Inv(s) && c in s.conns && spare !in s.conns && s.issued < ID_SPACE
    ensures Inv(ConnectionClosed(SetState(ReConnect(s, s.conns[c].requestId, spare), c, Closed), c))
  {
    var id := s.conns[c].requestId;
    ReConnectKeeps(s, id, spare);
    var t := ReConnect(s, id, spare);
    if id in s.mapped {
      SetFieldsKeeps(t, c, t.conns[c].(state := Closed), {}, {c});
      ConnectionClosedKeeps(SetState(t, c, Closed), c, {c});
    } else {
      ClosingKeeps(s, c);
    }
  }

  /** The state set just before a connection goes does not matter. */
  lemma ClosingKeeps<I, C>(s: Sched<I, C>, c: C)
    requires Inv(s) && c in s.conns
    ensures ConnectionClosed(SetState(s, c, Closed), c) == ConnectionClosed(s, c)
    ensures Inv(ConnectionClosed(s, c))
  {
    ConnectionClosedKeeps(s, c, {});
    assert s.conns[c := s.conns[c].(state := Closed)] - {c} == s.conns - {c};
  }

  lemma {:induction false} RunKeeps<I, C>(s: Sched<I, C>, es: seq<Event<I, C>>)
    requires Inv(s) && Possible(s, es)
    ensures Inv(Run(s, es))
    decreases |es|
  {
    if es != [] {
      StepKeeps(s, es[0]);
      RunKeeps(Step(s, es[0]), es[1..]);
    }
  }

  lemma InitHolds<I, C>(limits: Limits)
    ensures Inv(Init<I, C>(limits))
  {
  }

  /** Every run from the start. */
  lemma EveryRun<I, C>(limits: Limits, es: seq<Event<I, C>>)
    requires Possible(Init<I, C>(limits), es)
    ensures Inv(Run(Init<I, C>(limits), es))
  {
    InitHolds<I, C>(limits);
    RunKeeps(Init<I, C>(limits), es);
  }

  /** The id map is injective on both sides. */
  lemma MapInjective<I, C>(s: Sched<I, C>, id: nat, id': nat)
    requires Inv(s) && id in s.mapped && id' in s.mapped
    requires s.mapped[id].0 == s.mapped[id'].0 || s.mapped[id].1 == s.mapped[id'].1
    ensures id == id'
  {
  }

  // ---- Request ids --------------------------------------------------------------------------------------

  /** `t` has, of the ids of `s`, only those still in use there. */
  ghost predicate NoOldIds<I, C>(s: Sched<I, C>, t: Sched<I, C>) {
    s.issued <= t.issued && forall id :: id in t.mapped && id < s.issued ==> id in s.mapped
  }

  lemma ConnectIds<I, C>(s: Sched<I, C>, i: I, spare: C)
    requires s.issued < ID_SPACE
    ensures NoOldIds(s, Connect(s, i, spare))
  {
  }

  lemma RemoveIds<I, C>(s: Sched<I, C>, id: nat, spare: C)
    requires s.issued < ID_SPACE
    ensures NoOldIds(s, RemoveIntercept(s, id, spare)) && (id < s.issued ==> id !in RemoveIntercept(s, id, spare).mapped)
  {
    if id in s.mapped {
      var t := Release(s, id);
      assert NoOldIds(s, t) && id !in t.mapped && t.issued == s.issued;
      if t.queue != [] { ConnectIds(t.(queue := t.queue[1..]), t.queue[0], spare); }
    }
  }

  lemma ReConnectIds<I, C>(s: Sched<I, C>, id: nat, spare: C)
    requires s.issued < ID_SPACE
    ensures NoOldIds(s, ReConnect(s, id, spare))
  {
    if id in s.mapped { ConnectIds(s.(mapped := s.mapped - {id}), s.mapped[id].0, spare); }
  }

  /** No event brings back an id that is no longer in use. */
  lemma StepReissuesNothing<I, C>(s: Sched<I, C>, e: Event<I, C>)
    requires s.issued < ID_SPACE
    ensures NoOldIds(s, Step(s, e))
  {
    hide Connect, RemoveIntercept, ReConnect;
    match e
    case Submit(i, spare) => ConnectIds(Submitted(s, i), i, spare);
    case NetConnect(c) =>
    case ConnectFailed(c, spare) => ReConnectIds(s, Fields(s, c).requestId, spare);
    case RequestWritten(id) =>
    case ResponseDone(c, spare) => RemoveIds(SetState(s, c, Complete), Fields(s, c).requestId, spare);
    case Abort(id, spare) => RemoveIds(s, id, spare);
    case Eos(c, spare) => ReConnectIds(s, Fields(s, c).requestId, spare);
    case NetError(c) =>
  }

  lemma {:induction false} NeverReissued<I, C>(s: Sched<I, C>, es: seq<Event<I, C>>, id: nat)
    requires Inv(s) && Possible(s, es) && id < s.issued && id !in s.mapped
    ensures id !in Run(s, es).mapped
    decreases |es|
  {
    if es != [] {
      StepKeeps(s, es[0]);
      StepReissuesNothing(s, es[0]);
      NeverReissued(Step(s, es[0]), es[1..], id);
    }
  }

  /** Removing an intercept a second time changes nothing, now or after any further events. */
  lemma SecondRemovalIsNoOp<I, C>(s: Sched<I, C>, id: nat, spare: C, es: seq<Event<I, C>>, spare': C)
    requires Inv(s) && id < s.issued < ID_SPACE && spare !in s.conns
    requires Possible(RemoveIntercept(s, id, spare), es)
    ensures var t := Run(RemoveIntercept(s, id, spare), es); RemoveIntercept(t, id, spare') == t
  {
    RemoveInterceptKeeps(s, id, spare);
    RemoveIds(s, id, spare);
    hide Inv, Run, Possible;
    NeverReissued(RemoveIntercept(s, id, spare), es, id);
  }
}
