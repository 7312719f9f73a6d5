/** In which order requests are started, and how many one connection serves. */
module SchedulerOrder {
  import opened SchedulerSpec
  import opened SchedulerInvariants

  // ---- First come, first served ---------------------------------------------------------------------------

  /** Those waiting are the accepted intercepts not started yet, in order; and while some wait, the pool is
      at its limit without a free connection. */
  ghost predicate Fifo<I, C>(s: Sched<I, C>) {
    && s.history.started + s.queue == s.history.accepted
    && (s.queue != [] ==> Saturated(s))
  }

  predicate Saturated<I, C>(s: Sched<I, C>) {
    |s.connections| >= s.limits.maxConn && s.available == []
  }

  /** Events of connections that do not break. */
  predicate Regular<I, C>(e: Event<I, C>) {
    e.Submit? || e.NetConnect? || e.RequestWritten? || e.ResponseDone? || e.Abort?
  }

  /** Removing an intercept while others wait starts the first of them: it always gets a connection. */
  lemma FirstInQueueStarts<I, C>(s: Sched<I, C>, id: nat, spare: C)
    requires Inv(s) && id in s.mapped && s.queue != [] && spare !in s.conns && s.issued < ID_SPACE
    ensures var t := RemoveIntercept(s, id, spare);
            && t.history.started == s.history.started + [s.queue[0]]
            && t.queue == s.queue[1..]
            && t.history.accepted == s.history.accepted
            && (Saturated(s) ==> Saturated(t))
  {
    ReleaseKeeps(s, id);
    var t := Release(s, id);
    var c := s.mapped[id].1;
    WithoutKeeps(s.connections, c);
    WithoutKeeps(s.available, c);
    assert c in s.connections by { assert c in s.conns; assert c in Elements(s.connections); }
    assert t.available != [] || |t.connections| < t.limits.maxConn;
    assert ([c])[1..] == [];
  }

  lemma RegularStepKeepsOrder<I, C>(s: Sched<I, C>, e: Event<I, C>)
    requires Inv(s) && Fifo(s) && Enabled(s, e) && Regular(e) && s.issued < ID_SPACE
    ensures Fifo(Step(s, e))
  {
    match e
    case Submit(i, spare) =>
      var t := Submitted(s, i);
      assert i !in s.history.dropped;
      assert s.history.started + (s.queue + [i]) == s.history.accepted + [i];
      if s.queue == [] { assert s.history.started + [i] + [] == s.history.accepted + [i]; }
    case NetConnect(c) =>
    case RequestWritten(id) =>
    case ResponseDone(c, spare) =>
      var t := SetState(s, c, Complete);
      SetFieldsKeeps(s, c, s.conns[c].(state := Complete), {}, {});
      RemovalKeepsOrder(t, s.conns[c].requestId, spare);
    case Abort(id, spare) =>
      RemovalKeepsOrder(s, id, spare);
  }

  lemma RemovalKeepsOrder<I, C>(s: Sched<I, C>, id: nat, spare: C)
    requires Inv(s) && Fifo(s) && spare !in s.conns && s.issued < ID_SPACE
    ensures Fifo(RemoveIntercept(s, id, spare))
  {
    hide RemoveIntercept, Inv;
    if id in s.mapped && s.queue != [] {
      FirstInQueueStarts(s, id, spare);
      assert s.history.started + s.queue == s.history.started + [s.queue[0]] + s.queue[1..];
    } else {
      NobodyStarts(s, id, spare);
    }
  }

  lemma NobodyStarts<I, C>(s: Sched<I, C>, id: nat, spare: C)
    requires id !in s.mapped || s.queue == []
    ensures var t := RemoveIntercept(s, id, spare);
            t.queue == s.queue && t.history.started == s.history.started && t.history.accepted == s.history.accepted && (id !in s.mapped ==> t == s)
  {
  }

  /** No request is overtaken in any run without broken connections: the started intercepts, followed by
      those waiting, are always the accepted ones in the order of their submission. */
  lemma {:induction false} RegularRunsKeepOrder<I, C>(s: Sched<I, C>, es: seq<Event<I, C>>)
    requires Inv(s) && Fifo(s) && Possible(s, es) && forall e :: e in es ==> Regular(e)
    ensures Fifo(Run(s, es))
    decreases |es|
  {
    if es != [] {
      assert es[0] in es;
      StepKeeps(s, es[0]);
      RegularStepKeepsOrder(s, es[0]);
      RegularRunsKeepOrder(Step(s, es[0]), es[1..]);
    }
  }

  /** A newcomer is started at once exactly when the pool is not saturated. Waiting intercepts do not
      matter, so whoever waits in an unsaturated pool is overtaken. */
  lemma NewcomerStarts<I, C>(s: Sched<I, C>, i: I, spare: C)
    requires Inv(s) && i !in s.history.submitted && spare !in s.conns
    ensures var t := Step(s, Submit(i, spare));
            && (t.history.started == s.history.started + [i] <==> |s.connections| < s.limits.maxConn || s.available != [])
            && (t.history.started == s.history.started <==> |s.connections| == s.limits.maxConn && s.available == [])
            && (t.history.started != s.history.started ==> t.queue == s.queue)
  {
  }

  /** Such a state comes about whenever a connection that has sent its request breaks: its place in the
      pool is free then, and nobody is taken from the queue. The next newcomer overtakes all who wait. */
  lemma BrokenConnectionLetsOvertake<I, C>(s: Sched<I, C>, c: C, spare: C, i: I, spare': C)
    requires Inv(s) && Enabled(s, Eos(c, spare)) && s.conns[c].readEnable && s.issued < ID_SPACE
    requires Enabled(Step(s, Eos(c, spare)), Submit(i, spare'))
    ensures var t := Step(Step(s, Eos(c, spare)), Submit(i, spare'));
            t.history.started == s.history.started + [i] && t.queue == s.queue
  {
    hide Step, Inv;
    StepKeeps(s, Eos(c, spare));
    var t := Step(s, Eos(c, spare));
    EosFreesAPlace(s, c, spare);
    NewcomerStarts(t, i, spare');
  }

  lemma EosFreesAPlace<I, C>(s: Sched<I, C>, c: C, spare: C)
    requires Inv(s) && c in s.conns && s.conns[c].readEnable
    ensures var t := Step(s, Eos(c, spare)); !Saturated(t) && t.queue == s.queue && t.history.started == s.history.started
  {
    WithoutKeeps(s.connections, c);
    assert c in s.connections by { assert c in Elements(s.connections); }
  }

  /** A request whose connection failed before it was sent is dropped, although it was accepted, exactly if
      the pool is saturated and the queue full; the failed connection still counts in the pool then. Otherwise
      it is started anew, or queued behind all others. */
  lemma MovedRequestIsDropped<I, C>(s: Sched<I, C>, id: nat, spare: C)
    requires Inv(s) && id in s.mapped && s.issued < ID_SPACE && spare !in s.conns
    ensures var i, t := s.mapped[id].0, ReConnect(s, id, spare);
            && (i in t.history.dropped <==> |s.connections| == s.limits.maxConn && s.available == [] && |s.queue| == s.limits.queueSize)
            && (i in t.queue <==> |s.connections| == s.limits.maxConn && s.available == [] && |s.queue| < s.limits.queueSize)
            && (|s.connections| < s.limits.maxConn || s.available != [] ==> t.history.started == s.history.started + [i] && t.queue == s.queue)
            && (i in t.queue ==> t.queue == s.queue + [i])
  {
    var i := s.mapped[id].0;
    MappedIsNowhereElse(s, id);
    var s1 := s.(mapped := s.mapped - {id});
    var t := Connect(s1, i, spare);
    assert t.queue == (if Saturated(s) && |s.queue| < s.limits.queueSize then s.queue + [i] else s.queue);
  }

  lemma MappedIsNowhereElse<I, C>(s: Sched<I, C>, id: nat)
    requires Inv(s) && id in s.mapped
    ensures s.mapped[id].0 !in s.queue && s.mapped[id].0 !in s.history.dropped
  {
    var i := s.mapped[id].0;
    assert i in Elements(s.queue) <==> i in s.queue;
    assert i in Mapped(s);
  }

  // ---- How many requests a connection serves ----------------------------------------------------------------

  /** A connection that has served no request counts none, and none counts more than its limit. */
  ghost predicate WithinLimit<I, C>(s: Sched<I, C>) {
    forall c :: c in s.conns ==>
      && s.conns[c].reqCount <= s.limits.maxRequests
      && (s.conns[c].connecting ==> s.conns[c].reqCount == 0 && s.conns[c].state == Initiated && c !in s.available)
  }

  /** The client goes away before its new connection is there. */
  ghost predicate EarlyAbort<I, C>(s: Sched<I, C>, e: Event<I, C>) {
    e.Abort? && e.id in s.mapped && s.mapped[e.id].1 in s.conns && s.conns[s.mapped[e.id].1].connecting
  }

  lemma ConnectWithinLimit<I, C>(s: Sched<I, C>, i: I, spare: C)
    requires WithinLimit(s) && FreeInv(s) && spare !in s.conns && s.limits.maxRequests >= 1
    requires forall c :: c in s.available ==> c in s.conns
    requires NoDuplicates(s.available)
    ensures WithinLimit(Connect(s, i, spare))
  {
    var (conn, s1) := GetAvailable(s, spare);
    assert forall c :: c in s1.available ==> c in s.available;
    if conn.Some? && conn.value != spare {
      assert s.available[0] in s.available;
    }
  }

  lemma RemovalWithinLimit<I, C>(s: Sched<I, C>, id: nat, spare: C)
    requires Inv(s) && WithinLimit(s) && spare !in s.conns && s.limits.maxRequests >= 1
    requires id in s.mapped ==> !s.conns[s.mapped[id].1].connecting
    ensures WithinLimit(RemoveIntercept(s, id, spare))
  {
    if id in s.mapped {
      ReleaseKeeps(s, id);
      ReleaseWithinLimit(s, id);
      var t := Release(s, id);
      if t.queue != [] { ConnectWithinLimit(t.(queue := t.queue[1..]), t.queue[0], spare); }
    }
  }

  lemma ReleaseWithinLimit<I, C>(s: Sched<I, C>, id: nat)
    requires Inv(s) && WithinLimit(s) && id in s.mapped && !s.conns[s.mapped[id].1].connecting
    ensures WithinLimit(Release(s, id))
  {
    var c := s.mapped[id].1;
    WithoutKeeps(s.available, c);
  }

  lemma ClosedWithinLimit<I, C>(s: Sched<I, C>, c: C)
    requires WithinLimit(s) && NoDuplicates(s.available)
    ensures WithinLimit(ConnectionClosed(s, c))
  {
    WithoutKeeps(s.available, c);
  }

  lemma ReConnectWithinLimit<I, C>(s: Sched<I, C>, c: C, spare: C)
    requires Inv(s) && WithinLimit(s) && c in s.conns && spare !in s.conns && s.limits.maxRequests >= 1 && s.issued < ID_SPACE
    ensures WithinLimit(ConnectionClosed(SetState(ReConnect(s, s.conns[c].requestId, spare), c, Closed), c))
  {
    var id := s.conns[c].requestId;
    var t := ReConnect(s, id, spare);
    ReConnectKeeps(s, id, spare);
    if id in s.mapped { ConnectWithinLimit(s.(mapped := s.mapped - {id}), s.mapped[id].0, spare); }
    ClosingWithinLimit(t, c);
  }

  lemma ClosingWithinLimit<I, C>(s: Sched<I, C>, c: C)
    requires WithinLimit(s) && NoDuplicates(s.available) && c in s.conns
    ensures WithinLimit(ConnectionClosed(SetState(s, c, Closed), c))
  {
    WithoutKeeps(s.available, c);
  }

  lemma SubmitWithinLimit<I, C>(s: Sched<I, C>, i: I, spare: C)
    requires Inv(s) && WithinLimit(s) && spare !in s.conns && s.limits.maxRequests >= 1
    ensures WithinLimit(Step(s, Submit(i, spare)))
  {
    ConnectWithinLimit(Submitted(s, i), i, spare);
  }

  lemma DoneWithinLimit<I, C>(s: Sched<I, C>, c: C, spare: C)
    requires Inv(s) && WithinLimit(s) && c in s.conns && !s.conns[c].connecting && spare !in s.conns
    requires s.conns[c].requestId in s.mapped && s.limits.maxRequests >= 1
    ensures WithinLimit(RemoveIntercept(SetState(s, c, Complete), s.conns[c].requestId, spare))
  {
    SetFieldsKeeps(s, c, s.conns[c].(state := Complete), {}, {});
    RemovalWithinLimit(SetState(s, c, Complete), s.conns[c].requestId, spare);
  }

  lemma ClosingConnectionWithinLimit<I, C>(s: Sched<I, C>, c: C)
    requires Inv(s) && WithinLimit(s) && c in s.conns
    ensures WithinLimit(ConnectionClosed(SetState(s, c, Closed), c)) && WithinLimit(ConnectionClosed(s, c))
  {
    ClosingWithinLimit(s, c);
    ClosedWithinLimit(s, c);
  }

  lemma StepWithinLimit<I, C>(s: Sched<I, C>, e: Event<I, C>)
    requires Inv(s) && WithinLimit(s) && Enabled(s, e) && !EarlyAbort(s, e) && s.limits.maxRequests >= 1 && s.issued < ID_SPACE
    ensures WithinLimit(Step(s, e))
  {
    hide Connect, RemoveIntercept, ReConnect, ConnectionClosed;
    match e
    case Submit(i, spare) => SubmitWithinLimit(s, i, spare);
    case NetConnect(c) =>
    case ConnectFailed(c, spare) => ReConnectWithinLimit(s, c, spare);
    case RequestWritten(id) =>
    case ResponseDone(c, spare) => DoneWithinLimit(s, c, spare);
    case Abort(id, spare) => RemovalWithinLimit(s, id, spare);
    case Eos(c, spare) => if !s.conns[c].readEnable { ReConnectWithinLimit(s, c, spare); } else { ClosingConnectionWithinLimit(s, c); }
    case NetError(c) => ClosingConnectionWithinLimit(s, c);
  }

  lemma StepKeepsLimits<I, C>(s: Sched<I, C>, e: Event<I, C>)
    ensures Step(s, e).limits == s.limits
  {
  }

  /** No event of the run is an early abort. */
  ghost predicate Patient<I, C>(s: Sched<I, C>, es: seq<Event<I, C>>)
    decreases |es|
  {
    es == [] || (!EarlyAbort(s, es[0]) && Patient(Step(s, es[0]), es[1..]))
  }

  /** In no run without an early abort does a connection serve more requests than it may. */
  lemma {:induction false} RunsWithinLimit<I, C>(s: Sched<I, C>, es: seq<Event<I, C>>)
    requires Inv(s) && WithinLimit(s) && Possible(s, es) && Patient(s, es) && s.limits.maxRequests >= 1
    ensures WithinLimit(Run(s, es))
    decreases |es|
  {
    if es != [] {
      StepKeeps(s, es[0]);
      StepWithinLimit(s, es[0]);
      StepKeepsLimits(s, es[0]);
      RunsWithinLimit(Step(s, es[0]), es[1..]);
    }
  }

  /** After an early abort the connection is in the free list although it is not there yet. If the next
      request takes it before its NET_CONNECT comes, that event counts the request a second time. When exactly
      a counter passes its limit, and that the requests served never do, is said in SchedulerService. */
  lemma EarlyAbortCountsTwice<I, C>(s: Sched<I, C>, id: nat, c: C, i: I, spare: C)
    requires Inv(s) && WithinLimit(s) && s.limits.maxRequests == 1 && s.issued < ID_SPACE
    requires EarlyAbort(s, Abort(id, spare)) && s.mapped[id].1 == c
    requires s.queue == [] && Saturated(s) && i !in s.history.submitted && spare !in s.conns
    ensures var t := Step(Step(s, Abort(id, spare)), Submit(i, spare));
            && Enabled(s, Abort(id, spare)) && Enabled(Step(s, Abort(id, spare)), Submit(i, spare)) && Enabled(t, NetConnect(c))
            && Step(t, NetConnect(c)).conns[c].reqCount == 2
  {
    var s1 := Step(s, Abort(id, spare));
    AbortFrees(s, id, c, spare);
    var s2 := Step(s1, Submit(i, spare));
    FreeIsTaken(s1, c, i, spare);
    assert s2.conns[c].reqCount == 1;
  }

  lemma AbortFrees<I, C>(s: Sched<I, C>, id: nat, c: C, spare: C)
    requires Inv(s) && WithinLimit(s) && s.limits.maxRequests == 1
    requires id in s.mapped && s.mapped[id].1 == c && s.conns[c].connecting && s.queue == [] && Saturated(s)
    ensures var t := RemoveIntercept(s, id, spare);
            t == s.(mapped := s.mapped - {id}, conns := s.conns[c := Conn(Ready, 0, 0, false, true)], available := [c],
                    history := s.history.(finished := s.history.finished + {s.mapped[id].0}))
  {
    assert s.available + [c] == [c];
  }

  lemma FreeIsTaken<I, C>(s: Sched<I, C>, c: C, i: I, spare: C)
    requires |s.connections| >= s.limits.maxConn && s.available == [c] && s.issued < ID_SPACE
    requires c in s.conns && s.conns[c] == Conn(Ready, 0, 0, false, true)
    ensures var t := Step(s, Submit(i, spare));
            t.conns == s.conns[c := Conn(InUse, s.issued, 1, false, true)] && s.issued in t.mapped
  {
  }
}
