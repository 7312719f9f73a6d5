/** What every event of one thread does, field by field: which connection is taken, who waits and who is
    dropped, what becomes of a connection that is done or breaks. */
module SchedulerEvents {
  import opened SchedulerSpec
  import opened SchedulerInvariants

  // ---- A request arrives ----------------------------------------------------------------------------------

  /** Below its limit the pool makes a connection, though free ones may be there. */
  lemma NewConnection<I, C>(s: Sched<I, C>, i: I, spare: C)
    requires Inv(s) && i !in s.history.submitted && spare !in s.conns && s.issued < 0x1_0000_0000
    requires |s.connections| < s.limits.maxConn
    ensures var t, h := Step(s, Submit(i, spare)), s.history;
            t == s.(issued := s.issued + 1,
                    mapped := s.mapped[s.issued := (i, spare)],
                    ids := s.ids[i := s.issued],
                    conns := s.conns[spare := Conn(Initiated, s.issued, 0, false, true)],
                    connections := s.connections + [spare],
                    history := h.(submitted := h.submitted + {i}, accepted := h.accepted + [i], started := h.started + [i]))
  {
  }

  /** At its limit the connection that has been free for longest is taken, and counts one more request. */
  lemma FreeConnection<I, C>(s: Sched<I, C>, i: I, spare: C)
    requires Inv(s) && i !in s.history.submitted && spare !in s.conns && s.issued < 0x1_0000_0000
    requires |s.connections| == s.limits.maxConn && s.available != []
    ensures var t, h, c := Step(s, Submit(i, spare)), s.history, s.available[0];
            c in s.conns &&
            t == s.(issued := s.issued + 1,
                    mapped := s.mapped[s.issued := (i, c)],
                    ids := s.ids[i := s.issued],
                    conns := s.conns[c := Conn(InUse, s.issued, s.conns[c].reqCount + 1, false, s.conns[c].connecting)],
                    available := s.available[1..],
                    history := h.(submitted := h.submitted + {i}, accepted := h.accepted + [i], started := h.started + [i]))
  {
    hide Connect;
    assert s.available[0] in s.available;
    ConnectOutcome(Submitted(s, i), i, spare);
    assert i !in s.history.dropped;
  }

  /** At a pool at its limit without a free connection, a newcomer is appended to the queue exactly if the queue
      holds fewer than it may, and dropped exactly if it holds as many; nothing else changes. */
  lemma NewcomerWaitsOrIsDropped<I, C>(s: Sched<I, C>, i: I, spare: C)
    requires Inv(s) && i !in s.history.submitted && spare !in s.conns
    requires |s.connections| == s.limits.maxConn && s.available == []
    ensures var t, h := Step(s, Submit(i, spare)), s.history;
            && (|s.queue| < s.limits.queueSize || |s.queue| == s.limits.queueSize)
            && (t.queue == s.queue + [i] <==> |s.queue| < s.limits.queueSize)
            && (i in t.history.dropped <==> |s.queue| == s.limits.queueSize)
            && t == if |s.queue| < s.limits.queueSize
                    then s.(queue := s.queue + [i], history := h.(submitted := h.submitted + {i}, accepted := h.accepted + [i]))
                    else s.(history := h.(submitted := h.submitted + {i}, dropped := h.dropped + {i}))
  {
    assert i !in s.history.dropped;
  }

  function Min(a: nat, b: nat): nat {
    if a <= b then a else b
  }

  function Arrivals<I, C>(es: seq<Event<I, C>>): seq<I>
    requires forall e :: e in es ==> e.Submit?
  {
    if es == [] then [] else [es[0].i] + Arrivals(es[1..])
  }

  /** Of `news`, the first ones wait in their order, as many as the queue has places left; all others are dropped,
      and nothing else happens. */
  predicate FirstWait<I, C>(s: Sched<I, C>, t: Sched<I, C>, news: seq<I>)
    requires |s.queue| <= s.limits.queueSize
  {
    var k := Min(|news|, s.limits.queueSize - |s.queue|);
    && t.queue == s.queue + news[..k]
    && t.history.accepted == s.history.accepted + news[..k]
    && t.history.dropped == s.history.dropped + Elements(news[k..])
    && t.history.submitted == s.history.submitted + Elements(news)
    && t == s.(queue := t.queue, history := t.history) && t.history.started == s.history.started
    && t.history.finished == s.history.finished && t.history.failed == s.history.failed
  }

  /** Of any number of requests that arrive at such a pool, exactly the first ones that fit the queue wait. */
  lemma {:induction false} FirstOnesWait<I, C>(s: Sched<I, C>, es: seq<Event<I, C>>)
    requires Inv(s) && Possible(s, es) && forall e :: e in es ==> e.Submit?
    requires |s.connections| == s.limits.maxConn && s.available == []
    ensures |s.queue| <= s.limits.queueSize && FirstWait(s, Run(s, es), Arrivals(es))
    decreases |es|
  {
    hide Step, Enabled, Inv, FirstWait;
    QueueWithinLimit(s);
    if es == [] {
      NobodyArrives(s);
    } else {
      assert es[0] in es;
      StepKeeps(s, es[0]);
      Newcomer(s, es[0]);
      FirstOnesWait(Step(s, es[0]), es[1..]);
      if |s.queue| < s.limits.queueSize {
        FirstFits(s, Step(s, es[0]), Run(s, es), es[0].i, Arrivals(es[1..]));
      } else {
        FirstIsDropped(s, Step(s, es[0]), Run(s, es), es[0].i, Arrivals(es[1..]));
      }
    }
  }

  lemma QueueWithinLimit<I, C>(s: Sched<I, C>)
    requires Inv(s)
    ensures |s.queue| <= s.limits.queueSize
  {
  }

  lemma NobodyArrives<I, C>(s: Sched<I, C>)
    requires |s.queue| <= s.limits.queueSize
    ensures FirstWait(s, s, [])
  {
    assert s.queue + [] == s.queue && s.history.accepted + [] == s.history.accepted;
    assert Elements<I>([]) == {};
  }

  lemma FirstFits<I, C>(s: Sched<I, C>, s1: Sched<I, C>, t: Sched<I, C>, i: I, more: seq<I>)
    requires |s.queue| < s.limits.queueSize
    requires s1 == s.(queue := s.queue + [i], history := s.history.(submitted := s.history.submitted + {i}, accepted := s.history.accepted + [i]))
    requires FirstWait(s1, t, more)
    ensures FirstWait(s, t, [i] + more)
  {
    var k := Min(1 + |more|, s.limits.queueSize - |s.queue|);
    OneMore(s.queue, i, more, k);
    OneMore(s.history.accepted, i, more, k);
    hide Elements;
  }

  lemma OneMore<T>(q: seq<T>, x: T, more: seq<T>, k: nat)
    requires 0 < k <= 1 + |more|
    ensures var all := [x] + more;
            all[k..] == more[k - 1..] && Elements(all) == {x} + Elements(more) && (q + [x]) + more[..k - 1] == q + all[..k]
  {
    var all := [x] + more;
    ElementsOf(all, x);
    assert all[1..] == more;
    assert all[..k] == [x] + more[..k - 1];
  }

  lemma FirstIsDropped<I, C>(s: Sched<I, C>, s1: Sched<I, C>, t: Sched<I, C>, i: I, more: seq<I>)
    requires |s.queue| == s.limits.queueSize
    requires s1 == s.(history := s.history.(submitted := s.history.submitted + {i}, dropped := s.history.dropped + {i}))
    requires FirstWait(s1, t, more)
    ensures FirstWait(s, t, [i] + more)
  {
    var news := [i] + more;
    ElementsOf(news, i);
    assert news[1..] == more && news[..0] == more[..0] == [] && news[0..] == news && more[0..] == more;
  }

  lemma Newcomer<I, C>(s: Sched<I, C>, e: Event<I, C>)
    requires Inv(s) && Enabled(s, e) && e.Submit? && |s.connections| == s.limits.maxConn && s.available == []
    ensures var t, h := Step(s, e), s.history;
            t == if |s.queue| < s.limits.queueSize
                 then s.(queue := s.queue + [e.i], history := h.(submitted := h.submitted + {e.i}, accepted := h.accepted + [e.i]))
                 else s.(history := h.(submitted := h.submitted + {e.i}, dropped := h.dropped + {e.i}))
  {
    NewcomerWaitsOrIsDropped(s, e.i, e.spare);
  }

  // ---- A request leaves -----------------------------------------------------------------------------------

  /** The place of one element of a list without duplicates is closed; the others keep their order. */
  lemma {:induction false} WithoutIs<T>(s: seq<T>, k: nat)
    requires NoDuplicates(s) && k < |s|
    ensures Without(s, s[k]) == s[..k] + s[k + 1..]
    decreases |s|
  {
    var x := s[k];
    if k == 0 {
      NotThere(s[1..], x);
    } else {
      WithoutIs(s[1..], k - 1);
      assert s[..k] == [s[0]] + s[1..][..k - 1] && s[1..][k..] == s[k + 1..];
    }
  }

  lemma {:induction false} NotThere<T>(s: seq<T>, x: T)
    requires x !in s
    ensures Without(s, x) == s
    decreases |s|
  {
    if s != [] { NotThere(s[1..], x); }
  }

  /** A list without `c`, in the same order. */
  ghost predicate Lacks<C>(list: seq<C>, was: seq<C>, c: C) {
    if c in was then exists k :: 0 <= k < |was| && was[k] == c && list == was[..k] + was[k + 1..] else list == was
  }

  lemma WithoutLacks<C>(s: seq<C>, c: C)
    requires NoDuplicates(s)
    ensures Lacks(Without(s, c), s, c)
  {
    if c in s {
      var k :| 0 <= k < |s| && s[k] == c;
      WithoutIs(s, k);
    } else {
      NotThere(s, c);
    }
  }

  lemma Rewritten<K, V>(m: map<K, V>, k: K, v: V, w: V)
    ensures m[k := v][k := w] == m[k := w] && m[k := v] - {k} == m - {k}
  {
  }

  lemma ReleaseIs<I, C>(s: Sched<I, C>, id: nat)
    requires Inv(s) && id in s.mapped
    ensures var i, c := s.mapped[id].0, s.mapped[id].1;
            var k, h := s.conns[c], s.history;
            var left := s.(mapped := s.mapped - {id}, history := h.(finished := h.finished + {i}));
            Release(s, id) ==
            if k.reqCount < s.limits.maxRequests
            then left.(conns := s.conns[c := Conn(Ready, 0, k.reqCount, false, k.connecting)], available := s.available + [c])
            else left.(conns := s.conns - {c}, connections := Without(s.connections, c))
  {
    var c := s.mapped[id].1;
    NotThere(s.available, c);
    hide Without;
    assert 0 !in s.mapped;
    var k := s.conns[c].ReleaseFCGIClient().(requestId := 0);
    assert (s.mapped - {id}) - {0} == s.mapped - {id};
    Rewritten(s.conns, c, k, k.(readEnable := false, state := Ready));
    Rewritten(s.conns, c, k, k.(state := Closed));
    Rewritten(s.conns, c, k.(state := Closed), k);
  }

  lemma ReleaseOutcome<I, C>(s: Sched<I, C>, id: nat)
    requires Inv(s) && id in s.mapped
    ensures var t, i, c := Release(s, id), s.mapped[id].0, s.mapped[id].1;
            var k, h := s.conns[c], s.history;
            var left := s.(mapped := s.mapped - {id}, history := h.(finished := h.finished + {i}));
            if k.reqCount < s.limits.maxRequests
            then t == left.(conns := s.conns[c := Conn(Ready, 0, k.reqCount, false, k.connecting)], available := s.available + [c])
            else Lacks(t.connections, s.connections, c) && t == left.(conns := s.conns - {c}, connections := t.connections)
  {
    hide Release, Lacks, Without;
    ReleaseIs(s, id);
    WithoutLacks(s.connections, s.mapped[id].1);
  }

  /** The request that a response just completed or an abort is about, if it is still there. */
  function Leaving<I, C>(s: Sched<I, C>, e: Event<I, C>): nat
    requires e.ResponseDone? || e.Abort?
  {
    if e.Abort? then e.id else if e.c in s.conns then s.conns[e.c].requestId else 0
  }

  lemma LeavingIs<I, C>(s: Sched<I, C>, e: Event<I, C>)
    requires Inv(s) && Enabled(s, e) && (e.ResponseDone? || e.Abort?) && Leaving(s, e) in s.mapped
    ensures Step(s, e) == PopAndConnect(Release(s, Leaving(s, e)), e.spare)
  {
    var id := Leaving(s, e);
    if e.ResponseDone? {
      CompleteKeeps(s, e.c);
      var k := s.conns[e.c];
      assert s.mapped[id].1 == e.c by { Carries(s, e.c); }
      SameRelease(s, id);
    }
  }

  lemma Carries<I, C>(s: Sched<I, C>, c: C)
    requires Inv(s) && c in s.conns && s.conns[c].requestId in s.mapped
    ensures s.mapped[s.conns[c].requestId].1 == c
  {
    assert 0 !in s.mapped;
  }

  /** Releasing asks for nothing but the count. */
  lemma SameRelease<I, C>(s: Sched<I, C>, id: nat)
    requires Inv(s) && id in s.mapped
    ensures Release(SetState(s, s.mapped[id].1, Complete), id) == Release(s, id)
  {
    hide Release, Without;
    var c := s.mapped[id].1;
    CompleteKeeps(s, c);
    ReleaseIs(s, id);
    ReleaseIs(SetState(s, c, Complete), id);
    var k := s.conns[c].(state := Complete);
    Rewritten(s.conns, c, k, Conn(Ready, 0, k.reqCount, false, k.connecting));
  }

  /** A request leaves and nobody waits: its connection becomes the last free one, unless it has served as many
      requests as it may; then it is closed. If the request is not there any more, nothing happens. */
  lemma RequestLeaves<I, C>(s: Sched<I, C>, e: Event<I, C>)
    requires Inv(s) && Enabled(s, e) && (e.ResponseDone? || e.Abort?)
    ensures Leaving(s, e) !in s.mapped ==> Step(s, e) == s
    ensures Leaving(s, e) in s.mapped && s.queue == [] ==>
              var t, id := Step(s, e), Leaving(s, e);
              var i, c := s.mapped[id].0, s.mapped[id].1;
              c in s.conns &&
              var k, h := s.conns[c], s.history;
              var left := s.(mapped := s.mapped - {id}, history := h.(finished := h.finished + {i}));
              if k.reqCount < s.limits.maxRequests
              then t == left.(conns := s.conns[c := Conn(Ready, 0, k.reqCount, false, k.connecting)], available := s.available + [c])
              else Lacks(t.connections, s.connections, c) && t == left.(conns := s.conns - {c}, connections := t.connections)
  {
    if Leaving(s, e) in s.mapped {
      LeavingIs(s, e);
      ReleaseKeeps(s, Leaving(s, e));
      hide Step, Release, Lacks;
      if s.queue == [] { ReleaseOutcome(s, Leaving(s, e)); }
    }
  }

  /** `t` is `s` without the request `id`, and with the first of those who wait put on a connection: on the one that
      has been free for longest, counting the one just freed, if the pool is at its limit and that one can go on; on
      the new one `spare` otherwise. Nobody else moves. */
  ghost predicate FirstIsServed<I, C>(s: Sched<I, C>, t: Sched<I, C>, id: nat, spare: C)
    requires id in s.mapped && s.mapped[id].1 in s.conns && s.queue != []
  {
    var (i, c), first, h := s.mapped[id], s.queue[0], s.history;
    var again, full := s.conns[c].reqCount < s.limits.maxRequests, |s.connections| == s.limits.maxConn;
    var x := if again && full then (s.available + [c])[0] else spare;
    && t.queue == s.queue[1..] && t.issued == s.issued + 1
    && t.mapped == (s.mapped - {id})[s.issued := (first, x)]
    && t.history == h.(finished := h.finished + {i}, started := h.started + [first])
    && x in t.conns
    && (if again && full then x in s.conns && t.conns[x] == Conn(InUse, s.issued, s.conns[x].reqCount + 1, false, s.conns[x].connecting)
        else t.conns[x] == Conn(Initiated, s.issued, 0, false, true))
    && t.available == (if !again then s.available else if full then (s.available + [c])[1..] else s.available + [c])
    && (if again then t.connections == (if full then s.connections else s.connections + [spare])
        else |t.connections| > 0 && t.connections[|t.connections| - 1] == spare && Lacks(t.connections[..|t.connections| - 1], s.connections, c))
  }

  lemma ServedAtLimit<I, C>(s: Sched<I, C>, id: nat, spare: C)
    requires Inv(s) && id in s.mapped && s.queue != [] && spare !in s.conns && s.issued < 0x1_0000_0000
    requires s.conns[s.mapped[id].1].reqCount < s.limits.maxRequests && |s.connections| == s.limits.maxConn
    ensures FirstIsServed(s, PopAndConnect(Release(s, id), spare), id, spare)
  {
    hide PopAndConnect, Release, Lacks, Inv;
    ReleaseKeeps(s, id);
    ReleaseOutcome(s, id);
    LeadsToLive(s);
    ServeOutcome(Release(s, id), spare);
  }

  lemma ServedBelow<I, C>(s: Sched<I, C>, id: nat, spare: C)
    requires Inv(s) && id in s.mapped && s.queue != [] && spare !in s.conns && s.issued < 0x1_0000_0000
    requires s.conns[s.mapped[id].1].reqCount < s.limits.maxRequests && |s.connections| < s.limits.maxConn
    ensures FirstIsServed(s, PopAndConnect(Release(s, id), spare), id, spare)
  {
    hide PopAndConnect, Release, Lacks, Inv;
    ReleaseKeeps(s, id);
    ReleaseOutcome(s, id);
    LeadsToLive(s);
    ServeOutcome(Release(s, id), spare);
  }

  lemma ServedAnew<I, C>(s: Sched<I, C>, id: nat, spare: C)
    requires Inv(s) && id in s.mapped && s.queue != [] && spare !in s.conns && s.issued < 0x1_0000_0000
    requires s.conns[s.mapped[id].1].reqCount >= s.limits.maxRequests
    ensures FirstIsServed(s, PopAndConnect(Release(s, id), spare), id, spare)
  {
    hide PopAndConnect, Release, Lacks, Inv;
    ReleaseKeeps(s, id);
    ReleaseOutcome(s, id);
    LeadsToLive(s);
    var r := Release(s, id);
    Fewer(s, r, s.mapped[id].1);
    ServeOutcome(r, spare);
    assert (r.connections + [spare])[..|r.connections|] == r.connections;
  }

  /** If somebody waits when a request leaves, the first of them is served at once. */
  lemma FirstWaitingIsServed<I, C>(s: Sched<I, C>, e: Event<I, C>)
    requires Inv(s) && Enabled(s, e) && (e.ResponseDone? || e.Abort?) && s.issued < 0x1_0000_0000
    requires Leaving(s, e) in s.mapped && s.queue != []
    ensures s.mapped[Leaving(s, e)].1 in s.conns && FirstIsServed(s, Step(s, e), Leaving(s, e), e.spare)
  {
    hide FirstIsServed, Release, PopAndConnect, Step;
    LeavingIs(s, e);
    if s.conns[s.mapped[Leaving(s, e)].1].reqCount < s.limits.maxRequests {
      if |s.connections| == s.limits.maxConn { ServedAtLimit(s, Leaving(s, e), e.spare); } else { ServedBelow(s, Leaving(s, e), e.spare); }
    } else {
      ServedAnew(s, Leaving(s, e), e.spare);
    }
  }

  lemma Fewer<I, C>(s: Sched<I, C>, r: Sched<I, C>, c: C)
    requires Inv(s) && c in s.conns && Lacks(r.connections, s.connections, c)
    ensures |r.connections| < s.limits.maxConn
  {
    assert c in Elements(s.connections);
  }

  lemma ConnectOutcome<I, C>(s: Sched<I, C>, i: I, spare: C)
    requires spare !in s.conns && 0 < s.issued < 0x1_0000_0000
    requires s.available != [] ==> s.available[0] in s.conns && !s.conns[s.available[0]].readEnable
    ensures var t, h := Connect(s, i, spare), s.history;
            if |s.connections| < s.limits.maxConn then
              t == s.(issued := s.issued + 1, ids := s.ids[i := s.issued], mapped := s.mapped[s.issued := (i, spare)], connections := s.connections + [spare],
                      conns := s.conns[spare := Conn(Initiated, s.issued, 0, false, true)], history := h.(started := h.started + [i]))
            else if s.available != [] then
              var x := s.available[0];
              t == s.(issued := s.issued + 1, ids := s.ids[i := s.issued], mapped := s.mapped[s.issued := (i, x)], available := s.available[1..],
                      conns := s.conns[x := Conn(InUse, s.issued, s.conns[x].reqCount + 1, false, s.conns[x].connecting)],
                      history := h.(started := h.started + [i]))
            else if |s.queue| < s.limits.queueSize then t == s.(queue := s.queue + [i])
            else t == s.(history := h.(dropped := h.dropped + {i}))
  {
    if |s.connections| < s.limits.maxConn {
      Rewritten(s.conns, spare, NEW_CONN, Conn(Initiated, s.issued, 0, false, true));
    } else if s.available != [] {
      var x := s.available[0];
      Rewritten(s.conns, x, s.conns[x].(state := Ready), Conn(InUse, s.issued, s.conns[x].reqCount + 1, false, s.conns[x].connecting));
    }
  }

  lemma ServeOutcome<I, C>(r: Sched<I, C>, spare: C)
    requires Inv(r) && r.queue != [] && spare !in r.conns && r.issued < 0x1_0000_0000
    requires |r.connections| < r.limits.maxConn || r.available != []
    ensures var t, first, h := PopAndConnect(r, spare), r.queue[0], r.history;
            var new_ := |r.connections| < r.limits.maxConn;
            var x := if new_ then spare else r.available[0];
            && (!new_ ==> x in r.conns)
            && t == r.(queue := r.queue[1..], issued := r.issued + 1, ids := r.ids[first := r.issued], mapped := r.mapped[r.issued := (first, x)],
                       history := h.(started := h.started + [first]),
                       conns := r.conns[x := if new_ then Conn(Initiated, r.issued, 0, false, true)
                                             else Conn(InUse, r.issued, r.conns[x].reqCount + 1, false, r.conns[x].connecting)],
                       available := if new_ then r.available else r.available[1..],
                       connections := if new_ then r.connections + [spare] else r.connections)
  {
    hide Connect;
    assert r.available != [] ==> r.available[0] in r.available;
    ConnectOutcome(r.(queue := r.queue[1..]), r.queue[0], spare);
  }

  // ---- A connection answers -------------------------------------------------------------------------------

  /** A connection that comes about serves its request from then on, and counts it; without one it is ready. */
  lemma ConnectionIsThere<I, C>(s: Sched<I, C>, c: C)
    requires Inv(s) && Enabled(s, NetConnect(c))
    ensures var t, k := Step(s, NetConnect(c)), s.conns[c];
            t == s.(conns := s.conns[c := if k.requestId in s.mapped then Conn(InUse, k.requestId, k.reqCount + 1, k.readEnable, false)
                                          else Conn(Ready, k.requestId, k.reqCount, k.readEnable, false)])
  {
  }

  /** When the request has been sent, the connection notes it, and nothing else changes. */
  lemma RequestIsSent<I, C>(s: Sched<I, C>, id: nat)
    requires Inv(s) && Enabled(s, RequestWritten(id))
    ensures var t, c := Step(s, RequestWritten(id)), s.mapped[id].1;
            c in s.conns && t == s.(conns := s.conns[c := Conn(s.conns[c].state, s.conns[c].requestId, s.conns[c].reqCount, true, s.conns[c].connecting)])
  {
  }

  /** A connection that breaks behind its request takes the request with it, and so does any that fails with an
      error; the place in the pool is free, and nobody moves up. One without a request just goes. */
  lemma BrokenConnection<I, C>(s: Sched<I, C>, e: Event<I, C>)
    requires Inv(s) && Enabled(s, e) && (e.NetError? || e.Eos? || e.ConnectFailed?)
    requires e.NetError? || (e.Eos? && s.conns[e.c].readEnable) || s.conns[e.c].requestId !in s.mapped
    ensures var t, id, h := Step(s, e), s.conns[e.c].requestId, s.history;
            && Lacks(t.connections, s.connections, e.c) && Lacks(t.available, s.available, e.c)
            && t == s.(mapped := s.mapped - {id}, conns := s.conns - {e.c}, connections := t.connections, available := t.available,
                       history := if id in s.mapped then h.(failed := h.failed + {s.mapped[id].0}) else h)
  {
    WithoutLacks(s.connections, e.c);
    WithoutLacks(s.available, e.c);
    hide Without, Lacks;
    Rewritten(s.conns, e.c, s.conns[e.c].(state := Closed), s.conns[e.c]);
  }

  lemma MovedStep<I, C>(s: Sched<I, C>, e: Event<I, C>)
    requires Inv(s) && Enabled(s, e) && (e.ConnectFailed? || (e.Eos? && !s.conns[e.c].readEnable))
    ensures Step(s, e) == ConnectionClosed(SetState(ReConnect(s, s.conns[e.c].requestId, e.spare), e.c, Closed), e.c)
  {
    hide ConnectionClosed, ReConnect;
  }

  lemma ClosedOutcome<I, C>(r: Sched<I, C>, c: C)
    requires NoDuplicates(r.connections) && c !in r.available && c in r.conns && r.conns[c].requestId !in r.mapped
    ensures var t := ConnectionClosed(SetState(r, c, Closed), c);
            Lacks(t.connections, r.connections, c) && t == r.(conns := r.conns - {c}, connections := t.connections)
  {
    NotThere(r.available, c);
    WithoutLacks(r.connections, c);
    hide Without, Lacks;
    Rewritten(r.conns, c, r.conns[c].(state := Closed), r.conns[c]);
    assert r.mapped - {r.conns[c].requestId} == r.mapped;
  }

  lemma ReConnectOutcome<I, C>(s: Sched<I, C>, id: nat, spare: C)
    requires Inv(s) && id in s.mapped && spare !in s.conns && s.issued < 0x1_0000_0000
    ensures var t, h := ReConnect(s, id, spare), s.history;
            var i, gone := s.mapped[id].0, s.mapped - {id};
            if |s.connections| < s.limits.maxConn then
              t == s.(issued := s.issued + 1, ids := s.ids[i := s.issued], mapped := gone[s.issued := (i, spare)], connections := s.connections + [spare],
                      conns := s.conns[spare := Conn(Initiated, s.issued, 0, false, true)], history := h.(started := h.started + [i]))
            else if s.available != [] then
              var x := s.available[0];
              && x in s.conns && x != s.mapped[id].1
              && t == s.(issued := s.issued + 1, ids := s.ids[i := s.issued], mapped := gone[s.issued := (i, x)], available := s.available[1..],
                         conns := s.conns[x := Conn(InUse, s.issued, s.conns[x].reqCount + 1, false, s.conns[x].connecting)],
                         history := h.(started := h.started + [i]))
            else
              t == s.(mapped := gone,
                      queue := if |s.queue| < s.limits.queueSize then s.queue + [i] else s.queue,
                      history := if |s.queue| < s.limits.queueSize then h else h.(dropped := h.dropped + {i}))
  {
    hide Connect;
    if s.available != [] { assert s.available[0] in s.available; }
    ConnectOutcome(s.(mapped := s.mapped - {id}), s.mapped[id].0, spare);
  }

  lemma MovedLives<I, C>(s: Sched<I, C>, id: nat, c: C, spare: C)
    requires Inv(s) && id in s.mapped && s.mapped[id].1 == c && spare !in s.conns && s.issued < 0x1_0000_0000
    ensures var r := ReConnect(s, id, spare);
            NoDuplicates(r.connections) && c !in r.available && c in r.conns && r.conns[c].requestId == id && id !in r.mapped && r.conns[c] == s.conns[c]
  {
    hide ReConnect;
    ReConnectOutcome(s, id, spare);
    ElementsOf(s.connections, spare);
    assert spare !in s.connections by { assert spare !in Elements(s.connections); }
  }

  /** A connection that fails or breaks before its request was sent goes, and its request is connected anew while
      the connection still has its place in the pool: on a new one below the limit, on the one free for longest at
      it; without one it waits, last of all, or is dropped if the queue is full. */
  lemma MovedRequest<I, C>(s: Sched<I, C>, e: Event<I, C>)
    requires Inv(s) && Enabled(s, e) && (e.ConnectFailed? || (e.Eos? && !s.conns[e.c].readEnable)) && s.issued < 0x1_0000_0000
    requires s.conns[e.c].requestId in s.mapped
    ensures var t, id, h := Step(s, e), s.conns[e.c].requestId, s.history;
            var i, gone := s.mapped[id].0, s.mapped - {id};
            if |s.connections| < s.limits.maxConn then
              && Lacks(t.connections, s.connections + [e.spare], e.c)
              && t == s.(issued := s.issued + 1, ids := s.ids[i := s.issued], mapped := gone[s.issued := (i, e.spare)], connections := t.connections,
                         conns := s.conns[e.spare := Conn(Initiated, s.issued, 0, false, true)] - {e.c}, history := h.(started := h.started + [i]))
            else if s.available != [] then
              var x := s.available[0];
              && x in s.conns && x != e.c && Lacks(t.connections, s.connections, e.c)
              && t == s.(issued := s.issued + 1, ids := s.ids[i := s.issued], mapped := gone[s.issued := (i, x)], connections := t.connections, available := s.available[1..],
                         conns := s.conns[x := Conn(InUse, s.issued, s.conns[x].reqCount + 1, false, s.conns[x].connecting)] - {e.c},
                         history := h.(started := h.started + [i]))
            else
              && Lacks(t.connections, s.connections, e.c)
              && t == s.(mapped := gone, conns := s.conns - {e.c}, connections := t.connections,
                         queue := if |s.queue| < s.limits.queueSize then s.queue + [i] else s.queue,
                         history := if |s.queue| < s.limits.queueSize then h else h.(dropped := h.dropped + {i}))
  {
    hide Lacks, Without;
    var r, id := ReConnect(s, s.conns[e.c].requestId, e.spare), s.conns[e.c].requestId;
    Carries(s, e.c);
    MovedStep(s, e);
    MovedLives(s, id, e.c, e.spare);
    hide Step, Inv;
    ClosedOutcome(r, e.c);
    ReConnectOutcome(s, id, e.spare);
  }
}
