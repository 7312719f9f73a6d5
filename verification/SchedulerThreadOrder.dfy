/** In which order the threads start their requests, however they interleave. */
module SchedulerThreadOrder {
  import opened Wrappers
  import opened SchedulerSpec
  import opened SchedulerInvariants
  import opened SchedulerOrder
  import opened SchedulerThreads
  import opened SchedulerSections
  import opened SchedulerReduction
  import opened SchedulerEvents
  import M = SchedulerMachine

  // ---- What a thread submits and starts, read off the moves -----------------------------------------------

  function Submissions<I, C>(es: seq<Event<I, C>>): seq<I> {
    if es == [] then [] else (if es[0].Submit? then [es[0].i] else []) + Submissions(es[1..])
  }

  /** The intercepts that thread `t` enters in the map with a connection, in order. */
  function Entered<I, C>(m: M.Machine<I, C>, moves: seq<M.Move<I, C>>, t: nat): seq<I>
    requires M.Possible(m, moves) && t < |m.threads|
    decreases |moves|
  {
    if moves == [] then []
    else
      (if moves[0].Go? && moves[0].t == t && m.threads[t].task.Inserting? then [m.threads[t].task.i] else []) +
      Entered(M.Step(m, moves[0]), moves[1..], t)
  }

  /** Those of `s` that are in `keep`. */
  function Kept<I(==)>(s: seq<I>, keep: set<I>): seq<I> {
    if s == [] then [] else (if s[0] in keep then [s[0]] else []) + Kept(s[1..], keep)
  }

  lemma ActStarts<I, C>(limits: Limits, th: Thread<I, C>, sh: Shared<I, C>, spare: C)
    ensures Act(limits, th, sh, spare).0.started == th.started + if th.task.Inserting? then [th.task.i] else []
  {
  }

  lemma BeginStarts<I, C>(th: Thread<I, C>, sh: Shared<I, C>, e: Event<I, C>)
    ensures Begin(th, sh, e).started == th.started
  {
  }

  lemma StartedNow<I, C>(m: M.Machine<I, C>, move: M.Move<I, C>, t: nat)
    requires M.Allowed(m, move) && t < |m.threads|
    ensures |M.Step(m, move).threads| == |m.threads|
    ensures M.Step(m, move).threads[t].started ==
            m.threads[t].started + if move.Go? && move.t == t && m.threads[t].task.Inserting? then [m.threads[t].task.i] else []
  {
    hide M.Allowed, Act, Begin;
    SameThreads(m, move);
    match move
    case Start(u, e) => BeginStarts(m.threads[u], m.shared, e);
    case Go(u, spare) => ActStarts(m.limits, m.threads[u], m.shared, spare);
  }

  /** A thread's own list of those started is what the moves say. */
  lemma {:induction false} StartedAreEntered<I, C>(m: M.Machine<I, C>, moves: seq<M.Move<I, C>>, t: nat)
    requires M.Possible(m, moves) && t < |m.threads|
    ensures M.Run(m, moves).threads[t].started == m.threads[t].started + Entered(m, moves, t)
    decreases |moves|
  {
    hide M.Allowed, M.Step;
    if moves != [] {
      SameThreads(m, moves[0]);
      var n := M.Step(m, moves[0]);
      StartedNow(m, moves[0], t);
      StartedAreEntered(n, moves[1..], t);
      var now := if moves[0].Go? && moves[0].t == t && m.threads[t].task.Inserting? then [m.threads[t].task.i] else [];
      assert m.threads[t].started + now + Entered(n, moves[1..], t) == m.threads[t].started + (now + Entered(n, moves[1..], t));
    }
  }

  lemma {:induction false} SubmissionsConcat<I, C>(a: seq<Event<I, C>>, b: seq<Event<I, C>>)
    ensures Submissions(a + b) == Submissions(a) + Submissions(b)
    decreases |a|
  {
    if a == [] {
      assert a + b == b;
    } else {
      assert (a + b)[1..] == a[1..] + b && (a + b)[0] == a[0];
      SubmissionsConcat(a[1..], b);
      var now := if a[0].Submit? then [a[0].i] else [];
      assert now + (Submissions(a[1..]) + Submissions(b)) == now + Submissions(a[1..]) + Submissions(b);
    }
  }

  lemma {:induction false} SameSubmissions<I, C>(a: seq<Event<I, C>>, b: seq<Event<I, C>>)
    requires SameEvents(a, b)
    ensures Submissions(a) == Submissions(b)
    decreases |a|
  {
    if a != [] {
      assert SameEvent(a[0], b[0]);
      forall k | 0 <= k < |a[1..]| ensures SameEvent(a[1..][k], b[1..][k]) { assert SameEvent(a[k + 1], b[k + 1]); }
      SameSubmissions(a[1..], b[1..]);
    }
  }

  // ---- Accepted in the order of submission ----------------------------------------------------------------

  lemma {:induction false} KeptSnoc<I>(s: seq<I>, i: I, keep: set<I>, more: set<I>)
    requires i !in s && (more == keep || more == keep + {i}) && i !in keep
    ensures Kept(s + [i], more) == Kept(s, keep) + if i in more then [i] else []
    decreases |s|
  {
    if s == [] {
      assert s + [i] == [i] && [i][1..] == [];
      assert Kept([i][1..], more) == [];
    } else {
      assert (s + [i])[1..] == s[1..] + [i] && (s + [i])[0] == s[0];
      KeptSnoc(s[1..], i, keep, more);
    }
  }

  /** `subs` are the submitted intercepts in order; the accepted are those of them that were not dropped on
      arrival, in the same order. */
  ghost predicate InOrder<I, C>(s: Sched<I, C>, subs: seq<I>) {
    && Elements(subs) == s.history.submitted
    && s.history.accepted == Kept(subs, Elements(s.history.accepted))
    && Elements(s.history.accepted) <= s.history.submitted
    && s.history.dropped <= s.history.submitted
    && forall i :: i in subs ==> i in s.history.accepted || i in s.history.dropped
  }

  /** No event but a submission touches the lists, and what is dropped stays dropped. */
  lemma StepSubmits<I, C>(s: Sched<I, C>, e: Event<I, C>)
    requires Inv(s) && Enabled(s, e) && s.issued < ID_SPACE
    ensures s.history.dropped <= Step(s, e).history.dropped <= Step(s, e).history.submitted
    ensures !e.Submit? ==> Step(s, e).history.submitted == s.history.submitted && Step(s, e).history.accepted == s.history.accepted
    ensures e.Submit? ==> Step(s, e).history.submitted == s.history.submitted + {e.i}
    ensures e.Submit? ==> Step(s, e).history.accepted == s.history.accepted + if e.i in Step(s, e).history.dropped then [] else [e.i]
  {
    hide Inv, Connect, RemoveIntercept, ReConnect;
    StepKeeps(s, e);
    DroppedAreSubmitted(Step(s, e));
    match e
    case Submit(i, spare) => ConnectHistory(Submitted(s, i), i, spare);
    case ConnectFailed(c, spare) => ReConnectHistory(s, Fields(s, c).requestId, spare);
    case ResponseDone(c, spare) => RemoveHistory(SetState(s, c, Complete), Fields(s, c).requestId, spare);
    case Abort(id, spare) => RemoveHistory(s, id, spare);
    case Eos(c, spare) => ReConnectHistory(s, Fields(s, c).requestId, spare);
    case _ =>
  }

  lemma DroppedAreSubmitted<I, C>(s: Sched<I, C>)
    requires Inv(s)
    ensures s.history.dropped <= s.history.submitted
  {
  }

  lemma ConnectHistory<I, C>(s: Sched<I, C>, i: I, spare: C)
    ensures var h, h1 := s.history, Connect(s, i, spare).history;
            h1.submitted == h.submitted && h1.accepted == h.accepted && h.dropped <= h1.dropped
  {
  }

  lemma ReConnectHistory<I, C>(s: Sched<I, C>, id: nat, spare: C)
    ensures var h, h1 := s.history, ReConnect(s, id, spare).history;
            h1.submitted == h.submitted && h1.accepted == h.accepted && h.dropped <= h1.dropped
  {
  }

  lemma RemoveHistory<I, C>(s: Sched<I, C>, id: nat, spare: C)
    ensures var h, h1 := s.history, RemoveIntercept(s, id, spare).history;
            h1.submitted == h.submitted && h1.accepted == h.accepted && h.dropped <= h1.dropped
  {
    hide Connect;
    if id in s.mapped {
      var t := Release(s, id);
      assert t.history.submitted == s.history.submitted && t.history.accepted == s.history.accepted && t.history.dropped == s.history.dropped;
      if t.queue != [] { ConnectHistory(t.(queue := t.queue[1..]), t.queue[0], spare); }
    }
  }

  lemma StepInOrder<I, C>(s: Sched<I, C>, subs: seq<I>, e: Event<I, C>)
    requires Inv(s) && Enabled(s, e) && s.issued < ID_SPACE && InOrder(s, subs)
    ensures InOrder(Step(s, e), subs + Submissions([e]))
  {
    hide Inv, Step, Kept;
    StepSubmits(s, e);
    assert [e][1..] == [];
    assert Submissions([e]) == if e.Submit? then [e.i] else [];
    if e.Submit? {
      SubmittedInOrder(s.history, Step(s, e).history, subs, e.i);
    } else {
      assert subs + [] == subs;
    }
  }

  lemma SubmittedInOrder<I>(h: History<I>, h1: History<I>, subs: seq<I>, i: I)
    requires Elements(subs) == h.submitted && h.accepted == Kept(subs, Elements(h.accepted)) && Elements(h.accepted) <= h.submitted
    requires i !in h.submitted && h1.submitted == h.submitted + {i} && h.dropped <= h1.dropped <= h1.submitted
    requires h1.accepted == h.accepted + if i in h1.dropped then [] else [i]
    requires forall x :: x in subs ==> x in h.accepted || x in h.dropped
    ensures Elements(subs + [i]) == h1.submitted && h1.accepted == Kept(subs + [i], Elements(h1.accepted))
    ensures Elements(h1.accepted) <= h1.submitted && forall x :: x in subs + [i] ==> x in h1.accepted || x in h1.dropped
  {
    hide Kept;
    assert i !in Elements(subs);
    ElementsOf(subs, i);
    ElementsOf(h.accepted, i);
    KeptSnoc(subs, i, Elements(h.accepted), Elements(h1.accepted));
  }

  lemma InvJumps<I, C>(s: Sched<I, C>, x: nat)
    requires Inv(s) && s.issued <= x <= ID_SPACE
    ensures Inv(s.(issued := x))
  {
    assert Mapped(s.(issued := x)) == Mapped(s);
  }

  /** A run with jumps of the counter keeps the invariants and the order of submission; and without broken
      connections it lets nobody overtake. */
  lemma {:induction false} JumpsKeepOrder<I, C>(s: Sched<I, C>, subs: seq<I>, jumps: seq<Jump<I, C>>)
    requires Inv(s) && InOrder(s, subs) && Real(s, jumps)
    ensures Inv(JumpRun(s, jumps)) && InOrder(JumpRun(s, jumps), subs + Submissions(Events(jumps)))
    ensures Fifo(s) && (forall e :: e in Events(jumps) ==> Regular(e)) ==> Fifo(JumpRun(s, jumps))
    decreases |jumps|
  {
    hide Inv, Step, Enabled, Fifo, InOrder, Regular;
    if jumps == [] {
      assert subs + [] == subs;
    } else {
      var j, s1 := jumps[0], s.(issued := jumps[0].x);
      var es := Events(jumps);
      assert es == [j.e] + Events(jumps[1..]);
      InvJumps(s, j.x);
      OrderJumps(s, subs, j.x);
      StepKeeps(s1, j.e);
      StepInOrder(s1, subs, j.e);
      JumpsKeepOrder(Step(s1, j.e), subs + Submissions([j.e]), jumps[1..]);
      SubmissionsConcat([j.e], Events(jumps[1..]));
      assert subs + Submissions([j.e]) + Submissions(Events(jumps[1..])) == subs + Submissions(es);
      if Fifo(s) && forall e :: e in es ==> Regular(e) {
        assert j.e in es;
        RegularStepKeepsOrder(s1, j.e);
        forall e | e in Events(jumps[1..]) ensures Regular(e) { assert e in es; }
      }
    }
  }

  lemma OrderJumps<I, C>(s: Sched<I, C>, subs: seq<I>, x: nat)
    ensures InOrder(s, subs) ==> InOrder(s.(issued := x), subs)
    ensures Fifo(s) ==> Fifo(s.(issued := x))
  {
  }

  // ---- Whole runs -----------------------------------------------------------------------------------------

  /** In every interleaving, a thread's accepted requests are those submitted to it, in the order of their
      submission, without those dropped on arrival. */
  lemma AcceptedInOrder<I, C(!new)>(limits: Limits, n: nat, moves: seq<M.Move<I, C>>, t: nat)
    requires M.Possible(M.Boot<I, C>(limits, n), moves) && t < n && NewObjects(moves, t, {})
    requires M.Run(M.Boot<I, C>(limits, n), moves).threads[t].task == Idle
    ensures var th, subs := M.Run(M.Boot<I, C>(limits, n), moves).threads[t], Submissions(Taken(moves, t));
            && th.accepted == Kept(subs, Elements(th.accepted)) && Elements(subs) == th.place.Keys
            && forall i :: i in subs ==> i in th.accepted || (i in th.place && th.place[i] == Discarded)
  {
    hide Inv, M.Run, M.Possible, NewObjects, Real, JumpRun, InOrder;
    var jumps := InterleavingAddsNothing<I, C>(limits, n, moves, t);
    InitHolds<I, C>(limits);
    InitInOrder<I, C>(limits);
    JumpsKeepOrder(Init<I, C>(limits), [], jumps);
    SameSubmissions(Events(jumps), Taken(moves, t));
    var subs := Submissions(Taken(moves, t));
    assert [] + subs == subs;
    InOrderMeans(JumpRun(Init<I, C>(limits), jumps), subs);
  }

  lemma InitInOrder<I, C>(limits: Limits)
    ensures InOrder(Init<I, C>(limits), []) && Fifo(Init<I, C>(limits))
  {
  }

  lemma InOrderMeans<I, C>(s: Sched<I, C>, subs: seq<I>)
    requires InOrder(s, subs)
    ensures s.history.accepted == Kept(subs, Elements(s.history.accepted)) && Elements(subs) == s.history.submitted
    ensures forall i :: i in subs ==> i in s.history.accepted || i in s.history.dropped
  {
  }

  /** In every interleaving, a thread whose connections do not break lets nobody overtake: the requests it
      has entered in the map, in order, followed by those in its queue, are its accepted ones in order; and
      while some wait its pool is at the limit without a free connection. */
  lemma NobodyIsOvertaken<I, C(!new)>(limits: Limits, n: nat, moves: seq<M.Move<I, C>>, t: nat)
    requires M.Possible(M.Boot<I, C>(limits, n), moves) && t < n && NewObjects(moves, t, {})
    requires M.Run(M.Boot<I, C>(limits, n), moves).threads[t].task == Idle
    requires forall e :: e in Taken(moves, t) ==> Regular(e)
    ensures var m0 := M.Boot<I, C>(limits, n);
            var th := M.Run(m0, moves).threads[t];
            && Entered(m0, moves, t) + th.queue == th.accepted
            && (th.queue != [] ==> |th.connections| >= limits.maxConn && th.available == [])
  {
    hide Inv, M.Run, M.Possible, NewObjects, Real, JumpRun, InOrder, Regular, Entered;
    var m0 := M.Boot<I, C>(limits, n);
    var jumps := InterleavingAddsNothing<I, C>(limits, n, moves, t);
    InitHolds<I, C>(limits);
    InitInOrder<I, C>(limits);
    SameRegular(Events(jumps), Taken(moves, t));
    JumpsKeepOrder(Init<I, C>(limits), [], jumps);
    StartedAreEntered(m0, moves, t);
    assert [] + Entered(m0, moves, t) == Entered(m0, moves, t);
  }

  lemma SameRegular<I, C>(a: seq<Event<I, C>>, b: seq<Event<I, C>>)
    requires SameEvents(a, b) && forall e :: e in b ==> Regular(e)
    ensures forall e :: e in a ==> Regular(e)
  {
    forall e | e in a ensures Regular(e) {
      var k :| 0 <= k < |a| && a[k] == e;
      assert SameEvent(a[k], b[k]) && b[k] in b;
    }
  }

  // ---- Who waits and who is dropped -----------------------------------------------------------------------

  /** A thread with all its connections in use, idle or with a newcomer in hand. */
  ghost predicate Full<I, C>(limits: Limits, th: Thread<I, C>) {
    && |th.connections| == limits.maxConn && th.available == [] && |th.queue| <= limits.queueSize
    && !th.popping && th.closing == None
    && (th.task == Idle || (th.task.Connecting? && th.task.newcomer && th.task.i in th.place && th.place[th.task.i] == InHand))
  }

  /** The newcomer in hand is put in the queue, or dropped. */
  function Queues<I, C>(limits: Limits, th: Thread<I, C>): Thread<I, C>
    requires th.task.Connecting?
  {
    var i := th.task.i;
    if |th.queue| < limits.queueSize then th.(accepted := th.accepted + [i], queue := th.queue + [i], place := th.place[i := Queued], task := Idle)
    else th.(place := th.place[i := Discarded], task := Idle)
  }

  function Newcomers<I, C>(th: Thread<I, C>): seq<I> {
    if th.task.Connecting? then [th.task.i] else []
  }

  /** Of `news`, the first ones wait in their order, as many as the queue has places left; all others are dropped. */
  ghost predicate QueueTakes<I, C>(limits: Limits, th: Thread<I, C>, th1: Thread<I, C>, news: seq<I>)
    requires |th.queue| <= limits.queueSize
  {
    var k := Min(|news|, limits.queueSize - |th.queue|);
    && th1.queue == th.queue + news[..k] && th1.accepted == th.accepted + news[..k]
    && th1.started == th.started && th1.connections == th.connections && th1.available == th.available
    && (forall i :: i in news[k..] ==> i in th1.place && th1.place[i] == Discarded)
    && (forall i :: i in th.place && th.place[i] == Discarded ==> i in th1.place && th1.place[i] == Discarded)
  }

  lemma BeginFull<I, C>(limits: Limits, th: Thread<I, C>, sh: Shared<I, C>, e: Event<I, C>)
    requires Full(limits, th) && CanBegin(th, sh, e) && e.Submit?
    ensures Full(limits, Begin(th, sh, e)) && Newcomers(Begin(th, sh, e)) == Newcomers(th) + [e.i]
    ensures forall th1, news :: QueueTakes(limits, Begin(th, sh, e), th1, news) ==> QueueTakes(limits, th, th1, news)
  {
  }

  lemma ActFull<I, C>(limits: Limits, th: Thread<I, C>, sh: Shared<I, C>, spare: C)
    requires Full(limits, th)
    ensures Full(limits, Act(limits, th, sh, spare).0) && Newcomers(Act(limits, th, sh, spare).0) == []
    ensures th.task == Idle ==> Act(limits, th, sh, spare).0 == th
    ensures th.task.Connecting? ==> Act(limits, th, sh, spare).0 == Queues(limits, th)
  {
  }

  lemma ActWaits<I, C>(limits: Limits, th: Thread<I, C>, th0: Thread<I, C>, th1: Thread<I, C>, i: I, more: seq<I>)
    requires Full(limits, th) && th.task.Connecting? && th.task.i == i && |th.queue| < limits.queueSize
    requires th0 == th.(accepted := th.accepted + [i], queue := th.queue + [i], place := th.place[i := Queued], task := Idle)
    requires QueueTakes(limits, th0, th1, more)
    ensures QueueTakes(limits, th, th1, [i] + more)
  {
    var k := Min(1 + |more|, limits.queueSize - |th.queue|);
    OneMore(th.queue, i, more, k);
    OneMore(th.accepted, i, more, k);
    assert ([i] + more)[k..] == more[k - 1..];
  }

  lemma ActDiscards<I, C>(limits: Limits, th: Thread<I, C>, th0: Thread<I, C>, th1: Thread<I, C>, i: I, more: seq<I>)
    requires Full(limits, th) && th.task.Connecting? && th.task.i == i && |th.queue| == limits.queueSize
    requires th0 == th.(place := th.place[i := Discarded], task := Idle)
    requires QueueTakes(limits, th0, th1, more)
    ensures QueueTakes(limits, th, th1, [i] + more)
  {
    var news := [i] + more;
    assert news[..0] == more[..0] == [] && news[0..] == news && more[0..] == more;
    forall x | x in news ensures x == i || x in more {}
  }

  lemma NoneWaits<I, C>(limits: Limits, th: Thread<I, C>)
    requires |th.queue| <= limits.queueSize
    ensures QueueTakes(limits, th, th, [])
  {
    assert th.queue + [] == th.queue && th.accepted + [] == th.accepted;
  }

  lemma {:induction false} WaitInTurn<I, C(!new)>(m: M.Machine<I, C>, moves: seq<M.Move<I, C>>, t: nat)
    requires M.Possible(m, moves) && t < |m.threads| && Full(m.limits, m.threads[t])
    requires M.Run(m, moves).threads[t].task == Idle && forall e :: e in Taken(moves, t) ==> e.Submit?
    ensures QueueTakes(m.limits, m.threads[t], M.Run(m, moves).threads[t], Newcomers(m.threads[t]) + Submissions(Taken(moves, t)))
    decreases |moves|
  {
    hide QueueTakes, Act, Begin, M.Allowed;
    var th := m.threads[t];
    if moves == [] {
      assert Full(m.limits, th);
      NoneWaits(m.limits, th);
      assert Newcomers(th) + Submissions(Taken(moves, t)) == [];
    } else {
      SameThreads(m, moves[0]);
      var n, rest := M.Step(m, moves[0]), Taken(moves[1..], t);
      assert forall e :: e in rest ==> e in Taken(moves, t);
      match moves[0] {
        case Start(u, e) =>
          if u == t {
            assert e in Taken(moves, t);
            StartFull(m, t, e);
          }
          WaitInTurn(n, moves[1..], t);
          if u == t {
            assert Taken(moves, t) == [e] + rest;
            NewSubmission(e, rest, Newcomers(th));
            assert n == M.Step(m, M.Start(t, e));
            assert QueueTakes(m.limits, n.threads[t], M.Run(m, moves).threads[t], Newcomers(th) + [e.i] + Submissions(rest));
          } else {
            assert Taken(moves, t) == [] + rest == rest && n.threads[t] == th;
          }
        case Go(u, spare) =>
          assert Taken(moves, t) == [] + rest == rest;
          if u == t { ActFull(m.limits, th, m.shared, spare); }
          WaitInTurn(n, moves[1..], t);
          if u == t { ActedOn(m.limits, th, n.threads[t], M.Run(m, moves).threads[t], Submissions(rest)); }
      }
    }
  }

  lemma StartFull<I, C>(m: M.Machine<I, C>, t: nat, e: Event<I, C>)
    requires M.Allowed(m, M.Start(t, e)) && Full(m.limits, m.threads[t]) && e.Submit?
    ensures var th := M.Step(m, M.Start(t, e)).threads[t];
            Full(m.limits, th) && Newcomers(th) == Newcomers(m.threads[t]) + [e.i]
    ensures forall th1, news :: QueueTakes(m.limits, M.Step(m, M.Start(t, e)).threads[t], th1, news) ==> QueueTakes(m.limits, m.threads[t], th1, news)
  {
    hide QueueTakes;
    BeginFull(m.limits, m.threads[t], m.shared, e);
  }

  lemma NewSubmission<I, C>(e: Event<I, C>, rest: seq<Event<I, C>>, hand: seq<I>)
    requires e.Submit?
    ensures hand + Submissions([e] + rest) == hand + [e.i] + Submissions(rest)
  {
    assert ([e] + rest)[1..] == rest;
  }

  lemma ActedOn<I, C>(limits: Limits, th: Thread<I, C>, th0: Thread<I, C>, th1: Thread<I, C>, more: seq<I>)
    requires Full(limits, th) && |th0.queue| <= limits.queueSize && QueueTakes(limits, th0, th1, [] + more)
    requires th.task == Idle ==> th0 == th
    requires th.task.Connecting? ==> th0 == Queues(limits, th)
    ensures QueueTakes(limits, th, th1, Newcomers(th) + more)
  {
    hide QueueTakes;
    assert [] + more == more;
    if th.task.Connecting? {
      if |th.queue| < limits.queueSize { ActWaits(limits, th, th0, th1, th.task.i, more); } else { ActDiscards(limits, th, th0, th1, th.task.i, more); }
    }
  }

  /** While all of a thread's connections stay in use, exactly the first of the requests submitted to it wait, in
      their order, as many as fit its queue, however the other threads come between; all later ones are dropped. */
  lemma FirstOnesWaitInThreads<I, C(!new)>(m: M.Machine<I, C>, moves: seq<M.Move<I, C>>, t: nat)
    requires M.Inv(m) && M.Possible(m, moves) && t < |m.threads| && m.threads[t].task == Idle
    requires |m.threads[t].connections| == m.limits.maxConn && m.threads[t].available == []
    requires M.Run(m, moves).threads[t].task == Idle && forall e :: e in Taken(moves, t) ==> e.Submit?
    ensures |m.threads[t].queue| <= m.limits.queueSize
    ensures QueueTakes(m.limits, m.threads[t], M.Run(m, moves).threads[t], Submissions(Taken(moves, t)))
  {
    hide QueueTakes, M.Possible, M.Run;
    QueueFits(m, t);
    M.IdleIsBare(m, t);
    hide M.Inv;
    WaitInTurn(m, moves, t);
    assert [] + Submissions(Taken(moves, t)) == Submissions(Taken(moves, t));
  }

  lemma QueueFits<I, C>(m: M.Machine<I, C>, t: nat)
    requires M.Inv(m) && t < |m.threads|
    ensures |m.threads[t].queue| <= m.limits.queueSize
  {
    hide Free, Ids, Roles, Partition, Places, M.Apart;
    assert M.ThreadOk(m.limits, m.threads[t], m.shared, m.issuedBy, t);
  }
}
