/** Any number of threads, their sections in any order: what holds of the shared counter and map. */
module SchedulerMachine {
  import opened Wrappers
  import opened SchedulerSpec
  import opened SchedulerInvariants
  import opened SchedulerThreads

  /** `issuedBy` remembers which thread drew an id. */
  datatype Machine<I(==), C(==)> = Machine(limits: Limits, shared: Shared<I, C>, threads: seq<Thread<I, C>>, issuedBy: map<nat, nat>)

  datatype Move<I, C> = Start(t: nat, e: Event<I, C>) | Go(t: nat, spare: C)

  function NewThread<I, C>(): Thread<I, C> {
    Thread(map[], [], [], [], map[], map[], [], [], Idle, false, None)
  }

  function Threads<I, C>(n: nat): (ts: seq<Thread<I, C>>)
    ensures |ts| == n && forall t :: 0 <= t < n ==> ts[t] == NewThread()
  {
    if n == 0 then [] else Threads(n - 1) + [NewThread()]
  }

  function Boot<I, C>(limits: Limits, n: nat): Machine<I, C> {
    Machine(limits, Shared(1, map[]), Threads(n), map[])
  }

  function Step<I, C>(m: Machine<I, C>, move: Move<I, C>): Machine<I, C>
    requires move.t < |m.threads|
  {
    match move
    case Start(t, e) => m.(threads := m.threads[t := Begin(m.threads[t], m.shared, e)])
    case Go(t, spare) =>
      var (th, sh) := Act(m.limits, m.threads[t], m.shared, spare);
      Machine(m.limits, sh, m.threads[t := th], Drawn(m, t))
  }

  function Drawn<I, C>(m: Machine<I, C>, t: nat): map<nat, nat>
    requires t < |m.threads|
  {
    if m.threads[t].task.Numbering? then m.issuedBy[m.shared.next % ID_SPACE := t] else m.issuedBy
  }

  /** Did the thread draw this id? Zero stands for none. */
  predicate Knows(issuedBy: map<nat, nat>, t: nat, id: nat) {
    id == 0 || (id in issuedBy && issuedBy[id] == t)
  }

  predicate Unused<I, C>(m: Machine<I, C>, spare: C) {
    forall t :: 0 <= t < |m.threads| ==> spare !in m.threads[t].conns
  }

  /** What the environment may do, with the work on an intercept and its connection on the thread that made
      the connection; and before the counter wraps. */
  predicate Allowed<I, C>(m: Machine<I, C>, move: Move<I, C>) {
    && move.t < |m.threads| && m.shared.next < ID_SPACE
    && match move
       case Start(t, e) =>
         && CanBegin(m.threads[t], m.shared, e)
         && (e.Submit? ==> forall u :: 0 <= u < |m.threads| ==> e.i !in m.threads[u].place)
         && (e.Abort? || e.RequestWritten? ==> Knows(m.issuedBy, t, e.id))
       case Go(t, spare) => Unused(m, spare)
  }

  function Run<I, C>(m: Machine<I, C>, moves: seq<Move<I, C>>): (r: Machine<I, C>)
    requires Possible(m, moves)
    ensures |r.threads| == |m.threads| && r.limits == m.limits
    decreases |moves|
  {
    if moves == [] then m else Run(Step(m, moves[0]), moves[1..])
  }

  predicate Possible<I, C>(m: Machine<I, C>, moves: seq<Move<I, C>>)
    decreases |moves|
  {
    moves == [] || (Allowed(m, moves[0]) && Possible(Step(m, moves[0]), moves[1..]))
  }

  // ---- What all threads keep ------------------------------------------------------------------------------

  /** The part of the map whose ids a thread has drawn. */
  function Mine<I, C>(mapped: map<nat, (I, C)>, issuedBy: map<nat, nat>, t: nat): map<nat, (I, C)> {
    map id | id in mapped && id in issuedBy && issuedBy[id] == t :: mapped[id]
  }

  function View<I, C>(sh: Shared<I, C>, issuedBy: map<nat, nat>, t: nat): Shared<I, C> {
    sh.(mapped := Mine(sh.mapped, issuedBy, t))
  }

  /** Every id a thread works with is its own. */
  ghost predicate OwnIds<I, C>(th: Thread<I, C>, issuedBy: map<nat, nat>, t: nat) {
    && (forall c :: c in th.conns ==> Knows(issuedBy, t, th.conns[c].requestId))
    && (th.task.Erasing? || th.task.Finding? || th.task.Forgetting? || th.task.Inserting? ==> Knows(issuedBy, t, th.task.id))
  }

  /** The ids drawn are those below the counter, each by one thread. */
  ghost predicate Drawings(next: nat, issuedBy: map<nat, nat>, threads: nat) {
    && (forall id :: id in issuedBy <==> 0 < id < next)
    && forall id :: id in issuedBy ==> issuedBy[id] < threads
  }

  ghost predicate ThreadOk<I, C>(limits: Limits, th: Thread<I, C>, sh: Shared<I, C>, issuedBy: map<nat, nat>, t: nat) {
    Local(limits, th, View(sh, issuedBy, t)) && OwnIds(th, issuedBy, t)
  }

  /** No object belongs to two threads. */
  ghost predicate Apart<I, C>(a: Thread<I, C>, b: Thread<I, C>) {
    a.conns.Keys !! b.conns.Keys && a.place.Keys !! b.place.Keys
  }

  ghost predicate Inv<I, C>(m: Machine<I, C>) {
    && Drawings(m.shared.next, m.issuedBy, |m.threads|)
    && (forall id :: id in m.shared.mapped ==> id in m.issuedBy)
    && (forall t :: 0 <= t < |m.threads| ==> ThreadOk(m.limits, m.threads[t], m.shared, m.issuedBy, t))
    && forall t, u :: 0 <= t < u < |m.threads| ==> Apart(m.threads[t], m.threads[u])
  }

  // ---- One move -------------------------------------------------------------------------------------------

  lemma MineInsert<I, C>(mapped: map<nat, (I, C)>, issuedBy: map<nat, nat>, t: nat, id: nat, x: (I, C))
    requires id in issuedBy && issuedBy[id] == t
    ensures Mine(mapped[id := x], issuedBy, t) == Mine(mapped, issuedBy, t)[id := x]
    ensures forall u :: u != t ==> Mine(mapped[id := x], issuedBy, u) == Mine(mapped, issuedBy, u)
  {
  }

  lemma MineErase<I, C>(mapped: map<nat, (I, C)>, issuedBy: map<nat, nat>, t: nat, id: nat)
    requires Knows(issuedBy, t, id) && 0 !in issuedBy
    ensures Mine(mapped - {id}, issuedBy, t) == Mine(mapped, issuedBy, t) - {id}
    ensures forall u :: u != t ==> Mine(mapped - {id}, issuedBy, u) == Mine(mapped, issuedBy, u)
  {
  }

  lemma MineLooksUp<I, C>(mapped: map<nat, (I, C)>, issuedBy: map<nat, nat>, t: nat, id: nat)
    requires Knows(issuedBy, t, id) && 0 !in issuedBy && forall k :: k in mapped ==> k in issuedBy
    ensures id in mapped <==> id in Mine(mapped, issuedBy, t)
    ensures id in mapped ==> Mine(mapped, issuedBy, t)[id] == mapped[id]
  {
  }

  /** The id a section looks up or changes in the map. */
  function Touched<I, C>(th: Thread<I, C>): Option<nat> {
    match th.task
    case Inserting(_, _, id) => Some(id)
    case Erasing(id) => Some(id)
    case Closing(c) => Some(Fld(th, c).requestId)
    case Finding(id) => Some(id)
    case Forgetting(id, _) => Some(id)
    case _ => None
  }

  /** A section does with the whole map what it would do with the thread's part of it, and leaves the parts
      of the others alone. */
  lemma ActIsLocal<I, C>(limits: Limits, th: Thread<I, C>, sh: Shared<I, C>, spare: C, issuedBy: map<nat, nat>, t: nat)
    requires 0 !in issuedBy && forall id :: id in sh.mapped ==> id in issuedBy
    requires Touched(th).Some? ==> Knows(issuedBy, t, Touched(th).value)
    requires th.task.Inserting? ==> th.task.id != 0
    ensures var (th1, sh1) := Act(limits, th, sh, spare);
            && Act(limits, th, View(sh, issuedBy, t), spare) == (th1, View(sh1, issuedBy, t))
            && (forall u :: u != t ==> Mine(sh1.mapped, issuedBy, u) == Mine(sh.mapped, issuedBy, u))
            && (forall id :: id in sh1.mapped ==> id in issuedBy)
            && sh1.next == sh.next + if th.task.Numbering? then 1 else 0
  {
    hide Mine, ActConnecting, ActReleasing, ActDropping, ActPopping, Then;
    if Touched(th).Some? {
      var id := Touched(th).value;
      MineErase(sh.mapped, issuedBy, t, id);
      MineLooksUp(sh.mapped, issuedBy, t, id);
      if th.task.Inserting? { MineInsert(sh.mapped, issuedBy, t, id, (th.task.i, th.task.c)); }
    }
  }

  lemma BeginIsLocal<I, C>(th: Thread<I, C>, sh: Shared<I, C>, e: Event<I, C>, issuedBy: map<nat, nat>, t: nat)
    requires 0 !in issuedBy && forall id :: id in sh.mapped ==> id in issuedBy
    requires forall c :: c in th.conns ==> Knows(issuedBy, t, th.conns[c].requestId)
    requires e.Abort? || e.RequestWritten? ==> Knows(issuedBy, t, e.id)
    requires CanBegin(th, sh, e)
    ensures CanBegin(th, View(sh, issuedBy, t), e) && Begin(th, sh, e) == Begin(th, View(sh, issuedBy, t), e)
  {
    hide Mine;
    if e.RequestWritten? { MineLooksUp(sh.mapped, issuedBy, t, e.id); }
    if e.NetConnect? || e.ResponseDone? { MineLooksUp(sh.mapped, issuedBy, t, th.conns[e.c].requestId); }
  }

  /** Ids drawn later do not concern a thread at work. */
  lemma LaterNext<I, C>(limits: Limits, th: Thread<I, C>, next: nat, later: nat, mapped: map<nat, (I, C)>)
    requires Local(limits, th, Shared(next, mapped)) && next <= later <= ID_SPACE
    ensures Local(limits, th, Shared(later, mapped))
  {
    hide Lists, Free, Roles, Partition, Places;
  }

  lemma DrawingsStep(next: nat, issuedBy: map<nat, nat>, threads: nat, t: nat)
    requires Drawings(next, issuedBy, threads) && 0 < next && t < threads
    ensures Drawings(next + 1, issuedBy[next := t], threads)
  {
  }

  lemma MineDrawn<I, C>(mapped: map<nat, (I, C)>, issuedBy: map<nat, nat>, id: nat, t: nat)
    requires id !in mapped
    ensures forall u :: Mine(mapped, issuedBy[id := t], u) == Mine(mapped, issuedBy, u)
  {
  }

  lemma OwnIdsMore<I, C>(th: Thread<I, C>, issuedBy: map<nat, nat>, next: nat, t: nat, u: nat)
    requires next !in issuedBy && OwnIds(th, issuedBy, u)
    ensures OwnIds(th, issuedBy[next := t], u)
  {
  }

  /** The objects a section works on are the thread's. */
  ghost predicate AtHome<I, C>(th: Thread<I, C>, sh: Shared<I, C>) {
    && (Hand(th.task).Some? ==> Hand(th.task).value in th.place)
    && (th.task.Forgetting? ==> th.task.i in th.place)
    && (forall c :: c in Held(th.task) ==> c in th.conns)
    && (forall c :: c in th.available ==> c in th.conns)
    && (forall i :: i in th.queue ==> i in th.place)
    && forall id :: id in sh.mapped ==> sh.mapped[id].0 in th.place
  }

  lemma LocalAtHome<I, C>(limits: Limits, th: Thread<I, C>, sh: Shared<I, C>)
    requires Local(limits, th, sh)
    ensures AtHome(th, sh)
  {
    hide Free, Ids, Partition;
  }

  /** No object is new but the spare one. */
  ghost predicate SameObjects<I, C>(th: Thread<I, C>, th1: Thread<I, C>, spare: C) {
    th1.conns.Keys <= th.conns.Keys + {spare} && th1.place.Keys == th.place.Keys
  }

  lemma ConnectingObjects<I, C>(limits: Limits, th: Thread<I, C>, sh: Shared<I, C>, i: I, newcomer: bool, spare: C)
    requires AtHome(th, sh) && th.task == Connecting(i, newcomer)
    ensures SameObjects(th, ActConnecting(limits, th, i, newcomer, spare), spare)
  {
    if th.available != [] { assert th.available[0] in th.available; }
  }

  lemma ReleasingObjects<I, C>(limits: Limits, th: Thread<I, C>, sh: Shared<I, C>, c: C, spare: C)
    requires AtHome(th, sh) && th.task == Releasing(c)
    ensures SameObjects(th, ActReleasing(limits, th, c), spare)
  {
    assert c in Held(th.task);
  }

  lemma PoppingObjects<I, C>(th: Thread<I, C>, sh: Shared<I, C>, spare: C)
    requires AtHome(th, sh) && th.task == Popping
    ensures SameObjects(th, ActPopping(th), spare)
  {
    if th.queue != [] { assert th.queue[0] in th.queue; }
  }

  lemma ActObjects<I, C>(limits: Limits, th: Thread<I, C>, sh: Shared<I, C>, spare: C)
    requires AtHome(th, sh)
    ensures SameObjects(th, Act(limits, th, sh, spare).0, spare)
  {
    hide ActConnecting, ActReleasing, ActPopping;
    match th.task
    case Connecting(i, newcomer) => ConnectingObjects(limits, th, sh, i, newcomer, spare);
    case Releasing(c) => ReleasingObjects(limits, th, sh, c, spare);
    case Popping => PoppingObjects(th, sh, spare);
    case Numbering(_, c) => assert c in Held(th.task);
    case Inserting(_, c, _) => assert c in Held(th.task);
    case _ =>
  }

  lemma ThenOwnIds<I, C>(th: Thread<I, C>, issuedBy: map<nat, nat>, t: nat)
    requires forall c :: c in th.conns ==> Knows(issuedBy, t, th.conns[c].requestId)
    ensures OwnIds(Then(th), issuedBy, t)
  {
  }

  lemma ConnectingOwnIds<I, C>(limits: Limits, th: Thread<I, C>, i: I, newcomer: bool, spare: C, issuedBy: map<nat, nat>, t: nat)
    requires OwnIds(th, issuedBy, t)
    ensures OwnIds(ActConnecting(limits, th, i, newcomer, spare), issuedBy, t)
  {
    hide Then;
    ThenOwnIds(th.(place := th.place[i := Discarded]), issuedBy, t);
    ThenOwnIds(th.(accepted := Accepted(th, i, newcomer), queue := th.queue + [i], place := th.place[i := Queued]), issuedBy, t);
  }

  lemma ReleasingOwnIds<I, C>(limits: Limits, th: Thread<I, C>, c: C, issuedBy: map<nat, nat>, t: nat)
    requires OwnIds(th, issuedBy, t)
    ensures OwnIds(ActReleasing(limits, th, c), issuedBy, t)
  {
  }

  lemma ActOwnIds<I, C>(limits: Limits, th: Thread<I, C>, sh: Shared<I, C>, spare: C, issuedBy: map<nat, nat>, t: nat)
    requires OwnIds(th, issuedBy, t) && th.task != Idle && !th.task.Numbering?
    ensures OwnIds(Act(limits, th, sh, spare).0, issuedBy, t)
  {
    hide ActConnecting, ActReleasing, Then;
    match th.task
    case Connecting(i, newcomer) => ConnectingOwnIds(limits, th, i, newcomer, spare, issuedBy, t);
    case Inserting(i, c, id) => ThenOwnIds(th.(conns := th.conns[c := Fld(th, c).Start()], place := th.place[i := At(id)], started := th.started + [i]), issuedBy, t);
    case Releasing(c) => ReleasingOwnIds(limits, th, c, issuedBy, t);
    case Dropping(c) =>
      ThenOwnIds(th.(connections := Without(th.connections, c), available := Without(th.available, c), conns := th.conns - {c}), issuedBy, t);
    case _ => ThenOwnIds(th, issuedBy, t);
  }

  lemma NumberingOwnIds<I, C>(limits: Limits, th: Thread<I, C>, sh: Shared<I, C>, spare: C, issuedBy: map<nat, nat>, t: nat)
    requires OwnIds(th, issuedBy, t) && th.task.Numbering? && sh.next < ID_SPACE && sh.next !in issuedBy
    ensures OwnIds(Act(limits, th, sh, spare).0, issuedBy[sh.next := t], t)
  {
  }

  /** The thread whose section it is. */
  lemma GoKeepsOwn<I, C>(m: Machine<I, C>, t: nat, spare: C)
    requires Inv(m) && Allowed(m, Go(t, spare))
    ensures var n := Step(m, Go(t, spare)); ThreadOk(n.limits, n.threads[t], n.shared, n.issuedBy, t)
  {
    hide Local, Act, View, Apart;
    var th, sh := m.threads[t], m.shared;
    assert ThreadOk(m.limits, th, sh, m.issuedBy, t);
    TouchedIsKnown(m.limits, th, View(sh, m.issuedBy, t), m.issuedBy, t);
    ActIsLocal(m.limits, th, sh, spare, m.issuedBy, t);
    ViewNext(sh, m.issuedBy, t);
    ActKeeps(m.limits, th, View(sh, m.issuedBy, t), spare);
    var (th1, sh1) := Act(m.limits, th, sh, spare);
    if th.task == Idle {
      assert th1 == th by { IdleStays(m.limits, th, sh, spare); }
    } else if th.task.Numbering? {
      NumberingOwnIds(m.limits, th, sh, spare, m.issuedBy, t);
      MineDrawn(sh1.mapped, m.issuedBy, sh.next, t);
      ViewIs(sh1, m.issuedBy, m.issuedBy[sh.next := t], t);
    } else {
      ActOwnIds(m.limits, th, sh, spare, m.issuedBy, t);
    }
  }

  lemma IdleStays<I, C>(limits: Limits, th: Thread<I, C>, sh: Shared<I, C>, spare: C)
    requires th.task == Idle
    ensures Act(limits, th, sh, spare) == (th, sh)
  {
  }

  lemma ViewNext<I, C>(sh: Shared<I, C>, issuedBy: map<nat, nat>, t: nat)
    ensures View(sh, issuedBy, t).next == sh.next
  {
  }

  lemma ViewIs<I, C>(sh: Shared<I, C>, issuedBy: map<nat, nat>, more: map<nat, nat>, t: nat)
    requires Mine(sh.mapped, issuedBy, t) == Mine(sh.mapped, more, t)
    ensures View(sh, issuedBy, t) == View(sh, more, t)
  {
  }

  lemma TouchedIsKnown<I, C>(limits: Limits, th: Thread<I, C>, sh: Shared<I, C>, issuedBy: map<nat, nat>, t: nat)
    requires OwnIds(th, issuedBy, t) && Local(limits, th, sh)
    ensures Touched(th).Some? ==> Knows(issuedBy, t, Touched(th).value)
    ensures th.task.Inserting? ==> th.task.id != 0
  {
    hide Lists, Free, Ids, Roles, Partition, Places, Shape;
  }

  /** Another thread. */
  lemma GoKeepsOther<I, C>(m: Machine<I, C>, t: nat, spare: C, u: nat)
    requires Inv(m) && Allowed(m, Go(t, spare)) && u < |m.threads| && u != t
    ensures var n := Step(m, Go(t, spare)); ThreadOk(n.limits, n.threads[u], n.shared, n.issuedBy, u)
  {
    hide Local, Act, Apart, Mine;
    var th, sh := m.threads[t], m.shared;
    assert ThreadOk(m.limits, th, sh, m.issuedBy, t) && ThreadOk(m.limits, m.threads[u], sh, m.issuedBy, u);
    TouchedIsKnown(m.limits, th, View(sh, m.issuedBy, t), m.issuedBy, t);
    ActIsLocal(m.limits, th, sh, spare, m.issuedBy, t);
    var sh1 := Act(m.limits, th, sh, spare).1;
    LaterNext(m.limits, m.threads[u], sh.next, sh1.next, Mine(sh.mapped, m.issuedBy, u));
    if th.task.Numbering? {
      OwnIdsMore(m.threads[u], m.issuedBy, sh.next, t, u);
      MineDrawn(sh1.mapped, m.issuedBy, sh.next, t);
    }
  }

  lemma GoDraws<I, C>(m: Machine<I, C>, t: nat, spare: C)
    requires Inv(m) && Allowed(m, Go(t, spare))
    ensures var n := Step(m, Go(t, spare));
            Drawings(n.shared.next, n.issuedBy, |n.threads|) && forall id :: id in n.shared.mapped ==> id in n.issuedBy
  {
    hide Local, Act, Apart, Mine;
    var th, sh := m.threads[t], m.shared;
    assert ThreadOk(m.limits, th, sh, m.issuedBy, t);
    TouchedIsKnown(m.limits, th, View(sh, m.issuedBy, t), m.issuedBy, t);
    ActIsLocal(m.limits, th, sh, spare, m.issuedBy, t);
    NextIsPositive(m.limits, th, View(sh, m.issuedBy, t));
    if th.task.Numbering? { DrawingsStep(sh.next, m.issuedBy, |m.threads|, t); }
  }

  lemma NextIsPositive<I, C>(limits: Limits, th: Thread<I, C>, sh: Shared<I, C>)
    requires Local(limits, th, sh)
    ensures 0 < sh.next <= ID_SPACE
  {
  }

  lemma GoKeepsApart<I, C>(m: Machine<I, C>, t: nat, spare: C)
    requires Inv(m) && Allowed(m, Go(t, spare))
    ensures var n := Step(m, Go(t, spare)); forall u, w :: 0 <= u < w < |n.threads| ==> Apart(n.threads[u], n.threads[w])
  {
    hide Local, Act, View;
    var th, sh := m.threads[t], m.shared;
    assert ThreadOk(m.limits, th, sh, m.issuedBy, t);
    TouchedIsKnown(m.limits, th, View(sh, m.issuedBy, t), m.issuedBy, t);
    ActIsLocal(m.limits, th, sh, spare, m.issuedBy, t);
    LocalAtHome(m.limits, th, View(sh, m.issuedBy, t));
    ActObjects(m.limits, th, View(sh, m.issuedBy, t), spare);
  }

  lemma GoKeeps<I, C>(m: Machine<I, C>, t: nat, spare: C)
    requires Inv(m) && Allowed(m, Go(t, spare))
    ensures Inv(Step(m, Go(t, spare)))
  {
    hide ThreadOk, Apart, Drawings, Act, Drawn;
    GoDraws(m, t, spare);
    GoKeepsApart(m, t, spare);
    GoKeepsOwn(m, t, spare);
    forall u | 0 <= u < |m.threads| && u != t
      ensures var n := Step(m, Go(t, spare)); ThreadOk(n.limits, n.threads[u], n.shared, n.issuedBy, u)
    {
      GoKeepsOther(m, t, spare, u);
    }
  }

  lemma BeginObjects<I, C>(th: Thread<I, C>, sh: Shared<I, C>, e: Event<I, C>)
    requires CanBegin(th, sh, e) && forall id :: id in sh.mapped ==> sh.mapped[id].1 in th.conns
    ensures var th1 := Begin(th, sh, e);
            th1.conns.Keys == th.conns.Keys && th1.place.Keys == th.place.Keys + if e.Submit? then {e.i} else {}
  {
  }

  lemma BeginOwnIds<I, C>(th: Thread<I, C>, sh: Shared<I, C>, e: Event<I, C>, issuedBy: map<nat, nat>, t: nat)
    requires CanBegin(th, sh, e) && OwnIds(th, issuedBy, t) && forall id :: id in sh.mapped ==> sh.mapped[id].1 in th.conns
    requires e.Abort? ==> Knows(issuedBy, t, e.id)
    ensures OwnIds(Begin(th, sh, e), issuedBy, t)
  {
  }

  lemma StartKeeps<I, C>(m: Machine<I, C>, t: nat, e: Event<I, C>)
    requires Inv(m) && Allowed(m, Start(t, e))
    ensures Inv(Step(m, Start(t, e)))
  {
    hide Local, Begin, CanBegin, View, OwnIds;
    var th, v := m.threads[t], View(m.shared, m.issuedBy, t);
    assert ThreadOk(m.limits, th, m.shared, m.issuedBy, t);
    MappedIsNotFree(m.limits, th, v);
    OwnConnIds(th, m.issuedBy, t);
    BeginIsLocal(th, m.shared, e, m.issuedBy, t);
    BeginKeeps(m.limits, th, v, e);
    BeginObjects(th, v, e);
    BeginOwnIds(th, v, e, m.issuedBy, t);
  }

  lemma OwnConnIds<I, C>(th: Thread<I, C>, issuedBy: map<nat, nat>, t: nat)
    requires OwnIds(th, issuedBy, t)
    ensures forall c :: c in th.conns ==> Knows(issuedBy, t, th.conns[c].requestId)
  {
  }

  lemma BootHolds<I, C>(limits: Limits, n: nat)
    ensures Inv(Boot<I, C>(limits, n))
  {
    var m := Boot<I, C>(limits, n);
    forall t | 0 <= t < n ensures ThreadOk(m.limits, m.threads[t], m.shared, m.issuedBy, t) {
      NewThreadOk<I, C>(limits, m.shared, t);
    }
  }

  lemma NewThreadOk<I, C>(limits: Limits, sh: Shared<I, C>, t: nat)
    requires sh == Shared(1, map[])
    ensures ThreadOk(limits, NewThread(), sh, map[], t)
  {
    assert View(sh, map[], t) == sh;
  }

  lemma {:induction false} RunKeeps<I, C>(m: Machine<I, C>, moves: seq<Move<I, C>>)
    requires Inv(m) && Possible(m, moves)
    ensures Inv(Run(m, moves))
    decreases |moves|
  {
    hide Inv, Step;
    if moves != [] {
      match moves[0]
      case Start(t, e) => StartKeeps(m, t, e); RunKeeps(Step(m, moves[0]), moves[1..]);
      case Go(t, spare) => GoKeeps(m, t, spare); RunKeeps(Step(m, moves[0]), moves[1..]);
    }
  }

  /** Every interleaving of any number of threads keeps every thread's pool, queue, map entries and
      intercepts in order. */
  lemma EveryInterleaving<I, C>(limits: Limits, n: nat, moves: seq<Move<I, C>>)
    requires Possible(Boot<I, C>(limits, n), moves)
    ensures Inv(Run(Boot(limits, n), moves))
  {
    BootHolds<I, C>(limits, n);
    RunKeeps(Boot(limits, n), moves);
  }

  // ---- What follows ---------------------------------------------------------------------------------------

  lemma EntryAtHome<I, C>(m: Machine<I, C>, id: nat)
    requires Inv(m) && id in m.shared.mapped
    ensures id in m.issuedBy && m.issuedBy[id] < |m.threads|
    ensures var th := m.threads[m.issuedBy[id]];
            var (i, c) := m.shared.mapped[id];
            c in th.conns && th.conns[c].requestId == id && i in th.place && th.place[i] == At(id) && i in th.ids && th.ids[i] == id
  {
    hide Lists, Free, Roles, Partition, Apart;
    var t := m.issuedBy[id];
    assert ThreadOk(m.limits, m.threads[t], m.shared, m.issuedBy, t);
    assert id in Mine(m.shared.mapped, m.issuedBy, t);
  }

  /** However the threads interleave, no intercept and no connection is entered under two ids, and both
      sides of every entry carry its id. */
  lemma MapIsInjective<I, C>(m: Machine<I, C>, id: nat, other: nat)
    requires Inv(m) && id in m.shared.mapped && other in m.shared.mapped && id != other
    ensures m.shared.mapped[id].0 != m.shared.mapped[other].0 && m.shared.mapped[id].1 != m.shared.mapped[other].1
  {
    hide ThreadOk;
    EntryAtHome(m, id);
    EntryAtHome(m, other);
    var t, u := m.issuedBy[id], m.issuedBy[other];
    if t < u { assert Apart(m.threads[t], m.threads[u]); }
    if u < t { assert Apart(m.threads[u], m.threads[t]); }
  }

  /** Is the id in the map, or about to be entered? */
  ghost predicate Live<I, C>(m: Machine<I, C>, id: nat) {
    id in m.shared.mapped || exists t :: 0 <= t < |m.threads| && m.threads[t].task.Inserting? && m.threads[t].task.id == id
  }

  /** An id that has been drawn and is gone does not come back. */
  lemma GoneStaysGone<I, C>(m: Machine<I, C>, move: Move<I, C>, id: nat)
    requires Inv(m) && Allowed(m, move) && 0 < id < m.shared.next && !Live(m, id)
    ensures !Live(Step(m, move), id) && id < Step(m, move).shared.next
  {
    hide Inv, CanBegin, Act, Unused;
    var n, t := Step(m, move), move.t;
    if move.Go? {
      ActLive(m.limits, m.threads[t], m.shared, move.spare, id);
    } else {
      BeginLive(m.threads[t], m.shared, move.e);
    }
    forall u | 0 <= u < |n.threads| ensures !(n.threads[u].task.Inserting? && n.threads[u].task.id == id) {
      if u != t { assert n.threads[u] == m.threads[u]; }
    }
  }

  lemma BeginLive<I, C>(th: Thread<I, C>, sh: Shared<I, C>, e: Event<I, C>)
    requires CanBegin(th, sh, e)
    ensures !Begin(th, sh, e).task.Inserting?
  {
  }

  lemma ActLive<I, C>(limits: Limits, th: Thread<I, C>, sh: Shared<I, C>, spare: C, id: nat)
    requires sh.next < ID_SPACE && 0 < id < sh.next && id !in sh.mapped && !(th.task.Inserting? && th.task.id == id)
    ensures var (th1, sh1) := Act(limits, th, sh, spare);
            id !in sh1.mapped && sh.next <= sh1.next && !(th1.task.Inserting? && th1.task.id == id)
  {
  }

  /** So a request id is never used again, and removing an intercept a second time finds nothing, whatever
      happens in between. */
  lemma {:induction false} NeverReissued<I, C>(m: Machine<I, C>, moves: seq<Move<I, C>>, id: nat)
    requires Inv(m) && Possible(m, moves) && 0 < id < m.shared.next && !Live(m, id)
    ensures !Live(Run(m, moves), id) && id !in Run(m, moves).shared.mapped
    decreases |moves|
  {
    hide Inv, Step, Live;
    if moves == [] {
      LiveMapped(m, id);
    } else {
      GoneStaysGone(m, moves[0], id);
      assert Inv(Step(m, moves[0])) by {
        match moves[0]
        case Start(t, e) => StartKeeps(m, t, e);
        case Go(t, spare) => GoKeeps(m, t, spare);
      }
      NeverReissued(Step(m, moves[0]), moves[1..], id);
    }
  }

  lemma LiveMapped<I, C>(m: Machine<I, C>, id: nat)
    requires !Live(m, id)
    ensures id !in m.shared.mapped
  {
  }

  /** A move of one thread changes nothing another thread can see but the counter. */
  lemma Isolation<I, C>(m: Machine<I, C>, move: Move<I, C>, u: nat)
    requires Inv(m) && Allowed(m, move) && u < |m.threads| && u != move.t
    ensures var n := Step(m, move);
            && n.threads[u] == m.threads[u]
            && Mine(n.shared.mapped, n.issuedBy, u) == Mine(m.shared.mapped, m.issuedBy, u)
            && m.shared.next <= n.shared.next
  {
    hide Local, Act, Apart, Mine, Begin;
    if move.Go? {
      var t, th, sh := move.t, m.threads[move.t], m.shared;
      assert ThreadOk(m.limits, th, sh, m.issuedBy, t);
      TouchedIsKnown(m.limits, th, View(sh, m.issuedBy, t), m.issuedBy, t);
      ActIsLocal(m.limits, th, sh, move.spare, m.issuedBy, t);
      if th.task.Numbering? { MineDrawn(Act(m.limits, th, sh, move.spare).1.mapped, m.issuedBy, sh.next, t); }
    }
  }

  /** When a thread is between events, each of its connections is free or serves an intercept in the shared
      map, never both; it has no more of them than allowed; and its intercepts are queued, mapped or done. */
  lemma ThreadAtRest<I, C>(m: Machine<I, C>, t: nat)
    requires Inv(m) && t < |m.threads| && m.threads[t].task == Idle
    ensures var th := m.threads[t];
            && (forall c :: c in th.conns ==>
                 (c in th.available <==> !(th.conns[c].requestId in m.shared.mapped && m.shared.mapped[th.conns[c].requestId].1 == c)))
            && |th.connections| <= m.limits.maxConn && Elements(th.connections) == th.conns.Keys
            && forall i :: i in th.place ==> th.place[i] != InHand && (th.place[i] == Queued <==> i in th.queue)
  {
    hide Local, Apart;
    var th, v := m.threads[t], View(m.shared, m.issuedBy, t);
    assert ThreadOk(m.limits, th, m.shared, m.issuedBy, t);
    AtRest(m.limits, th, v);
    forall c | c in th.conns ensures th.conns[c].requestId in m.shared.mapped <==> th.conns[c].requestId in v.mapped {
      MineLooksUp(m.shared.mapped, m.issuedBy, t, th.conns[c].requestId);
    }
  }

  // ---- Aborts on the wrong thread -------------------------------------------------------------------------

  /** An abort that reaches a thread between events: the section that looks the id up keeps what all threads
      keep exactly if the id is no longer in the map or was drawn by that very thread. Otherwise the thread
      has the connection of another one in its hands, to put it into its own free list or to delete it. */
  lemma AbortElsewhere<I, C>(m: Machine<I, C>, u: nat, id: nat, spare: C)
    requires Inv(m) && u < |m.threads| && m.threads[u].task == Idle && m.shared.next < ID_SPACE && Unused(m, spare)
    ensures var m1 := Step(m, Start(u, Abort(id, spare)));
            Inv(Step(m1, Go(u, spare))) <==> id !in m.shared.mapped || m.issuedBy[id] == u
  {
    hide Inv, ThreadOk;
    var m1 := Step(m, Start(u, Abort(id, spare)));
    var m2 := Step(m1, Go(u, spare));
    IdleIsBare(m, u);
    if id !in m.shared.mapped {
      assert m2 == m;
    } else {
      EntryAtHome(m, id);
      if m.issuedBy[id] == u {
        StartKeeps(m, u, Abort(id, spare));
        GoKeeps(m1, u, spare);
      } else {
        ForeignConnection(m, u, id, m2);
      }
    }
  }

  lemma IdleIsBare<I, C>(m: Machine<I, C>, u: nat)
    requires Inv(m) && u < |m.threads| && m.threads[u].task == Idle
    ensures m.threads[u].closing == None && !m.threads[u].popping
  {
    hide Lists, Free, Ids, Roles, Partition, Places, Apart;
    assert ThreadOk(m.limits, m.threads[u], m.shared, m.issuedBy, u);
  }

  /** A thread cannot hold a connection of another. */
  lemma ForeignConnection<I, C>(m: Machine<I, C>, u: nat, id: nat, n: Machine<I, C>)
    requires Inv(m) && u < |m.threads| && id in m.shared.mapped && m.issuedBy[id] != u
    requires |n.threads| == |m.threads| && n.threads[u].conns == m.threads[u].conns && n.threads[u].task == Releasing(m.shared.mapped[id].1)
    ensures !Inv(n)
  {
    var c, t := m.shared.mapped[id].1, m.issuedBy[id];
    EntryAtHome(m, id);
    assert Apart(m.threads[if t < u then t else u], m.threads[if t < u then u else t]);
    if Inv(n) {
      HeldIsOwn(n, u, c);
      assert false;
    }
  }

  lemma HeldIsOwn<I, C>(m: Machine<I, C>, u: nat, c: C)
    requires Inv(m) && u < |m.threads| && m.threads[u].task == Releasing(c)
    ensures c in m.threads[u].conns
  {
    hide Lists, Free, Ids, Partition, Places, Apart;
    assert ThreadOk(m.limits, m.threads[u], m.shared, m.issuedBy, u);
    assert c in Held(m.threads[u].task);
  }
}
