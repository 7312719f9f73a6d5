/** The scheduler with several threads. Each thread has its own pool, queue and objects; the id counter and
    the map from id to (intercept, connection) are shared. A thread's work on an event is cut into the
    sections between which others may run: every access to the counter or the map is one. */
module SchedulerThreads {
  import opened Wrappers
  import opened SchedulerSpec
  import opened SchedulerInvariants

  /** What a thread is about to do. A `newcomer` is being connected for the first time. */
  datatype Task<I, C> =
    | Idle
    | Connecting(i: I, newcomer: bool)
    | Numbering(i: I, c: C)
    | Inserting(i: I, c: C, id: nat)
    | Erasing(id: nat)
    | Releasing(c: C)
    | Closing(c: C)
    | Dropping(c: C)
    | Finding(id: nat)
    | Forgetting(id: nat, i: I)
    | Popping

  /** Where a submitted intercept is. */
  datatype Place = InHand | Queued | At(id: nat) | Finished | Failed | Discarded

  /** `popping`: the queue is still to be looked at; `closing`: a connection is still to be closed. Of those
      submitted to the thread, `accepted` were given a connection or a place in the queue then, and `started`
      were entered in the map with a connection, both in the order in which that happened. */
  datatype Thread<I(==), C(==)> = Thread(
    conns: map<C, Conn>,
    connections: seq<C>,
    available: seq<C>,
    queue: seq<I>,
    ids: map<I, nat>,
    place: map<I, Place>,
    accepted: seq<I>,
    started: seq<I>,
    task: Task<I, C>,
    popping: bool,
    closing: Option<C>)

  datatype Shared<I, C> = Shared(next: nat, mapped: map<nat, (I, C)>)

  // ---- One section of a thread ----------------------------------------------------------------------------

  function Fld<I, C>(th: Thread<I, C>, c: C): Conn {
    if c in th.conns then th.conns[c] else NEW_CONN
  }

  /** What comes next when a task is done. */
  function Then<I, C>(th: Thread<I, C>): Thread<I, C> {
    if th.popping then th.(task := Popping, popping := false)
    else if th.closing.Some? then th.(task := Closing(th.closing.value), closing := None)
    else th.(task := Idle)
  }

  function Accepted<I, C>(th: Thread<I, C>, i: I, newcomer: bool): seq<I> {
    if newcomer then th.accepted + [i] else th.accepted
  }

  function ActConnecting<I, C>(limits: Limits, th: Thread<I, C>, i: I, newcomer: bool, spare: C): Thread<I, C> {
    var accepted := Accepted(th, i, newcomer);
    if |th.connections| < limits.maxConn then
      th.(accepted := accepted, conns := th.conns[spare := NEW_CONN], connections := th.connections + [spare], task := Numbering(i, spare))
    else if th.available != [] then
      var c := th.available[0];
      th.(accepted := accepted, available := th.available[1..], conns := th.conns[c := Fld(th, c).(state := Ready)], task := Numbering(i, c))
    else if |th.queue| >= limits.queueSize then Then(th.(place := th.place[i := Discarded]))
    else Then(th.(accepted := accepted, queue := th.queue + [i], place := th.place[i := Queued]))
  }

  function ActReleasing<I, C>(limits: Limits, th: Thread<I, C>, c: C): Thread<I, C> {
    var k := Fld(th, c).ReleaseFCGIClient().(requestId := 0);
    if limits.maxRequests > k.reqCount then
      Then(th.(conns := th.conns[c := k.(readEnable := false, state := Ready)], available := th.available + [c]))
    else th.(conns := th.conns[c := k.(state := Closed)], task := Closing(c))
  }

  function ActDropping<I, C>(th: Thread<I, C>, c: C): Thread<I, C> {
    Then(th.(connections := Without(th.connections, c), available := Without(th.available, c), conns := th.conns - {c}))
  }

  function ActPopping<I, C>(th: Thread<I, C>): Thread<I, C> {
    if th.queue == [] then Then(th)
    else th.(queue := th.queue[1..], place := th.place[th.queue[0] := InHand], task := Connecting(th.queue[0], false))
  }

  function Act<I, C>(limits: Limits, th: Thread<I, C>, sh: Shared<I, C>, spare: C): (Thread<I, C>, Shared<I, C>) {
    match th.task
    case Idle => (th, sh)
    case Connecting(i, newcomer) => (ActConnecting(limits, th, i, newcomer, spare), sh)
    case Numbering(i, c) =>
      var id := sh.next % ID_SPACE;
      (th.(ids := th.ids[i := id], conns := th.conns[c := Fld(th, c).(requestId := id)], task := Inserting(i, c, id)), sh.(next := sh.next + 1))
    case Inserting(i, c, id) =>
      (Then(th.(conns := th.conns[c := Fld(th, c).Start()], place := th.place[i := At(id)], started := th.started + [i])), sh.(mapped := sh.mapped[id := (i, c)]))
    case Erasing(id) =>
      if id in sh.mapped then
        (th.(place := th.place[sh.mapped[id].0 := Finished], task := Releasing(sh.mapped[id].1), popping := true), sh.(mapped := sh.mapped - {id}))
      else (Then(th), sh)
    case Releasing(c) => (ActReleasing(limits, th, c), sh)
    case Closing(c) =>
      var id := Fld(th, c).requestId;
      (th.(place := if id in sh.mapped then th.place[sh.mapped[id].0 := Failed] else th.place, task := Dropping(c)), sh.(mapped := sh.mapped - {id}))
    case Dropping(c) => (ActDropping(th, c), sh)
    case Finding(id) => (if id in sh.mapped then th.(task := Forgetting(id, sh.mapped[id].0)) else Then(th), sh)
    case Forgetting(id, i) => (th.(place := th.place[i := InHand], task := Connecting(i, false)), sh.(mapped := sh.mapped - {id}))
    case Popping => (ActPopping(th), sh)
  }

  /** An idle thread takes up an event. */
  predicate CanBegin<I, C>(th: Thread<I, C>, sh: Shared<I, C>, e: Event<I, C>) {
    th.task == Idle &&
    match e
    case Submit(i, _) => i !in th.place
    case NetConnect(c) => c in th.conns && th.conns[c].connecting
    case ConnectFailed(c, _) => c in th.conns && th.conns[c].connecting
    case RequestWritten(id) => id in sh.mapped
    case ResponseDone(c, _) => c in th.conns && !th.conns[c].connecting && th.conns[c].requestId in sh.mapped
    case Abort(_, _) => true
    case Eos(c, _) => c in th.conns && !th.conns[c].connecting
    case NetError(c) => c in th.conns && !th.conns[c].connecting
  }

  function Begin<I, C>(th: Thread<I, C>, sh: Shared<I, C>, e: Event<I, C>): Thread<I, C> {
    match e
    case Submit(i, _) => th.(place := th.place[i := InHand], task := Connecting(i, true))
    case NetConnect(c) =>
      var k := Fld(th, c).(state := Ready, connecting := false);
      th.(conns := th.conns[c := if k.requestId in sh.mapped then k.CreateFCGIClient() else k])
    case ConnectFailed(c, _) => th.(closing := Some(c), task := Finding(Fld(th, c).requestId))
    case RequestWritten(id) =>
      if id in sh.mapped then th.(conns := th.conns[sh.mapped[id].1 := Fld(th, sh.mapped[id].1).(readEnable := true)]) else th
    case ResponseDone(c, _) => th.(conns := th.conns[c := Fld(th, c).(state := Complete)], task := Erasing(Fld(th, c).requestId))
    case Abort(id, _) => th.(task := Erasing(id))
    case Eos(c, _) =>
      if !Fld(th, c).readEnable then th.(closing := Some(c), task := Finding(Fld(th, c).requestId)) else th.(task := Closing(c))
    case NetError(c) => th.(task := Closing(c))
  }

  // ---- What one thread keeps ------------------------------------------------------------------------------

  ghost predicate Lists<I, C>(limits: Limits, live: set<C>, connections: seq<C>, available: seq<C>, queue: seq<I>) {
    && NoDuplicates(connections) && NoDuplicates(available) && NoDuplicates(queue)
    && |connections| <= limits.maxConn && |queue| <= limits.queueSize
    && Elements(connections) == live
    && forall c :: c in available ==> c in live
  }

  /** No two connections carry the same id, and both sides of an entry carry its id. */
  ghost predicate Ids<I, C>(conns: map<C, Conn>, ids: map<I, nat>, next: nat, mapped: map<nat, (I, C)>) {
    && 0 < next <= ID_SPACE
    && (forall c :: c in conns ==> conns[c].requestId < next)
    && (forall c, d :: c in conns && d in conns && conns[c].requestId == conns[d].requestId != 0 ==> c == d)
    && forall id :: id in mapped ==>
         var (i, c) := mapped[id];
         0 < id < next && c in conns && conns[c].requestId == id && i in ids && ids[i] == id
  }

  /** The connection in the hands of the thread: neither free nor in the map. */
  function Held<I, C(==)>(task: Task<I, C>): set<C> {
    match task
    case Numbering(_, c) => {c}
    case Inserting(_, c, _) => {c}
    case Releasing(c) => {c}
    case _ => {}
  }

  function Noted<C(==)>(closing: Option<C>): set<C> {
    if closing.Some? then {closing.value} else {}
  }

  /** The connections the thread is going to close. */
  function ToClose<I, C(==)>(task: Task<I, C>, closing: Option<C>): set<C> {
    match task
    case Closing(c) => Noted(closing) + {c}
    case Dropping(c) => Noted(closing) + {c}
    case _ => Noted(closing)
  }

  ghost predicate Roles<I, C>(conns: map<C, Conn>, available: seq<C>, held: set<C>, toClose: set<C>, mapped: map<nat, (I, C)>) {
    && (forall c :: c in held ==> c in conns && c !in available && c !in toClose && conns[c].requestId !in mapped)
    && (forall c :: c in toClose ==> c in conns)
  }

  ghost predicate TaskFits<I, C>(task: Task<I, C>, closing: Option<C>, conns: map<C, Conn>, ids: map<I, nat>, mapped: map<nat, (I, C)>) {
    match task
    case Numbering(i, c) => c in conns && conns[c].requestId == 0
    case Inserting(i, c, id) => c in conns && conns[c].requestId == id && id > 0 && i in ids && ids[i] == id
    case Finding(id) => closing.Some? && closing.value in conns && conns[closing.value].requestId == id
    case Forgetting(id, i) => id in mapped && mapped[id].0 == i && closing.Some? && closing.value in conns && conns[closing.value].requestId == id
    case Closing(c) => closing != Some(c)
    case Dropping(c) => c in conns && conns[c].requestId !in mapped && closing != Some(c)
    case _ => true
  }

  /** Every connection is free, in the map, in hand, or about to be closed. */
  ghost predicate Partition<I, C>(conns: map<C, Conn>, available: seq<C>, busy: set<C>, mapped: map<nat, (I, C)>) {
    forall c :: c in conns ==> c in available || c in busy || conns[c].requestId in mapped
  }

  function Hand<I, C>(task: Task<I, C>): Option<I> {
    match task
    case Connecting(i, _) => Some(i)
    case Numbering(i, _) => Some(i)
    case Inserting(i, _, _) => Some(i)
    case _ => None
  }

  /** Every submitted intercept is where its place says, and nowhere else. */
  ghost predicate Places<I, C>(place: map<I, Place>, queue: seq<I>, hand: Option<I>, mapped: map<nat, (I, C)>) {
    && (forall i :: i in place && place[i] == Queued ==> i in queue)
    && (forall i :: i in queue ==> i in place && place[i] == Queued)
    && (forall i :: i in place && place[i] == InHand ==> hand == Some(i))
    && (hand.Some? ==> hand.value in place && place[hand.value] == InHand)
    && (forall i, id :: i in place && place[i] == At(id) ==> id in mapped && mapped[id].0 == i)
    && (forall id :: id in mapped ==> mapped[id].0 in place && place[mapped[id].0] == At(id))
  }

  /** A connection to be closed is free only if nothing else is done before. */
  ghost predicate Shape<I, C>(th: Thread<I, C>) {
    && (th.closing.Some? && th.closing.value in th.available ==> th.task == Finding(0) && !th.popping)
    && (th.task.Idle? || th.task.Erasing? ==> th.closing == None && !th.popping)
  }

  /** All but what the section to come adds. */
  ghost predicate Core<I, C>(limits: Limits, th: Thread<I, C>, sh: Shared<I, C>, held: set<C>, toClose: set<C>, hand: Option<I>) {
    && Lists(limits, th.conns.Keys, th.connections, th.available, th.queue)
    && Free(limits, th.available, th.conns)
    && Ids(th.conns, th.ids, sh.next, sh.mapped)
    && Roles(th.conns, th.available, held, toClose, sh.mapped)
    && Partition(th.conns, th.available, held + toClose, sh.mapped)
    && Places(th.place, th.queue, hand, sh.mapped)
  }

  ghost predicate Local<I, C>(limits: Limits, th: Thread<I, C>, sh: Shared<I, C>) {
    && Core(limits, th, sh, Held(th.task), ToClose(th.task, th.closing), Hand(th.task))
    && TaskFits(th.task, th.closing, th.conns, th.ids, sh.mapped)
    && Shape(th)
  }

  // ---- What single changes do to the parts ----------------------------------------------------------------

  lemma KeysStay<C>(conns: map<C, Conn>, c: C, k: Conn)
    requires c in conns
    ensures conns[c := k].Keys == conns.Keys
  {
  }

  lemma FreeUpdate<C>(limits: Limits, available: seq<C>, conns: map<C, Conn>, c: C, k: Conn)
    requires Free(limits, available, conns) && c !in available
    ensures Free(limits, available, conns[c := k])
  {
  }

  /** The fields of a connection change, but not its id. */
  lemma SameId<I, C>(conns: map<C, Conn>, ids: map<I, nat>, next: nat, mapped: map<nat, (I, C)>, c: C, k: Conn, available: seq<C>, held: set<C>, toClose: set<C>)
    requires c in conns && k.requestId == conns[c].requestId && Ids(conns, ids, next, mapped)
    requires Roles(conns, available, held, toClose, mapped) && Partition(conns, available, held + toClose, mapped)
    ensures Ids(conns[c := k], ids, next, mapped) && Roles(conns[c := k], available, held, toClose, mapped)
    ensures Partition(conns[c := k], available, held + toClose, mapped)
  {
  }

  lemma ZeroUnmapped<I, C>(conns: map<C, Conn>, ids: map<I, nat>, next: nat, mapped: map<nat, (I, C)>)
    requires Ids(conns, ids, next, mapped)
    ensures 0 !in mapped
  {
  }

  // ---- Each task keeps it ---------------------------------------------------------------------------------

  /** Going on to the next task. */
  lemma ThenKeeps<I, C>(limits: Limits, th: Thread<I, C>, sh: Shared<I, C>)
    requires Core(limits, th, sh, {}, Noted(th.closing), None)
    requires th.closing.Some? && th.closing.value in th.available ==> !th.popping
    ensures Local(limits, Then(th), sh)
  {
    hide Lists, Free, Ids, Roles, Partition, Places;
    var t := Then(th);
    assert ToClose(t.task, t.closing) == Noted(th.closing);
  }

  lemma ConnectingKeeps<I, C>(limits: Limits, th: Thread<I, C>, sh: Shared<I, C>, i: I, newcomer: bool, spare: C)
    requires Local(limits, th, sh) && th.task == Connecting(i, newcomer) && spare !in th.conns
    ensures Local(limits, ActConnecting(limits, th, i, newcomer, spare), sh)
  {
    hide Local, Lists;
    var acc := Accepted(th, i, newcomer);
    if |th.connections| < limits.maxConn {
      ConnectingNew(limits, th, sh, i, spare, acc);
    } else if th.available != [] {
      ConnectingFree(limits, th, sh, i, acc);
    } else if |th.queue| >= limits.queueSize {
      ConnectingDiscards(limits, th, sh, i);
    } else {
      ConnectingQueues(limits, th, sh, i, acc);
    }
  }

  lemma ListsNew<I, C>(limits: Limits, live: set<C>, connections: seq<C>, available: seq<C>, queue: seq<I>, c: C)
    requires Lists(limits, live, connections, available, queue) && |connections| < limits.maxConn && c !in live
    ensures Lists(limits, live + {c}, connections + [c], available, queue) && c !in available
  {
    ElementsOf(connections, c);
    assert c !in Elements(connections);
  }

  lemma IdsNew<I, C>(conns: map<C, Conn>, ids: map<I, nat>, next: nat, mapped: map<nat, (I, C)>, c: C)
    requires Ids(conns, ids, next, mapped) && c !in conns
    ensures Ids(conns[c := NEW_CONN], ids, next, mapped)
  {
  }

  lemma ConnectingNew<I, C>(limits: Limits, th: Thread<I, C>, sh: Shared<I, C>, i: I, c: C, acc: seq<I>)
    requires Local(limits, th, sh) && th.task.Connecting? && th.task.i == i && c !in th.conns && |th.connections| < limits.maxConn
    ensures Local(limits, th.(accepted := acc, conns := th.conns[c := NEW_CONN], connections := th.connections + [c], task := Numbering(i, c)), sh)
  {
    hide Lists, Free, Ids, Places;
    var conns := th.conns[c := NEW_CONN];
    assert conns.Keys == th.conns.Keys + {c};
    ListsNew(limits, th.conns.Keys, th.connections, th.available, th.queue, c);
    FreeUpdate(limits, th.available, th.conns, c, NEW_CONN);
    IdsNew(th.conns, th.ids, sh.next, sh.mapped, c);
    ZeroUnmapped(th.conns, th.ids, sh.next, sh.mapped);
  }

  lemma TakeFirst<I, C>(limits: Limits, live: set<C>, connections: seq<C>, available: seq<C>, queue: seq<I>)
    requires Lists(limits, live, connections, available, queue) && available != []
    ensures Lists(limits, live, connections, available[1..], queue) && available[0] in live && available[0] !in available[1..]
    ensures forall d :: d in available <==> d == available[0] || d in available[1..]
  {
  }

  lemma ConnectingFree<I, C>(limits: Limits, th: Thread<I, C>, sh: Shared<I, C>, i: I, acc: seq<I>)
    requires Local(limits, th, sh) && th.task.Connecting? && th.task.i == i && th.available != []
    ensures var c := th.available[0];
            Local(limits, th.(accepted := acc, available := th.available[1..], conns := th.conns[c := Fld(th, c).(state := Ready)], task := Numbering(i, c)), sh)
  {
    hide Lists, Ids, Places;
    var c := th.available[0];
    var k := Fld(th, c).(state := Ready);
    TakeFirst(limits, th.conns.Keys, th.connections, th.available, th.queue);
    KeysStay(th.conns, c, k);
    SameId(th.conns, th.ids, sh.next, sh.mapped, c, k, th.available, {}, Noted(th.closing));
    ZeroUnmapped(th.conns, th.ids, sh.next, sh.mapped);
  }

  lemma ConnectingDiscards<I, C>(limits: Limits, th: Thread<I, C>, sh: Shared<I, C>, i: I)
    requires Local(limits, th, sh) && th.task.Connecting? && th.task.i == i
    ensures Local(limits, Then(th.(place := th.place[i := Discarded])), sh)
  {
    hide Lists, Free, Ids, Roles, Partition;
    ThenKeeps(limits, th.(place := th.place[i := Discarded]), sh);
  }

  lemma ListsQueue<I, C>(limits: Limits, live: set<C>, connections: seq<C>, available: seq<C>, queue: seq<I>, i: I)
    requires Lists(limits, live, connections, available, queue) && |queue| < limits.queueSize && i !in queue
    ensures Lists(limits, live, connections, available, queue + [i])
  {
  }

  lemma ConnectingQueues<I, C>(limits: Limits, th: Thread<I, C>, sh: Shared<I, C>, i: I, acc: seq<I>)
    requires Local(limits, th, sh) && th.task.Connecting? && th.task.i == i && |th.queue| < limits.queueSize
    ensures Local(limits, Then(th.(accepted := acc, queue := th.queue + [i], place := th.place[i := Queued])), sh)
  {
    hide Lists, Free, Ids, Roles, Partition;
    ListsQueue(limits, th.conns.Keys, th.connections, th.available, th.queue, i);
    ThenKeeps(limits, th.(accepted := acc, queue := th.queue + [i], place := th.place[i := Queued]), sh);
  }

  lemma IdsNumber<I, C>(conns: map<C, Conn>, ids: map<I, nat>, next: nat, mapped: map<nat, (I, C)>, i: I, c: C, k: Conn)
    requires Ids(conns, ids, next, mapped) && c in conns && conns[c].requestId !in mapped && next < ID_SPACE && k.requestId == next
    requires forall id :: id in mapped ==> mapped[id].0 != i
    ensures Ids(conns[c := k], ids[i := next], next + 1, mapped) && next !in mapped
  {
  }

  lemma HandUnmapped<I, C>(place: map<I, Place>, queue: seq<I>, i: I, mapped: map<nat, (I, C)>)
    requires Places(place, queue, Some(i), mapped)
    ensures forall id :: id in mapped ==> mapped[id].0 != i
  {
  }

  lemma NumberingKeeps<I, C>(limits: Limits, th: Thread<I, C>, sh: Shared<I, C>, i: I, c: C, spare: C)
    requires Local(limits, th, sh) && th.task == Numbering(i, c) && sh.next < ID_SPACE
    ensures var r := Act(limits, th, sh, spare); Local(limits, r.0, r.1)
  {
    hide Lists, Free, Ids, Places;
    var k := Fld(th, c).(requestId := sh.next);
    assert c in Held(th.task);
    KeysStay(th.conns, c, k);
    FreeUpdate(limits, th.available, th.conns, c, k);
    HandUnmapped(th.place, th.queue, i, sh.mapped);
    IdsNumber(th.conns, th.ids, sh.next, sh.mapped, i, c, k);
    NextPositive(th.conns, th.ids, sh.next, sh.mapped);
  }

  lemma NextPositive<I, C>(conns: map<C, Conn>, ids: map<I, nat>, next: nat, mapped: map<nat, (I, C)>)
    requires Ids(conns, ids, next, mapped)
    ensures 0 < next <= ID_SPACE && forall c :: c in conns ==> conns[c].requestId < next
  {
  }

  lemma IdsInsert<I, C>(conns: map<C, Conn>, ids: map<I, nat>, next: nat, mapped: map<nat, (I, C)>, i: I, c: C, id: nat)
    requires Ids(conns, ids, next, mapped) && c in conns && conns[c].requestId == id > 0 && i in ids && ids[i] == id
    ensures Ids(conns, ids, next, mapped[id := (i, c)])
  {
  }

  lemma PlacesInsert<I, C>(place: map<I, Place>, queue: seq<I>, i: I, mapped: map<nat, (I, C)>, id: nat, c: C)
    requires Places(place, queue, Some(i), mapped) && id !in mapped
    ensures Places(place[i := At(id)], queue, None, mapped[id := (i, c)])
  {
  }

  lemma InsertingKeeps<I, C>(limits: Limits, th: Thread<I, C>, sh: Shared<I, C>, i: I, c: C, id: nat, spare: C)
    requires Local(limits, th, sh) && th.task == Inserting(i, c, id)
    ensures var r := Act(limits, th, sh, spare); Local(limits, r.0, r.1)
  {
    hide Lists, Free, Ids, Places;
    var k := Fld(th, c).Start();
    assert c in Held(th.task);
    KeysStay(th.conns, c, k);
    FreeUpdate(limits, th.available, th.conns, c, k);
    SameId(th.conns, th.ids, sh.next, sh.mapped, c, k, th.available, {c}, Noted(th.closing));
    IdsInsert(th.conns[c := k], th.ids, sh.next, sh.mapped, i, c, id);
    PlacesInsert(th.place, th.queue, i, sh.mapped, id, c);
    ThenKeeps(limits, th.(conns := th.conns[c := k], place := th.place[i := At(id)], started := th.started + [i]), sh.(mapped := sh.mapped[id := (i, c)]));
  }

  lemma IdsErase<I, C>(conns: map<C, Conn>, ids: map<I, nat>, next: nat, mapped: map<nat, (I, C)>, id: nat)
    requires Ids(conns, ids, next, mapped)
    ensures Ids(conns, ids, next, mapped - {id})
    ensures id in mapped ==> mapped[id].1 in conns && conns[mapped[id].1].requestId == id != 0
    ensures id != 0 ==> forall c, d :: c in conns && d in conns && conns[c].requestId == conns[d].requestId == id ==> c == d
  {
  }

  lemma PlacesErase<I, C>(place: map<I, Place>, queue: seq<I>, mapped: map<nat, (I, C)>, id: nat, p: Place)
    requires Places(place, queue, None, mapped) && id in mapped && !p.Queued? && !p.At? && !p.InHand?
    ensures Places(place[mapped[id].0 := p], queue, None, mapped - {id})
  {
    var i := mapped[id].0;
    assert place[i] == At(id);
  }

  lemma PlacesForget<I, C>(place: map<I, Place>, queue: seq<I>, mapped: map<nat, (I, C)>, id: nat)
    requires Places(place, queue, None, mapped) && id in mapped
    ensures Places(place[mapped[id].0 := InHand], queue, Some(mapped[id].0), mapped - {id})
  {
    var i := mapped[id].0;
    assert place[i] == At(id);
  }

  lemma ErasingKeeps<I, C>(limits: Limits, th: Thread<I, C>, sh: Shared<I, C>, id: nat, spare: C)
    requires Local(limits, th, sh) && th.task == Erasing(id)
    ensures var r := Act(limits, th, sh, spare); Local(limits, r.0, r.1)
  {
    hide Lists, Ids, Places;
    if id in sh.mapped {
      IdsErase(th.conns, th.ids, sh.next, sh.mapped, id);
      PlacesErase(th.place, th.queue, sh.mapped, id, Finished);
      FreeNotAt(limits, th.available, th.conns, id);
    } else {
      ThenKeeps(limits, th, sh);
    }
  }

  lemma FreeNotAt<C>(limits: Limits, available: seq<C>, conns: map<C, Conn>, id: nat)
    requires Free(limits, available, conns) && id != 0
    ensures forall c :: c in available && c in conns ==> conns[c].requestId != id
  {
  }

  lemma IdsZero<I, C>(conns: map<C, Conn>, ids: map<I, nat>, next: nat, mapped: map<nat, (I, C)>, c: C, k: Conn)
    requires Ids(conns, ids, next, mapped) && c in conns && conns[c].requestId !in mapped && k.requestId == 0
    ensures Ids(conns[c := k], ids, next, mapped)
  {
  }

  lemma ListsFree<I, C>(limits: Limits, live: set<C>, connections: seq<C>, available: seq<C>, queue: seq<I>, c: C)
    requires Lists(limits, live, connections, available, queue) && c in live && c !in available
    ensures Lists(limits, live, connections, available + [c], queue)
  {
  }

  lemma ReleasingKeeps<I, C>(limits: Limits, th: Thread<I, C>, sh: Shared<I, C>, c: C)
    requires Local(limits, th, sh) && th.task == Releasing(c)
    ensures Local(limits, ActReleasing(limits, th, c), sh)
  {
    hide Local;
    if limits.maxRequests > Fld(th, c).ReleaseFCGIClient().reqCount {
      ReleasingReuses(limits, th, sh, c, Fld(th, c).ReleaseFCGIClient().(requestId := 0, readEnable := false, state := Ready));
    } else {
      ReleasingRetires(limits, th, sh, c, Fld(th, c).ReleaseFCGIClient().(requestId := 0, state := Closed));
    }
  }

  lemma ReleasingReuses<I, C>(limits: Limits, th: Thread<I, C>, sh: Shared<I, C>, c: C, k: Conn)
    requires Local(limits, th, sh) && th.task == Releasing(c)
    requires k.requestId == 0 && !k.readEnable && k.state == Ready && k.reqCount < limits.maxRequests
    ensures Local(limits, Then(th.(conns := th.conns[c := k], available := th.available + [c])), sh)
  {
    hide Lists, Ids, Places;
    assert c in Held(th.task);
    KeysStay(th.conns, c, k);
    IdsZero(th.conns, th.ids, sh.next, sh.mapped, c, k);
    ListsFree(limits, th.conns.Keys, th.connections, th.available, th.queue, c);
    ThenKeeps(limits, th.(conns := th.conns[c := k], available := th.available + [c]), sh);
  }

  lemma ReleasingRetires<I, C>(limits: Limits, th: Thread<I, C>, sh: Shared<I, C>, c: C, k: Conn)
    requires Local(limits, th, sh) && th.task == Releasing(c) && k.requestId == 0
    ensures Local(limits, th.(conns := th.conns[c := k], task := Closing(c)), sh)
  {
    hide Lists, Free, Ids, Places;
    assert c in Held(th.task);
    KeysStay(th.conns, c, k);
    FreeUpdate(limits, th.available, th.conns, c, k);
    IdsZero(th.conns, th.ids, sh.next, sh.mapped, c, k);
    assert c in ToClose(Task<I, C>.Closing(c), th.closing);
  }

  lemma BusyErase<I, C>(conns: map<C, Conn>, available: seq<C>, toClose: set<C>, mapped: map<nat, (I, C)>, c: C)
    requires Partition(conns, available, toClose, mapped) && c in conns && c in toClose
    requires conns[c].requestId != 0 ==> forall d :: d in conns && conns[d].requestId == conns[c].requestId ==> d == c
    requires 0 !in mapped
    ensures Partition(conns, available, toClose, mapped - {conns[c].requestId})
  {
  }

  lemma ClosingKeeps<I, C>(limits: Limits, th: Thread<I, C>, sh: Shared<I, C>, c: C, spare: C)
    requires Local(limits, th, sh) && th.task == Closing(c)
    ensures var r := Act(limits, th, sh, spare); Local(limits, r.0, r.1)
  {
    hide Lists, Free, Ids, Partition, Places;
    var id := Fld(th, c).requestId;
    var toClose := ToClose(th.task, th.closing);
    assert c in toClose && {} + toClose == toClose;
    IdsErase(th.conns, th.ids, sh.next, sh.mapped, id);
    ZeroUnmapped(th.conns, th.ids, sh.next, sh.mapped);
    BusyErase(th.conns, th.available, toClose, sh.mapped, c);
    if id in sh.mapped {
      PlacesErase(th.place, th.queue, sh.mapped, id, Failed);
    } else {
      assert sh.mapped - {id} == sh.mapped;
    }
  }

  lemma ListsDrop<I, C>(limits: Limits, live: set<C>, connections: seq<C>, available: seq<C>, queue: seq<I>, c: C)
    requires Lists(limits, live, connections, available, queue)
    ensures Lists(limits, live - {c}, Without(connections, c), Without(available, c), queue)
    ensures forall d :: d in Without(available, c) <==> d in available && d != c
  {
    WithoutKeeps(connections, c);
    WithoutKeeps(available, c);
    assert Elements(Without(connections, c)) == live - {c};
  }

  lemma IdsDrop<I, C>(conns: map<C, Conn>, ids: map<I, nat>, next: nat, mapped: map<nat, (I, C)>, c: C)
    requires Ids(conns, ids, next, mapped) && c in conns && conns[c].requestId !in mapped
    ensures Ids(conns - {c}, ids, next, mapped)
  {
  }

  lemma DroppingKeeps<I, C>(limits: Limits, th: Thread<I, C>, sh: Shared<I, C>, c: C)
    requires Local(limits, th, sh) && th.task == Dropping(c)
    ensures Local(limits, ActDropping(th, c), sh)
  {
    hide Lists, Ids, Places;
    var t := th.(connections := Without(th.connections, c), available := Without(th.available, c), conns := th.conns - {c});
    ListsDrop(limits, th.conns.Keys, th.connections, th.available, th.queue, c);
    IdsDrop(th.conns, th.ids, sh.next, sh.mapped, c);
    assert t.conns.Keys == th.conns.Keys - {c};
    ThenKeeps(limits, t, sh);
  }

  lemma FindingKeeps<I, C>(limits: Limits, th: Thread<I, C>, sh: Shared<I, C>, id: nat, spare: C)
    requires Local(limits, th, sh) && th.task == Finding(id)
    ensures var r := Act(limits, th, sh, spare); Local(limits, r.0, r.1)
  {
    hide Lists, Free, Ids, Roles, Partition, Places;
    if id in sh.mapped {
      ZeroUnmapped(th.conns, th.ids, sh.next, sh.mapped);
    } else {
      ThenKeeps(limits, th, sh);
    }
  }

  lemma ForgettingKeeps<I, C>(limits: Limits, th: Thread<I, C>, sh: Shared<I, C>, id: nat, i: I, spare: C)
    requires Local(limits, th, sh) && th.task == Forgetting(id, i)
    ensures var r := Act(limits, th, sh, spare); Local(limits, r.0, r.1)
  {
    hide Lists, Free, Ids, Places;
    IdsErase(th.conns, th.ids, sh.next, sh.mapped, id);
    PlacesForget(th.place, th.queue, sh.mapped, id);
  }

  lemma PopFirst<I, C>(limits: Limits, live: set<C>, connections: seq<C>, available: seq<C>, queue: seq<I>)
    requires Lists(limits, live, connections, available, queue) && queue != []
    ensures Lists(limits, live, connections, available, queue[1..]) && queue[0] !in queue[1..]
  {
  }

  lemma PlacesPop<I, C>(place: map<I, Place>, queue: seq<I>, mapped: map<nat, (I, C)>)
    requires Places(place, queue, None, mapped) && queue != [] && queue[0] !in queue[1..]
    ensures Places(place[queue[0] := InHand], queue[1..], Some(queue[0]), mapped)
  {
    assert forall x :: x in queue <==> x == queue[0] || x in queue[1..];
  }

  lemma PoppingKeeps<I, C>(limits: Limits, th: Thread<I, C>, sh: Shared<I, C>)
    requires Local(limits, th, sh) && th.task == Popping
    ensures Local(limits, ActPopping(th), sh)
  {
    hide Lists, Free, Ids, Roles, Partition, Places;
    if th.queue == [] {
      ThenKeeps(limits, th, sh);
    } else {
      PopFirst(limits, th.conns.Keys, th.connections, th.available, th.queue);
      PlacesPop(th.place, th.queue, sh.mapped);
    }
  }

  /** One section of the thread's work. */
  lemma ActKeeps<I, C>(limits: Limits, th: Thread<I, C>, sh: Shared<I, C>, spare: C)
    requires Local(limits, th, sh) && spare !in th.conns && sh.next < ID_SPACE
    ensures var r := Act(limits, th, sh, spare); Local(limits, r.0, r.1)
  {
    hide Local, ActConnecting, ActReleasing, ActDropping, ActPopping;
    match th.task
    case Idle =>
    case Connecting(i, newcomer) => ConnectingKeeps(limits, th, sh, i, newcomer, spare);
    case Numbering(i, c) => NumberingKeeps(limits, th, sh, i, c, spare);
    case Inserting(i, c, id) => InsertingKeeps(limits, th, sh, i, c, id, spare);
    case Erasing(id) => ErasingKeeps(limits, th, sh, id, spare);
    case Releasing(c) => ReleasingKeeps(limits, th, sh, c);
    case Closing(c) => ClosingKeeps(limits, th, sh, c, spare);
    case Dropping(c) => DroppingKeeps(limits, th, sh, c);
    case Finding(id) => FindingKeeps(limits, th, sh, id, spare);
    case Forgetting(id, i) => ForgettingKeeps(limits, th, sh, id, i, spare);
    case Popping => PoppingKeeps(limits, th, sh);
  }

  // ---- Taking up an event ---------------------------------------------------------------------------------

  lemma SubmitKeeps<I, C>(limits: Limits, th: Thread<I, C>, sh: Shared<I, C>, i: I)
    requires Local(limits, th, sh) && th.task == Idle && i !in th.place
    ensures Local(limits, th.(place := th.place[i := InHand], task := Connecting(i, true)), sh)
  {
    hide Lists, Free, Ids, Roles, Partition;
  }

  /** The fields of a connection that is not free change, or those of a free one stay as they should be. */
  lemma FieldsKeep<I, C>(limits: Limits, th: Thread<I, C>, sh: Shared<I, C>, c: C, k: Conn, task: Task<I, C>)
    requires Local(limits, th, sh) && th.task == Idle && c in th.conns && k.requestId == th.conns[c].requestId
    requires c in th.available ==> k == th.conns[c].(connecting := k.connecting)
    requires task == Idle || task.Erasing?
    ensures Local(limits, th.(conns := th.conns[c := k], task := task), sh)
  {
    hide Lists, Ids, Roles, Partition, Places;
    KeysStay(th.conns, c, k);
    SameId(th.conns, th.ids, sh.next, sh.mapped, c, k, th.available, {}, Noted(th.closing));
  }

  lemma MappedIsNotFree<I, C>(limits: Limits, th: Thread<I, C>, sh: Shared<I, C>)
    requires Local(limits, th, sh)
    ensures forall c :: c in th.available && c in th.conns ==> th.conns[c].requestId !in sh.mapped && th.conns[c].state == Ready
    ensures forall id :: id in sh.mapped ==> sh.mapped[id].1 in th.conns && th.conns[sh.mapped[id].1].requestId == id
  {
    hide Lists, Roles, Partition, Places;
  }

  lemma ClosesKeep<I, C>(limits: Limits, th: Thread<I, C>, sh: Shared<I, C>, c: C)
    requires Local(limits, th, sh) && th.task == Idle && c in th.conns
    ensures Local(limits, th.(task := Closing(c)), sh)
    ensures Local(limits, th.(closing := Some(c), task := Finding(Fld(th, c).requestId)), sh)
  {
    hide Lists, Ids, Places;
    assert c in ToClose(Task<I, C>.Closing(c), th.closing);
    assert Noted(Some(c)) == {c};
  }

  lemma BeginKeeps<I, C>(limits: Limits, th: Thread<I, C>, sh: Shared<I, C>, e: Event<I, C>)
    requires Local(limits, th, sh) && CanBegin(th, sh, e)
    ensures Local(limits, Begin(th, sh, e), sh)
  {
    hide Lists, Free, Ids, Roles, Partition, Places;
    MappedIsNotFree(limits, th, sh);
    match e
    case Submit(i, _) => SubmitKeeps(limits, th, sh, i);
    case NetConnect(c) =>
      var k := Fld(th, c).(state := Ready, connecting := false);
      FieldsKeep(limits, th, sh, c, if k.requestId in sh.mapped then k.CreateFCGIClient() else k, Idle);
    case ConnectFailed(c, _) => ClosesKeep(limits, th, sh, c);
    case RequestWritten(id) => FieldsKeep(limits, th, sh, sh.mapped[id].1, Fld(th, sh.mapped[id].1).(readEnable := true), Idle);
    case ResponseDone(c, _) => FieldsKeep(limits, th, sh, c, Fld(th, c).(state := Complete), Erasing(Fld(th, c).requestId));
    case Abort(id, _) =>
    case Eos(c, _) => ClosesKeep(limits, th, sh, c);
    case NetError(c) => ClosesKeep(limits, th, sh, c);
  }

  /** Between events every connection is free or serves a mapped intercept, never both; and every submitted
      intercept is queued, mapped, or done with. */
  lemma AtRest<I, C>(limits: Limits, th: Thread<I, C>, sh: Shared<I, C>)
    requires Local(limits, th, sh) && th.task == Idle
    ensures forall c :: c in th.conns ==> (c in th.available <==> !(th.conns[c].requestId in sh.mapped && sh.mapped[th.conns[c].requestId].1 == c))
    ensures forall i :: i in th.place ==> th.place[i] != InHand && (th.place[i] == Queued <==> i in th.queue)
    ensures |th.connections| <= limits.maxConn && Elements(th.connections) == th.conns.Keys
  {
    assert Held(th.task) + ToClose(th.task, th.closing) == {};
    hide Roles;
  }
}
