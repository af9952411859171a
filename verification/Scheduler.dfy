/**
  The actor scheduling protocol: per-service message queues, the global list of
  queues with work, the worker threads that dispatch them, the senders, and the
  reference counts that decide when a context and its queue go away.

  One identifier names a service: its handle, its context and its queue.  A
  task is one activity of a thread (a dispatch, a send, a launch, a retirement);
  every step of a task is one critical section or one atomic instruction.
 */
module Scheduler {
  import opened Common

  type Id = nat
  type Tid = nat
  type Msg = nat

  // What a task does next once it holds no reference.
  datatype Cont =
    | Idle                               // a worker without a queue
    | Finished
    | Holding(q: Id)                     // a worker with a queue, before grabbing its context
    | Dropping(q: Id, worker: bool)      // no context: about to release the queue
    | Launched(q: Id)                    // reference given up: about to set the context's init flag
    | PublishLoud(q: Id)                 // about to list the new queue, and to report the launch after it
    | Report(q: Id)                      // about to log the launch in the context's name
    | Publish(q: Id)                     // the context is gone already: about to list the new queue
    | RetireNew(q: Id)                   // failed launch: about to retire its handle

  datatype Task =
    | At(k: Cont)
    | Running(q: Id)                     // in the dispatch loop, about to take a message
    | Calling(q: Id)                     // inside the service's callback
    | Switch(q: Id)                      // loop over, about to look for another queue
    | Swap(q: Id, nq: Id)                // took another queue, about to list q again
    | Sending(q: Id, m: Msg)             // grabbed the receiver, about to push
    | Init(q: Id)                        // a new service's init function runs
    | Unref(q: Id, k: Cont)              // about to release the context
    | Deleting(q: Id, k: Cont)           // the count reached zero: about to mark the queue
    | Draining(q: Id, worker: bool)      // dropping the messages of a dead service
    | Freeing(q: Id, worker: bool)

  datatype Queue = Queue(msgs: seq<Msg>, inGlobal: bool, release: bool)

  // What has happened to the messages of a queue, for the statements only.
  datatype Log = Log(pushed: seq<Msg>, delivered: seq<Msg>, dropped: seq<Msg>)

  datatype State = State(
    queues: map<Id, Queue>, global: seq<Id>, refs: map<Id, nat>, table: set<Id>,
    tasks: map<Tid, Task>, logs: map<Id, Log>)

  datatype Choice =
    | Go                                 // the task's next step
    | Stop                               // leave the dispatch loop, or fail the launch
    | StartWorker
    | StartSend(q: Id, m: Msg)
    | StartRetire(q: Id)
    | StartLaunch(q: Id)

  const Start := State(map[], [], map[], {}, map[], map[])

  function Put(s: State, t: Tid, task: Task): State { s.(tasks := s.tasks[t := task]) }

  function SetQueue(s: State, q: Id, x: Queue): State { s.(queues := s.queues[q := x]) }

  // ---------------------------------------------------------------- the critical sections

  // skynet_globalmq_pop, by a worker that has nothing else to do.
  function PopGlobal(s: State, t: Tid): State {
    if s.global == [] then s else Put(s.(global := s.global[1..]), t, At(Holding(s.global[0])))
  }

  // skynet_handle_grab for a queue in hand.
  function Grab(s: State, t: Tid, q: Id): State {
    if q in s.table && q in s.refs
    then Put(s.(refs := s.refs[q := s.refs[q] + 1]), t, Running(q))
    else Put(s, t, At(Dropping(q, true)))
  }

  // skynet_mq_pop in the dispatch loop.
  function PopMessage(s: State, t: Tid, q: Id): State
    requires q in s.queues && q in s.logs
  {
    var x := s.queues[q];
    if x.msgs == []
    then Put(SetQueue(s, q, x.(inGlobal := false)), t, Unref(q, Idle))
    else Put(SetQueue(s, q, x.(msgs := x.msgs[1..])).(logs := s.logs[q := s.logs[q].(delivered := s.logs[q].delivered + [x.msgs[0]])]),
             t, Calling(q))
  }

  function LookFurther(s: State, t: Tid, q: Id): State {
    if s.global == []
    then Put(s, t, Unref(q, Holding(q)))
    else Put(s.(global := s.global[1..]), t, Swap(q, s.global[0]))
  }

  // skynet_mq_push by a sender that holds a reference.
  function PushMessage(s: State, t: Tid, q: Id, m: Msg): State
    requires q in s.queues && q in s.logs
  {
    var x := s.queues[q];
    Put(SetQueue(s, q, x.(msgs := x.msgs + [m], inGlobal := true))
          .(global := if x.inGlobal then s.global else s.global + [q],
            logs := s.logs[q := s.logs[q].(pushed := s.logs[q].pushed + [m])]),
        t, Unref(q, Finished))
  }

  // skynet_context_release: the decrement and its test.
  function Release(s: State, t: Tid, q: Id, k: Cont): State
    requires q in s.refs && s.refs[q] > 0
  {
    Put(s.(refs := s.refs[q := s.refs[q] - 1]), t, if s.refs[q] == 1 then Deleting(q, k) else At(k))
  }

  // delete_context: skynet_mq_mark_release, then the context is freed.
  function Delete(s: State, t: Tid, q: Id, k: Cont): State
    requires q in s.queues
  {
    var x := s.queues[q];
    Put(SetQueue(s, q, x.(release := true))
          .(global := if x.inGlobal then s.global else s.global + [q], refs := s.refs - {q}),
        t, At(Deleted(k)))
  }

  // A launcher whose release was the last one does not touch the context again.
  function Deleted(k: Cont): Cont { if k.Launched? then Publish(k.q) else k }

  function After(worker: bool): Cont { if worker then Idle else Finished }

  // skynet_mq_release: drain a queue whose context is gone, or list it again.
  function ReleaseQueue(s: State, t: Tid, q: Id, worker: bool): State
    requires q in s.queues
  {
    if s.queues[q].release
    then Put(s, t, Draining(q, worker))
    else Put(s.(global := s.global + [q]), t, At(After(worker)))
  }

  function Drain(s: State, t: Tid, q: Id, worker: bool): State
    requires q in s.queues && q in s.logs
  {
    var x := s.queues[q];
    if x.msgs == []
    then Put(SetQueue(s, q, x.(inGlobal := false)), t, Freeing(q, worker))
    else Put(SetQueue(s, q, x.(msgs := x.msgs[1..])).(logs := s.logs[q := s.logs[q].(dropped := s.logs[q].dropped + [x.msgs[0]])]),
             t, Draining(q, worker))
  }

  // skynet_handle_retire: the table's reference passes to the task.
  function Retire(s: State, t: Tid, q: Id, k: Cont): State {
    if q in s.table then Put(s.(table := s.table - {q}), t, Unref(q, k)) else Put(s, t, At(k))
  }

  // skynet_context_new up to the service's init function.
  function Launch(s: State, t: Tid, q: Id): State {
    Put(s.(queues := s.queues[q := Queue([], true, false)], refs := s.refs[q := 2], table := s.table + {q},
           logs := s.logs[q := Log([], [], [])]),
        t, Init(q))
  }

  // ---------------------------------------------------------------- one step

  // Identifiers are not used twice.
  predicate Fresh(s: State, q: Id) { q !in s.logs }

  function Begin(s: State, t: Tid, c: Choice): State
    requires t !in s.tasks
  {
    match c
    case StartWorker => Put(s, t, At(Idle))
    case StartSend(q, m) =>
      if q in s.table && q in s.refs then Put(s.(refs := s.refs[q := s.refs[q] + 1]), t, Sending(q, m)) else s
    case StartRetire(q) => Retire(s, t, q, Finished)
    case StartLaunch(q) => if Fresh(s, q) then Launch(s, t, q) else s
    case _ => s
  }

  function Step(s: State, t: Tid, c: Choice): State {
    if t !in s.tasks then Begin(s, t, c)
    else match s.tasks[t]
      case At(Idle) => PopGlobal(s, t)
      case At(Finished) => s
      case At(Holding(q)) => Grab(s, t, q)
      case At(Dropping(q, w)) => if q in s.queues then ReleaseQueue(s, t, q, w) else s
      case At(Launched(q)) => Put(s, t, At(PublishLoud(q)))
      case At(PublishLoud(q)) => Put(s.(global := s.global + [q]), t, At(Report(q)))
      case At(Report(q)) => Put(s, t, At(Finished))
      case At(Publish(q)) => Put(s.(global := s.global + [q]), t, At(Finished))
      case At(RetireNew(q)) => Retire(s, t, q, Dropping(q, false))
      case Running(q) => if q in s.queues && q in s.logs then PopMessage(s, t, q) else s
      case Calling(q) => Put(s, t, if c == Stop then Switch(q) else Running(q))
      case Switch(q) => LookFurther(s, t, q)
      case Swap(q, nq) => Put(s.(global := s.global + [q]), t, Unref(q, Holding(nq)))
      case Sending(q, m) => if q in s.queues && q in s.logs then PushMessage(s, t, q, m) else s
      case Init(q) => Put(s, t, Unref(q, if c == Stop then RetireNew(q) else Launched(q)))
      case Unref(q, k) => if q in s.refs && s.refs[q] > 0 then Release(s, t, q, k) else s
      case Deleting(q, k) => if q in s.queues then Delete(s, t, q, k) else s
      case Draining(q, w) => if q in s.queues && q in s.logs then Drain(s, t, q, w) else s
      case Freeing(q, w) => Put(s.(queues := s.queues - {q}), t, At(After(w)))
  }

  // A run: which task takes which step, in what order.
  function Run(s: State, steps: seq<(Tid, Choice)>): State
    decreases |steps|
  {
    if steps == [] then s else Run(Step(s, steps[0].0, steps[0].1), steps[1..])
  }

  // ---------------------------------------------------------------- the invariant

  function Owns(task: Task): set<Id> {
    match task
    case At(k) => OwnsNext(k)
    case Running(q) => {q}
    case Calling(q) => {q}
    case Switch(q) => {q}
    case Swap(q, nq) => {q, nq}
    case Sending(_, _) => {}
    case Init(q) => {q}
    case Unref(_, k) => OwnsNext(k)
    case Deleting(_, k) => OwnsNext(k)
    case Draining(q, _) => {q}
    case Freeing(q, _) => {q}
  }

  function OwnsNext(k: Cont): set<Id> {
    match k
    case Idle => {}
    case Finished => {}
    case Holding(q) => {q}
    case Dropping(q, _) => {q}
    case Launched(q) => {q}
    case PublishLoud(q) => {q}
    case Report(_) => {}
    case Publish(q) => {q}
    case RetireNew(q) => {q}
  }

  // The context a task holds a counted reference to.
  predicate Refers(task: Task, q: Id) {
    match task
    case Running(p) => p == q
    case Calling(p) => p == q
    case Switch(p) => p == q
    case Swap(p, _) => p == q
    case Sending(p, _) => p == q
    case Init(p) => p == q
    case Unref(p, _) => p == q
    case _ => false
  }

  ghost function Referrers(s: State, q: Id): set<Tid> { set t | t in s.tasks && Refers(s.tasks[t], q) }

  ghost predicate Owned(s: State, q: Id) { exists t :: t in s.tasks && q in Owns(s.tasks[t]) }

  // Every queue is in at most one place: once in the global list, or in the
  // hands of one task.
  ghost predicate Placement(s: State) {
    && NoDup(s.global)
    && (forall q :: q in s.global ==> q in s.queues)
    && (forall t, q :: t in s.tasks && q in Owns(s.tasks[t]) ==> q in s.queues && q !in s.global)
    && (forall t, u, q :: t in s.tasks && u in s.tasks && q in Owns(s.tasks[t]) && q in Owns(s.tasks[u]) ==> t == u)
    && (forall t :: t in s.tasks && s.tasks[t].Swap? ==> s.tasks[t].q != s.tasks[t].nq)
  }

  ghost predicate Placed(s: State, q: Id) { q in s.global || Owned(s, q) }

  ghost predicate Awake(x: Queue, placed: bool) {
    && (x.inGlobal || x.release ==> placed)
    && (placed && !x.release ==> x.inGlobal)
    && (x.msgs != [] ==> x.inGlobal || x.release)
  }

  // No wakeup is lost: a queue with messages, or marked for release, is placed.
  ghost predicate Wakeups(s: State) {
    forall q :: q in s.queues ==> Awake(s.queues[q], Placed(s, q))
  }

  // The count is exact, and while a context lives its queue is allocated and
  // not marked for release.
  ghost predicate Counted(s: State, q: Id, n: int) {
    && (q in s.refs ==>
          q in s.queues && !s.queues[q].release && s.refs[q] == n + (if q in s.table then 1 else 0))
    && (q in s.table ==> q in s.refs)
    && (q in s.queues && !s.queues[q].release ==> q in s.refs)
  }

  // What a task works with is still there: the context it refers to, the one
  // it is about to delete, the queue it drains.
  ghost predicate Backed(s: State, task: Task) {
    && (forall q :: Refers(task, q) ==> q in s.refs)
    && (task.Deleting? ==> task.q in s.refs && s.refs[task.q] == 0)
    && (task.Draining? || task.Freeing? ==> task.q in s.queues && s.queues[task.q].release)
    && (task.Freeing? ==> s.queues[task.q].msgs == [])
  }

  ghost predicate Counts(s: State) {
    && (forall q :: Counted(s, q, |Referrers(s, q)|))
    && (forall t :: t in s.tasks ==> Backed(s, s.tasks[t]))
    && (forall t, u ::
          t in s.tasks && u in s.tasks && s.tasks[t].Deleting? && s.tasks[u].Deleting? && s.tasks[t].q == s.tasks[u].q
          ==> t == u)
  }

  // Messages leave in the order they came, each once: delivered, or dropped
  // after the context is gone; nothing is left in a freed queue.
  ghost predicate Accounted(s: State, q: Id) {
    && (q in s.queues ==> q in s.logs)
    && (q in s.logs ==>
          s.logs[q].pushed == s.logs[q].delivered + s.logs[q].dropped + (if q in s.queues then s.queues[q].msgs else []))
    && (q in s.queues && s.logs[q].dropped != [] ==> s.queues[q].release)
  }

  ghost predicate History(s: State) { forall q :: Accounted(s, q) }

  ghost predicate Inv(s: State) { Placement(s) && Wakeups(s) && Counts(s) && History(s) }

  // ---------------------------------------------------------------- one task changes

  ghost function Before(s: State, t: Tid): set<Id> { if t in s.tasks then Owns(s.tasks[t]) else {} }

  predicate Referred(s: State, t: Tid, q: Id) { t in s.tasks && Refers(s.tasks[t], q) }

  lemma CountPut(s: State, u: State, t: Tid, task: Task)
    requires u.tasks == s.tasks[t := task]
    ensures forall q :: |Referrers(u, q)| ==
              |Referrers(s, q)| - (if Referred(s, t, q) then 1 else 0) + (if Refers(task, q) then 1 else 0)
  {
    forall q ensures |Referrers(u, q)| ==
              |Referrers(s, q)| - (if Referred(s, t, q) then 1 else 0) + (if Refers(task, q) then 1 else 0)
    {
      CountOne(s, u, t, task, q);
    }
  }

  lemma CountOne(s: State, u: State, t: Tid, task: Task, q: Id)
    requires u.tasks == s.tasks[t := task]
    ensures |Referrers(u, q)| ==
            |Referrers(s, q)| - (if Referred(s, t, q) then 1 else 0) + (if Refers(task, q) then 1 else 0)
  {
    hide Refers;
    var r := Referrers(s, q) - {t};
    assert Referrers(s, q) == if Referred(s, t, q) then r + {t} else r;
    assert Referrers(u, q) == if Refers(task, q) then r + {t} else r;
  }

  lemma OwnedPut(s: State, u: State, t: Tid, task: Task)
    requires Placement(s) && u.tasks == s.tasks[t := task]
    ensures forall q :: Owned(u, q) <==> q in Owns(task) || (Owned(s, q) && q !in Before(s, t))
  {
    forall q ensures Owned(u, q) <==> q in Owns(task) || (Owned(s, q) && q !in Before(s, t)) {
      if q in Owns(task) { assert t in u.tasks && q in Owns(u.tasks[t]); }
      if Owned(s, q) && q !in Before(s, t) {
        var v :| v in s.tasks && q in Owns(s.tasks[v]);
        assert v in u.tasks && q in Owns(u.tasks[v]);
      }
      if Owned(u, q) && q !in Owns(task) {
        var v :| v in u.tasks && q in Owns(u.tasks[v]);
        assert v in s.tasks && q in Owns(s.tasks[v]);
      }
    }
  }

  // Queues move between the global list and the hands of one task.
  lemma PlacementPut(s: State, u: State, t: Tid, task: Task)
    requires Placement(s) && u.tasks == s.tasks[t := task]
    requires NoDup(u.global) && (forall q :: q in u.global ==> q in u.queues)
    requires forall q :: q in u.global && q !in s.global ==> q in Before(s, t) || (q in s.queues && !Owned(s, q))
    requires forall q :: q in Owns(task) ==> q in u.queues && q !in u.global && (q in Before(s, t) || q in s.global || q !in s.queues)
    requires forall q :: q in s.queues && q !in u.queues ==> q in Before(s, t)
    requires task.Swap? ==> task.q != task.nq
    ensures Placement(u)
  {
    forall v, q | v in u.tasks && q in Owns(u.tasks[v]) ensures q in u.queues && q !in u.global {
      if v != t { assert v in s.tasks && q in Owns(s.tasks[v]); }
    }
    forall v, w, q | v in u.tasks && w in u.tasks && q in Owns(u.tasks[v]) && q in Owns(u.tasks[w]) ensures v == w {
      if v != t { assert v in s.tasks && q in Owns(s.tasks[v]); }
      if w != t { assert w in s.tasks && q in Owns(s.tasks[w]); }
    }
  }

  // Nothing but service q is touched.
  ghost predicate Same(s: State, u: State, q: Id) {
    forall p :: p != q ==>
      && (p in u.queues <==> p in s.queues) && (p in s.queues ==> u.queues[p] == s.queues[p])
      && (p in u.refs <==> p in s.refs) && (p in s.refs ==> u.refs[p] == s.refs[p])
      && (p in u.table <==> p in s.table)
      && (p in u.logs <==> p in s.logs) && (p in s.logs ==> u.logs[p] == s.logs[p])
  }

  lemma WakeupsPut(s: State, u: State, t: Tid, task: Task, q: Id)
    requires Placement(s) && Wakeups(s) && u.tasks == s.tasks[t := task] && Same(s, u, q)
    requires forall p :: p != q ==> ((p in u.global || p in Owns(task)) <==> (p in s.global || p in Before(s, t)))
    requires q in u.queues ==>
               Awake(u.queues[q], q in u.global || q in Owns(task) || (Owned(s, q) && q !in Before(s, t)))
    ensures Wakeups(u)
  {
    OwnedPut(s, u, t, task);
    hide Placement, Owned;
    forall p | p in u.queues ensures Awake(u.queues[p], Placed(u, p)) {
      if p != q { assert Awake(s.queues[p], Placed(s, p)) && (Placed(u, p) <==> Placed(s, p)) by { BeforeOwned(s, t, p); } }
    }
  }

  lemma BeforeOwned(s: State, t: Tid, p: Id)
    ensures p in Before(s, t) ==> Owned(s, p)
  {
  }

  ghost function Moved(s: State, t: Tid, task: Task, q: Id): int {
    |Referrers(s, q)| - (if Referred(s, t, q) then 1 else 0) + (if Refers(task, q) then 1 else 0)
  }

  lemma CountsPut(s: State, u: State, t: Tid, task: Task, q: Id)
    requires Counts(s) && u.tasks == s.tasks[t := task] && Same(s, u, q)
    requires forall p :: p != q ==> (Refers(task, p) <==> Referred(s, t, p))
    requires Counted(u, q, Moved(s, t, task, q)) && Backed(u, task)
    requires forall v :: v in s.tasks && v != t ==> Backed(u, s.tasks[v])
    requires forall v :: v in s.tasks && v != t && task.Deleting? && s.tasks[v].Deleting? ==> s.tasks[v].q != task.q
    ensures Counts(u)
  {
    CountPut(s, u, t, task);
    hide Backed, Referrers;
    forall p ensures Counted(u, p, |Referrers(u, p)|) {
      assert Counted(s, p, |Referrers(s, p)|);
    }
  }

  // Tasks other than t keep what they work with when only q's count or queue
  // changes and q stays in use.
  lemma BackedStays(s: State, u: State, t: Tid, q: Id)
    requires Counts(s) && Same(s, u, q)
    requires q in s.refs ==> q in u.refs
    requires q in s.refs && s.refs[q] == 0 ==> u.refs[q] == 0
    requires q in s.queues && s.queues[q].release ==>
               q in u.queues && u.queues[q].release && (s.queues[q].msgs == [] ==> u.queues[q].msgs == [])
    ensures forall v :: v in s.tasks && v != t ==> Backed(u, s.tasks[v])
  {
    hide Referrers, Counted;
    forall v | v in s.tasks && v != t ensures Backed(u, s.tasks[v]) { assert Backed(s, s.tasks[v]); }
  }

  lemma HistoryPut(s: State, u: State, q: Id)
    requires History(s) && Same(s, u, q) && Accounted(u, q)
    ensures History(u)
  {
    forall p ensures Accounted(u, p) { assert Accounted(s, p); }
  }

  // How one step may move queues: the global list stays, loses its first
  // queue to the task, or gets q from the task or from nowhere; the task gives
  // up nothing but q.
  ghost predicate Moves(s: State, u: State, t: Tid, task: Task, q: Id) {
    && (|| u.global == s.global
        || (s.global != [] && u.global == s.global[1..] && s.global[0] in Owns(task))
        || (u.global == s.global + [q] && q in u.queues && q !in s.global && q !in Owns(task) &&
            (q in Before(s, t) || (q in s.queues && !Owned(s, q)))))
    && (forall p :: p in Owns(task) ==>
          p in Before(s, t) || (s.global != [] && p == s.global[0] && u.global == s.global[1..]) || (p == q && q !in s.queues && q in u.queues))
    && (forall p :: p in Before(s, t) && p !in Owns(task) ==> p == q)
    && (q in s.queues && q !in u.queues ==> q in Before(s, t) && q !in Owns(task) && u.global == s.global)
    && (task.Swap? ==> task.q != task.nq)
  }

  lemma PlacementMoves(s: State, u: State, t: Tid, task: Task, q: Id)
    requires Placement(s) && u.tasks == s.tasks[t := task] && Same(s, u, q) && Moves(s, u, t, task, q)
    ensures Placement(u)
    ensures forall p :: p != q ==> ((p in u.global || p in Owns(task)) <==> (p in s.global || p in Before(s, t)))
  {
    assert s.global != [] ==> s.global[0] in s.global && forall p :: p in s.global <==> p == s.global[0] || p in s.global[1..];
    assert forall p :: p in s.global + [q] <==> p in s.global || p == q;
    assert s.global != [] ==> s.global[0] !in s.global[1..];
    PlacementPut(s, u, t, task);
  }

  ghost predicate Locally(s: State, u: State, t: Tid, task: Task, q: Id) {
    && (q in u.queues ==>
          Awake(u.queues[q], q in u.global || q in Owns(task) || (Owned(s, q) && q !in Before(s, t))))
    && (forall p :: p != q ==> (Refers(task, p) <==> Referred(s, t, p)))
    && Counted(u, q, Moved(s, t, task, q)) && Backed(u, task) && Accounted(u, q)
  }

  // A step of task t that touches service q keeps the invariant if it does so
  // for q and t.
  lemma PutInv(s: State, u: State, t: Tid, task: Task, q: Id)
    requires Inv(s) && u.tasks == s.tasks[t := task] && Same(s, u, q)
    requires Moves(s, u, t, task, q) && Locally(s, u, t, task, q)
    requires forall v :: v in s.tasks && v != t ==> Backed(u, s.tasks[v])
    requires forall v :: v in s.tasks && v != t && task.Deleting? && s.tasks[v].Deleting? ==> s.tasks[v].q != task.q
    ensures Inv(u)
  {
    PlacementMoves(s, u, t, task, q);
    hide Moves;
    assert Wakeups(u) by { hide Counts, History, Backed, Counted; WakeupsPut(s, u, t, task, q); }
    assert Counts(u) by { hide Placement, Wakeups, History, Awake, Counted; CountsPut(s, u, t, task, q); }
    assert History(u) by { hide Placement, Wakeups, Counts; HistoryPut(s, u, q); }
  }

  // What the invariant says about one task and one service.
  lemma Facts(s: State, t: Tid, q: Id)
    requires Inv(s)
    ensures Counted(s, q, |Referrers(s, q)|) && Accounted(s, q)
    ensures q in s.queues ==> Awake(s.queues[q], Placed(s, q))
    ensures t in s.tasks ==> Backed(s, s.tasks[t])
    ensures forall p :: p in Before(s, t) ==> p in s.queues && p !in s.global && Owned(s, p)
    ensures s.global != [] ==> s.global[0] in s.queues && s.global[0] !in Before(s, t) && s.global[0] in s.global
    ensures q in s.global ==> q in s.queues && !Owned(s, q)
    ensures Referred(s, t, q) ==> |Referrers(s, q)| > 0
  {
    forall p | p in Before(s, t) ensures Owned(s, p) { BeforeOwned(s, t, p); }
    if Referred(s, t, q) { assert t in Referrers(s, q); }
    assert s.global != [] ==> s.global[0] in s.global;
  }

  lemma BackedStaysInv(s: State, u: State, t: Tid, q: Id)
    requires Inv(s) && Same(s, u, q)
    requires q in s.refs ==> q in u.refs
    requires q in s.refs && s.refs[q] == 0 ==> u.refs[q] == 0
    requires q in s.queues && s.queues[q].release ==>
               q in u.queues && u.queues[q].release && (s.queues[q].msgs == [] ==> u.queues[q].msgs == [])
    ensures forall v :: v in s.tasks && v != t ==> Backed(u, s.tasks[v])
  {
    BackedStays(s, u, t, q);
  }

  // ---------------------------------------------------------------- every step keeps the invariant

  lemma PopGlobalInv(s: State, t: Tid)
    requires Inv(s) && t in s.tasks && s.tasks[t] == At(Idle)
    ensures Inv(PopGlobal(s, t))
  {
    hide Inv, Referrers, Owned;
    if s.global != [] {
      var u := PopGlobal(s, t);
      var q := s.global[0];
      Facts(s, t, q);
      BackedStaysInv(s, u, t, q);
      PutInv(s, u, t, u.tasks[t], q);
    }
  }

  lemma GrabInv(s: State, t: Tid, q: Id)
    requires Inv(s) && t in s.tasks && s.tasks[t] == At(Holding(q))
    ensures Inv(Grab(s, t, q))
  {
    hide Inv, Referrers, Owned;
    var u := Grab(s, t, q);
    Facts(s, t, q);
    assert u.queues == s.queues && u.global == s.global && u.logs == s.logs;
    BackedStaysInv(s, u, t, q);
    if q in s.table && q in s.refs {
      PutInv(s, u, t, Running(q), q);
    } else {
      PutInv(s, u, t, At(Dropping(q, true)), q);
    }
  }

  lemma PopMessageInv(s: State, t: Tid, q: Id)
    requires Inv(s) && t in s.tasks && s.tasks[t] == Running(q) && q in s.queues && q in s.logs
    ensures Inv(PopMessage(s, t, q))
  {
    hide Inv, Referrers, Owned;
    if s.queues[q].msgs == [] { PopEmptyInv(s, t, q); } else { PopFirstInv(s, t, q); }
  }

  lemma PopEmptyInv(s: State, t: Tid, q: Id)
    requires Inv(s) && t in s.tasks && s.tasks[t] == Running(q) && q in s.queues && q in s.logs && s.queues[q].msgs == []
    ensures Inv(PopMessage(s, t, q))
  {
    hide Inv, Referrers, Owned;
    var u := PopMessage(s, t, q);
    Facts(s, t, q);
    BackedStaysInv(s, u, t, q);
    PutInv(s, u, t, Unref(q, Idle), q);
  }

  lemma PopFirstInv(s: State, t: Tid, q: Id)
    requires Inv(s) && t in s.tasks && s.tasks[t] == Running(q) && q in s.queues && q in s.logs && s.queues[q].msgs != []
    ensures Inv(PopMessage(s, t, q))
  {
    hide Inv, Referrers, Owned;
    var u := PopMessage(s, t, q);
    Facts(s, t, q);
    BackedStaysInv(s, u, t, q);
    PutInv(s, u, t, Calling(q), q);
  }

  lemma LookFurtherInv(s: State, t: Tid, q: Id)
    requires Inv(s) && t in s.tasks && s.tasks[t] == Switch(q)
    ensures Inv(LookFurther(s, t, q))
  {
    hide Inv, Referrers, Owned;
    var u := LookFurther(s, t, q);
    Facts(s, t, q);
    BackedStaysInv(s, u, t, q);
    PutInv(s, u, t, u.tasks[t], q);
  }

  lemma PushMessageInv(s: State, t: Tid, q: Id, m: Msg)
    requires Inv(s) && t in s.tasks && s.tasks[t] == Sending(q, m) && q in s.queues && q in s.logs
    ensures Inv(PushMessage(s, t, q, m))
  {
    hide Inv, Referrers, Owned;
    var u := PushMessage(s, t, q, m);
    Facts(s, t, q);
    BackedStaysInv(s, u, t, q);
    PutInv(s, u, t, u.tasks[t], q);
  }

  lemma ReleaseInv(s: State, t: Tid, q: Id, k: Cont)
    requires Inv(s) && t in s.tasks && s.tasks[t] == Unref(q, k) && q in s.refs && s.refs[q] > 0
    ensures Inv(Release(s, t, q, k))
  {
    hide Inv, Referrers, Owned;
    var u := Release(s, t, q, k);
    Facts(s, t, q);
    NoDeleter(s, q);
    hide OwnsNext;
    BackedStaysInv(s, u, t, q);
    PutInv(s, u, t, if s.refs[q] == 1 then Deleting(q, k) else At(k), q);
  }

  lemma DeleteInv(s: State, t: Tid, q: Id, k: Cont)
    requires Inv(s) && t in s.tasks && s.tasks[t] == Deleting(q, k) && q in s.queues
    ensures Inv(Delete(s, t, q, k))
  {
    hide Inv, Referrers, Owned;
    var u := Delete(s, t, q, k);
    Facts(s, t, q);
    LastDeleter(s, u, t, q);
    assert OwnsNext(Deleted(k)) == OwnsNext(k);
    hide Deleted, OwnsNext;
    PutInv(s, u, t, At(Deleted(k)), q);
  }

  // A task that changes neither services nor lists.
  lemma GoOnInv(s: State, t: Tid, task: Task, q: Id)
    requires Inv(s) && Owns(task) == Before(s, t) && Backed(s, task)
    requires (forall p :: Refers(task, p) <==> Referred(s, t, p)) && !task.Swap? && !task.Deleting?
    ensures Inv(Put(s, t, task))
  {
    hide Inv, Referrers, Owned;
    var u := Put(s, t, task);
    Facts(s, t, q);
    BackedStaysInv(s, u, t, q);
    assert Backed(u, task);
    PutInv(s, u, t, task, q);
  }

  lemma ReleaseQueueInv(s: State, t: Tid, q: Id, w: bool)
    requires Inv(s) && t in s.tasks && s.tasks[t] == At(Dropping(q, w)) && q in s.queues
    ensures Inv(ReleaseQueue(s, t, q, w))
  {
    hide Inv;
    if s.queues[q].release {
      GoOnInv(s, t, Draining(q, w), q);
    } else {
      ListInv(s, t, q, At(After(w)));
    }
  }

  lemma DrainOneInv(s: State, t: Tid, q: Id, w: bool)
    requires Inv(s) && t in s.tasks && s.tasks[t] == Draining(q, w) && q in s.queues && q in s.logs && s.queues[q].msgs != []
    ensures Inv(Drain(s, t, q, w))
  {
    hide Inv, Referrers, Owned;
    var u := Drain(s, t, q, w);
    Facts(s, t, q);
    BackedStaysInv(s, u, t, q);
    PutInv(s, u, t, Draining(q, w), q);
  }

  lemma DrainEndInv(s: State, t: Tid, q: Id, w: bool)
    requires Inv(s) && t in s.tasks && s.tasks[t] == Draining(q, w) && q in s.queues && q in s.logs && s.queues[q].msgs == []
    ensures Inv(Drain(s, t, q, w))
  {
    hide Inv, Referrers, Owned;
    var u := Drain(s, t, q, w);
    Facts(s, t, q);
    BackedStaysInv(s, u, t, q);
    PutInv(s, u, t, Freeing(q, w), q);
  }

  lemma RetireInv(s: State, t: Tid, q: Id, k: Cont)
    requires Inv(s) && (t in s.tasks ==> s.tasks[t].At?) && OwnsNext(k) == Before(s, t)
    ensures Inv(Retire(s, t, q, k))
  {
    hide Inv, Referrers, Owned;
    if q in s.table {
      var u := Put(s.(table := s.table - {q}), t, Unref(q, k));
      Facts(s, t, q);
      BackedStaysInv(s, u, t, q);
      PutInv(s, u, t, Unref(q, k), q);
    } else {
      GoOnInv(s, t, At(k), q);
    }
  }

  lemma FreeInv(s: State, t: Tid, q: Id, w: bool)
    requires Inv(s) && t in s.tasks && s.tasks[t] == Freeing(q, w)
    ensures Inv(Put(s.(queues := s.queues - {q}), t, At(After(w))))
  {
    hide Inv, Referrers, Owned;
    var u := Put(s.(queues := s.queues - {q}), t, At(After(w)));
    Facts(s, t, q);
    LastDrainer(s, u, t, q);
    PutInv(s, u, t, u.tasks[t], q);
  }

  lemma LaunchInv(s: State, t: Tid, q: Id)
    requires Inv(s) && t !in s.tasks && Fresh(s, q)
    ensures Inv(Launch(s, t, q))
  {
    hide Inv, Referrers, Owned;
    var u := Launch(s, t, q);
    Facts(s, t, q);
    Unreferred(s, q);
    BackedStaysInv(s, u, t, q);
    PutInv(s, u, t, u.tasks[t], q);
  }

  lemma SendInv(s: State, t: Tid, q: Id, m: Msg)
    requires Inv(s) && t !in s.tasks && q in s.table && q in s.refs
    ensures Inv(Put(s.(refs := s.refs[q := s.refs[q] + 1]), t, Sending(q, m)))
  {
    hide Inv, Referrers, Owned;
    var u := Put(s.(refs := s.refs[q := s.refs[q] + 1]), t, Sending(q, m));
    Facts(s, t, q);
    BackedStaysInv(s, u, t, q);
    PutInv(s, u, t, u.tasks[t], q);
  }

  // Listing a queue again that was in hand.
  lemma ListInv(s: State, t: Tid, q: Id, task: Task)
    requires Inv(s) && t in s.tasks && q in Owns(s.tasks[t]) && Owns(task) == Owns(s.tasks[t]) - {q}
    requires (forall p :: Refers(task, p) <==> Refers(s.tasks[t], p)) && (task.At? || task.Unref?)
    requires q in s.queues ==> !s.queues[q].release || s.tasks[t].At?
    ensures Inv(Put(s.(global := s.global + [q]), t, task))
  {
    hide Inv, Referrers, Owned;
    var u := Put(s.(global := s.global + [q]), t, task);
    Facts(s, t, q);
    BackedStaysInv(s, u, t, q);
    PutInv(s, u, t, task, q);
  }

  lemma Unreferred(s: State, q: Id)
    requires Inv(s) && q !in s.refs
    ensures |Referrers(s, q)| == 0
  {
    forall v | v in s.tasks ensures !Refers(s.tasks[v], q) { assert Backed(s, s.tasks[v]); }
    assert Referrers(s, q) == {};
  }

  lemma NoDeleter(s: State, q: Id)
    requires Inv(s) && q in s.refs && s.refs[q] > 0
    ensures forall v :: v in s.tasks && s.tasks[v].Deleting? ==> s.tasks[v].q != q
  {
    forall v | v in s.tasks && s.tasks[v].Deleting? ensures s.tasks[v].q != q { assert Backed(s, s.tasks[v]); }
  }

  // When the count is zero nobody else works with the context.
  lemma LastDeleter(s: State, u: State, t: Tid, q: Id)
    requires Inv(s) && t in s.tasks && s.tasks[t].Deleting? && s.tasks[t].q == q && Same(s, u, q)
    requires q in s.queues && q in u.queues && u.queues[q] == s.queues[q].(release := true)
    ensures forall v :: v in s.tasks && v != t ==> Backed(u, s.tasks[v])
    ensures q in s.refs && s.refs[q] == 0 && Referrers(s, q) == {} && q !in s.table
    ensures !s.queues[q].release
  {
    assert Backed(s, s.tasks[t]) && Counted(s, q, |Referrers(s, q)|);
    forall v | v in s.tasks && v != t ensures Backed(u, s.tasks[v]) {
      assert Backed(s, s.tasks[v]);
      assert v !in Referrers(s, q);
    }
  }

  lemma LastDrainer(s: State, u: State, t: Tid, q: Id)
    requires Inv(s) && t in s.tasks && s.tasks[t].Freeing? && s.tasks[t].q == q && Same(s, u, q)
    requires u.refs == s.refs
    ensures forall v :: v in s.tasks && v != t ==> Backed(u, s.tasks[v])
    ensures q in s.queues && s.queues[q].release && s.queues[q].msgs == [] && q !in s.refs
  {
    assert Backed(s, s.tasks[t]) && Counted(s, q, |Referrers(s, q)|);
    forall v | v in s.tasks && v != t ensures Backed(u, s.tasks[v]) {
      assert Backed(s, s.tasks[v]);
      assert q in Owns(s.tasks[t]) && (q in Owns(s.tasks[v]) ==> v == t);
    }
  }

  lemma BeginInv(s: State, t: Tid, c: Choice)
    requires Inv(s) && t !in s.tasks
    ensures Inv(Begin(s, t, c))
  {
    hide Inv;
    match c
    case StartWorker => GoOnInv(s, t, At(Idle), 0);
    case StartSend(q, m) => if q in s.table && q in s.refs { SendInv(s, t, q, m); }
    case StartRetire(q) => RetireInv(s, t, q, Finished);
    case StartLaunch(q) => if Fresh(s, q) { LaunchInv(s, t, q); }
    case _ =>
  }

  // The step of a task that exists, up to the ones that only move on.
  lemma StepInv(s: State, t: Tid, c: Choice)
    requires Inv(s)
    ensures Inv(Step(s, t, c))
  {
    hide Inv, PopGlobal, Grab, PopMessage, LookFurther, PushMessage, Release, Delete, ReleaseQueue, Drain, Retire;
    if t !in s.tasks {
      BeginInv(s, t, c);
    } else {
      TaskFacts(s, t);
      match s.tasks[t]
      case At(Idle) => PopGlobalInv(s, t);
      case At(Finished) =>
      case At(Holding(q)) => GrabInv(s, t, q);
      case At(Dropping(q, w)) => ReleaseQueueInv(s, t, q, w);
      case At(Launched(q)) => GoOnInv(s, t, At(PublishLoud(q)), q);
      case At(PublishLoud(q)) => ListInv(s, t, q, At(Report(q)));
      case At(Report(q)) => GoOnInv(s, t, At(Finished), q);
      case At(Publish(q)) => ListInv(s, t, q, At(Finished));
      case At(RetireNew(q)) => RetireInv(s, t, q, Dropping(q, false));
      case Running(q) => PopMessageInv(s, t, q);
      case Calling(q) => GoOnInv(s, t, if c == Stop then Switch(q) else Running(q), q);
      case Switch(q) => LookFurtherInv(s, t, q);
      case Swap(q, nq) => ListInv(s, t, q, Unref(q, Holding(nq)));
      case Sending(q, m) => PushMessageInv(s, t, q, m);
      case Init(q) => GoOnInv(s, t, Unref(q, if c == Stop then RetireNew(q) else Launched(q)), q);
      case Unref(q, k) => ReleaseInv(s, t, q, k);
      case Deleting(q, k) => DeleteInv(s, t, q, k);
      case Draining(q, w) => if s.queues[q].msgs == [] { DrainEndInv(s, t, q, w); } else { DrainOneInv(s, t, q, w); }
      case Freeing(q, w) => FreeInv(s, t, q, w);
    }
  }

  // Whatever a task is about to touch is allocated.
  lemma TaskFacts(s: State, t: Tid)
    requires Inv(s) && t in s.tasks
    ensures Backed(s, s.tasks[t])
    ensures forall q :: Refers(s.tasks[t], q) ==> q in s.queues && q in s.logs && s.refs[q] > 0 && !s.queues[q].release
    ensures forall q :: q in Owns(s.tasks[t]) ==> q in s.queues && q in s.logs
    ensures s.tasks[t].Deleting? ==> s.tasks[t].q in s.queues && !s.queues[s.tasks[t].q].release
    ensures s.tasks[t].Swap? ==> s.tasks[t].q != s.tasks[t].nq
  {
    var task := s.tasks[t];
    assert Backed(s, task);
    forall q | Refers(task, q) || (task.Deleting? && task.q == q)
      ensures q in s.queues && q in s.logs && !s.queues[q].release && (Refers(task, q) ==> s.refs[q] > 0)
    {
      assert Counted(s, q, |Referrers(s, q)|) && Accounted(s, q);
      if Refers(task, q) { assert t in Referrers(s, q); }
    }
    forall q | q in Owns(task) ensures q in s.queues && q in s.logs { assert Accounted(s, q); }
  }

  // ---------------------------------------------------------------- every run

  lemma RunInv(s: State, steps: seq<(Tid, Choice)>)
    requires Inv(s)
    ensures Inv(Run(s, steps))
    decreases |steps|
  {
    hide Inv;
    if steps != [] {
      StepInv(s, steps[0].0, steps[0].1);
      RunInv(Step(s, steps[0].0, steps[0].1), steps[1..]);
    }
  }

  lemma StartInv()
    ensures Inv(Start)
  {
    forall q ensures Referrers(Start, q) == {} {}
  }

  // Two tasks never run the callback of one service at the same time, and a
  // queue is never in two places.
  lemma Exclusive(steps: seq<(Tid, Choice)>, t: Tid, u: Tid, q: Id)
    ensures var s := Run(Start, steps);
            && NoDup(s.global)
            && (t in s.tasks && u in s.tasks && s.tasks[t] == Calling(q) && s.tasks[u] == Calling(q) ==> t == u)
            && (t in s.tasks && u in s.tasks && q in Owns(s.tasks[t]) && q in Owns(s.tasks[u]) ==> t == u)
            && (t in s.tasks && q in Owns(s.tasks[t]) ==> q !in s.global)
  {
    StartInv();
    RunInv(Start, steps);
    var s := Run(Start, steps);
    assert t in s.tasks && s.tasks[t] == Calling(q) ==> q in Owns(s.tasks[t]);
  }

  // Every queue that a task owns and every context that it has a reference to, or
  // is about to delete, is still allocated.
  lemma NeverFreedInUse(steps: seq<(Tid, Choice)>, t: Tid, q: Id)
    ensures var s := Run(Start, steps);
            t in s.tasks ==>
              && (q in Owns(s.tasks[t]) ==> q in s.queues)
              && (Refers(s.tasks[t], q) ==> q in s.queues && q in s.refs)
              && (s.tasks[t].Deleting? && s.tasks[t].q == q ==> q in s.queues && q in s.refs && !s.queues[q].release)
  {
    StartInv();
    RunInv(Start, steps);
    var s := Run(Start, steps);
    if t in s.tasks { TaskFacts(s, t); }
  }

  // ---------------------------------------------------------------- touching without a reference

  // A launcher writes to the context, and logs in its name, after it has given
  // up its reference.
  predicate Touches(task: Task, q: Id) { task == At(Launched(q)) || task == At(Report(q)) }

  predicate Deletes(s: State, t: Tid, q: Id) { t in s.tasks && s.tasks[t].Deleting? && s.tasks[t].q == q }

  // A context whose count is zero is about to be deleted by some task.
  ghost predicate Zeroes(s: State) {
    forall q :: q in s.refs && s.refs[q] == 0 ==> exists t :: Deletes(s, t, q)
  }

  // A count that is zero after a step was so before, or this task has just made
  // it so and goes on to delete the context.
  ghost predicate ZeroStays(s: State, u: State, t: Tid, q: Id) {
    q in u.refs && u.refs[q] == 0 ==> Deletes(u, t, q) || (q in s.refs && s.refs[q] == 0 && !Deletes(s, t, q))
  }

  lemma ZeroAt(s: State, t: Tid, c: Choice, q: Id)
    requires t !in s.tasks || s.tasks[t].At?
    ensures ZeroStays(s, Step(s, t, c), t, q)
  {
  }

  lemma ZeroBusy(s: State, t: Tid, c: Choice, q: Id)
    requires t in s.tasks && !s.tasks[t].At? && (s.tasks[t].Deleting? ==> s.tasks[t].q in s.queues)
    ensures ZeroStays(s, Step(s, t, c), t, q)
  {
    hide Begin, PopGlobal, Grab, ReleaseQueue, Retire;
    if !s.tasks[t].Unref? && !s.tasks[t].Deleting? { assert Step(s, t, c).refs == s.refs; }
  }

  // A step leaves the other tasks alone.
  lemma OthersStay(s: State, t: Tid, c: Choice, v: Tid)
    requires v != t && v in s.tasks
    ensures var u := Step(s, t, c); v in u.tasks && u.tasks[v] == s.tasks[v]
  {
    hide Step;
    if t in s.tasks && !s.tasks[t].At? { OthersBusy(s, t, c, v); } else { OthersAt(s, t, c, v); }
  }

  lemma OthersAt(s: State, t: Tid, c: Choice, v: Tid)
    requires v != t && v in s.tasks && (t in s.tasks ==> s.tasks[t].At?)
    ensures var u := Step(s, t, c); v in u.tasks && u.tasks[v] == s.tasks[v]
  {
    hide PopMessage, PushMessage, Delete, Drain, LookFurther, Release;
  }

  lemma OthersBusy(s: State, t: Tid, c: Choice, v: Tid)
    requires v != t && v in s.tasks && t in s.tasks && !s.tasks[t].At?
    ensures var u := Step(s, t, c); v in u.tasks && u.tasks[v] == s.tasks[v]
  {
    hide Step;
    if UsesQueue(s.tasks[t]) { OthersQueue(s, t, c, v); } else { OthersPlain(s, t, c, v); }
  }

  ghost predicate UsesQueue(task: Task) {
    task.Running? || task.Sending? || task.Deleting? || task.Draining?
  }

  lemma OthersQueue(s: State, t: Tid, c: Choice, v: Tid)
    requires v != t && v in s.tasks && t in s.tasks && UsesQueue(s.tasks[t])
    ensures var u := Step(s, t, c); v in u.tasks && u.tasks[v] == s.tasks[v]
  {
    hide Begin, PopGlobal, Grab, ReleaseQueue, Retire, LookFurther, Release;
  }

  lemma OthersPlain(s: State, t: Tid, c: Choice, v: Tid)
    requires v != t && v in s.tasks && t in s.tasks && !s.tasks[t].At? && !UsesQueue(s.tasks[t])
    ensures var u := Step(s, t, c); v in u.tasks && u.tasks[v] == s.tasks[v]
  {
    hide Begin, PopGlobal, Grab, ReleaseQueue, Retire, PopMessage, PushMessage, Delete, Drain;
  }

  lemma StepZeroes(s: State, t: Tid, c: Choice)
    requires Inv(s) && Zeroes(s)
    ensures Zeroes(Step(s, t, c))
  {
    hide Step;
    var u := Step(s, t, c);
    if t in s.tasks { TaskFacts(s, t); }
    hide Inv;
    forall q | q in u.refs && u.refs[q] == 0 ensures exists v :: Deletes(u, v, q) {
      if t in s.tasks && !s.tasks[t].At? { ZeroBusy(s, t, c, q); } else { ZeroAt(s, t, c, q); }
      if !Deletes(u, t, q) {
        var v :| Deletes(s, v, q);
        OthersStay(s, t, c, v);
        assert Deletes(u, v, q);
      }
    }
  }

  lemma {:induction false} RunZeroes(s: State, steps: seq<(Tid, Choice)>)
    requires Inv(s) && Zeroes(s)
    ensures Zeroes(Run(s, steps))
    decreases |steps|
  {
    hide Inv, Zeroes, Step;
    if steps != [] {
      StepZeroes(s, steps[0].0, steps[0].1);
      StepInv(s, steps[0].0, steps[0].1);
      RunZeroes(Step(s, steps[0].0, steps[0].1), steps[1..]);
    }
  }

  // In every run a context is allocated if and only if it is still registered,
  // some task has a reference to it, or some task is just about to delete it.
  // That is the condition under which a launcher's touch finds it.
  lemma AllocatedExactly(steps: seq<(Tid, Choice)>, q: Id)
    ensures var s := Run(Start, steps);
      q in s.refs <==> q in s.table || (exists t :: t in s.tasks && Refers(s.tasks[t], q)) || exists t :: Deletes(s, t, q)
  {
    StartInv();
    RunInv(Start, steps);
    RunZeroes(Start, steps);
    var s := Run(Start, steps);
    hide Run;
    assert Counted(s, q, |Referrers(s, q)|);
    if q in s.refs && q !in s.table && !exists t :: t in s.tasks && Refers(s.tasks[t], q) {
      assert Referrers(s, q) == {};
    }
    forall t | t in s.tasks && (Refers(s.tasks[t], q) || Deletes(s, t, q)) ensures q in s.refs {
      assert Backed(s, s.tasks[t]);
    }
  }

  // A service retired between its launcher's release and the launcher's next
  // step: the context is freed, and the launcher is about to write to it.
  lemma LateTouch()
    ensures var s := Run(Start, [(0, StartLaunch(7)), (0, Go), (0, Go), (1, StartRetire(7)), (1, Go), (1, Go)]);
      0 in s.tasks && Touches(s.tasks[0], 7) && 7 !in s.refs
  {
    hide Step;
    var a := Step(Start, 0, StartLaunch(7));
    var b := Step(a, 0, Go);
    var c := Step(b, 0, Go);
    LaunchSteps(7);
    RetireSteps(c, 7);
    var d := Step(c, 1, StartRetire(7));
    var e := Step(d, 1, Go);
    RunFirst(Start, 0, StartLaunch(7), [(0, Go), (0, Go), (1, StartRetire(7)), (1, Go), (1, Go)]);
    RunFirst(a, 0, Go, [(0, Go), (1, StartRetire(7)), (1, Go), (1, Go)]);
    RunFirst(b, 0, Go, [(1, StartRetire(7)), (1, Go), (1, Go)]);
    RunFirst(c, 1, StartRetire(7), [(1, Go), (1, Go)]);
    RunFirst(d, 1, Go, [(1, Go)]);
    RunFirst(e, 1, Go, []);
  }

  // A launch up to the launcher's release.
  lemma LaunchSteps(q: Id)
    ensures var c := Step(Step(Step(Start, 0, StartLaunch(q)), 0, Go), 0, Go);
      && 0 in c.tasks && c.tasks[0] == At(Launched(q)) && 1 !in c.tasks
      && q in c.table && q in c.queues && q in c.refs && c.refs[q] == 1
  {
    var a := Step(Start, 0, StartLaunch(q));
    assert a == Launch(Start, 0, q);
    var b := Step(a, 0, Go);
    assert b == Put(a, 0, Unref(q, Launched(q)));
    assert Step(b, 0, Go) == Release(b, 0, q, Launched(q));
  }

  // Another task retires the service and gives up the last reference.
  lemma RetireSteps(s: State, q: Id)
    requires 0 in s.tasks && 1 !in s.tasks && q in s.table && q in s.queues && q in s.refs && s.refs[q] == 1
    ensures var f := Step(Step(Step(s, 1, StartRetire(q)), 1, Go), 1, Go);
      0 in f.tasks && f.tasks[0] == s.tasks[0] && q !in f.refs
  {
    var d := Step(s, 1, StartRetire(q));
    assert d == Put(s.(table := s.table - {q}), 1, Unref(q, Finished));
    var e := Step(d, 1, Go);
    assert e == Release(d, 1, q, Finished);
    assert Step(e, 1, Go) == Delete(e, 1, q, Finished);
  }

  lemma RunFirst(s: State, t: Tid, c: Choice, rest: seq<(Tid, Choice)>)
    ensures Run(s, [(t, c)] + rest) == Run(Step(s, t, c), rest)
  {
    hide Step;
    assert ([(t, c)] + rest)[1..] == rest;
  }

  // A queue that has something to do is listed or in some task's hands.
  lemma NoLostWakeup(steps: seq<(Tid, Choice)>, q: Id)
    ensures var s := Run(Start, steps);
            q in s.queues && (s.queues[q].msgs != [] || s.queues[q].release) ==> q in s.global || Owned(s, q)
  {
    StartInv();
    RunInv(Start, steps);
    var s := Run(Start, steps);
    if q in s.queues { assert Awake(s.queues[q], Placed(s, q)); }
  }

  // Each message pushed is consumed once, in order: first the delivered ones,
  // then the dropped ones, then those still waiting; a freed queue has none.
  lemma ExactlyOnce(steps: seq<(Tid, Choice)>, q: Id)
    ensures var s := Run(Start, steps);
            && (q in s.queues ==> q in s.logs && s.logs[q].pushed == s.logs[q].delivered + s.logs[q].dropped + s.queues[q].msgs)
            && (q in s.logs && q !in s.queues ==> s.logs[q].pushed == s.logs[q].delivered + s.logs[q].dropped)
            && (q in s.refs ==> q in s.logs && s.logs[q].dropped == [])
  {
    StartInv();
    RunInv(Start, steps);
    var s := Run(Start, steps);
    assert Accounted(s, q) && Counted(s, q, |Referrers(s, q)|);
  }

  // ---------------------------------------------------------------- what stays so

  ghost predicate Gone(s: State, q: Id) { q in s.logs && (q !in s.refs || s.refs[q] == 0) }

  ghost predicate GoneStays(s: State, u: State, q: Id)
    requires q in s.logs
  {
    && Gone(u, q) && u.logs[q].pushed == s.logs[q].pushed
    && (q !in s.queues ==> q !in u.queues && u.logs[q] == s.logs[q])
  }

  lemma GoneStep(s: State, t: Tid, c: Choice, q: Id)
    requires Inv(s) && Gone(s, q)
    ensures GoneStays(s, Step(s, t, c), q)
  {
    hide Step;
    GoneUnlisted(s, q);
    hide Inv;
    if t !in s.tasks {
      GoneBegin(s, t, c, q);
    } else {
      TaskFacts(s, t);
      if s.tasks[t].At? {
        GoneAt(s, t, c, q);
      } else {
        GoneBusy(s, t, c, q);
      }
    }
  }

  // Nothing but a registered context is in the table of handles.
  lemma GoneUnlisted(s: State, q: Id)
    requires Inv(s) && Gone(s, q)
    ensures q in s.table ==> q in s.refs && s.refs[q] > 0
  {
    assert Counted(s, q, |Referrers(s, q)|);
  }

  lemma GoneBegin(s: State, t: Tid, c: Choice, q: Id)
    requires t !in s.tasks && Gone(s, q) && (q in s.table ==> q in s.refs && s.refs[q] > 0)
    ensures GoneStays(s, Step(s, t, c), q)
  {
  }

  lemma GoneBusy(s: State, t: Tid, c: Choice, q: Id)
    requires t in s.tasks && !s.tasks[t].At? && Gone(s, q)
    requires forall p :: Refers(s.tasks[t], p) ==> p in s.queues && p in s.logs && p in s.refs && s.refs[p] > 0
    requires forall p :: p in Owns(s.tasks[t]) ==> p in s.queues && p in s.logs
    ensures GoneStays(s, Step(s, t, c), q)
  {
    hide Begin, PopGlobal, Grab, ReleaseQueue, Retire;
  }

  lemma GoneAt(s: State, t: Tid, c: Choice, q: Id)
    requires t in s.tasks && s.tasks[t].At? && Gone(s, q) && (q in s.table ==> q in s.refs && s.refs[q] > 0)
    ensures GoneStays(s, Step(s, t, c), q)
  {
  }

  // Once a context's count has reached zero nothing is pushed to its queue any
  // more, and a freed queue stays freed.
  lemma GoneForGood(s: State, steps: seq<(Tid, Choice)>, q: Id)
    requires Inv(s) && Gone(s, q)
    ensures var u := Run(s, steps);
            && q in u.logs && u.logs[q].pushed == s.logs[q].pushed
            && (q !in s.queues ==> q !in u.queues && u.logs[q] == s.logs[q])
    decreases |steps|
  {
    hide Inv;
    if steps != [] {
      GoneStep(s, steps[0].0, steps[0].1, q);
      StepInv(s, steps[0].0, steps[0].1);
      GoneForGood(Step(s, steps[0].0, steps[0].1), steps[1..], q);
    }
  }
}
