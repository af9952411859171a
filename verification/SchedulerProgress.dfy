/**
  What the steps of a run do to messages, and that no run gets stuck: a message
  of a registered service can still be delivered, the queue of a service that is
  gone can still be freed.
 */
module SchedulerProgress {
  import opened Scheduler

  // ---------------------------------------------------------------- messages and the steps that move them

  ghost function Pushed(s: State, q: Id): (r: seq<Msg>) { if q in s.logs then s.logs[q].pushed else [] }

  ghost function Delivered(s: State, q: Id): (r: seq<Msg>) { if q in s.logs then s.logs[q].delivered else [] }

  ghost function Dropped(s: State, q: Id): (r: seq<Msg>) { if q in s.logs then s.logs[q].dropped else [] }

  // A send to a registered service takes a reference and has the message in hand.
  lemma SendBegins(s: State, t: Tid, q: Id, m: Msg)
    requires Inv(s) && t !in s.tasks
    ensures var u := Step(s, t, StartSend(q, m));
      if q in s.table
      then q in s.refs && u == s.(tasks := s.tasks[t := Sending(q, m)], refs := s.refs[q := s.refs[q] + 1])
      else u == s
  {
    assert Counted(s, q, |Referrers(s, q)|);
  }

  // A launch registers the service under a new number: the table and the launcher
  // each hold a reference, and its empty queue is kept from being listed.
  lemma LaunchBegins(s: State, t: Tid, q: Id)
    requires t !in s.tasks && Fresh(s, q)
    ensures var u := Step(s, t, StartLaunch(q));
      && u.tasks == s.tasks[t := Init(q)] && u.table == s.table + {q} && u.refs == s.refs[q := 2] && u.global == s.global
      && u.queues == s.queues[q := Queue([], true, false)] && u.logs == s.logs[q := Log([], [], [])]
  {
  }

  // Retiring a registered service takes it out of the table, and its reference
  // is the task's to give back.
  lemma RetireBegins(s: State, t: Tid, q: Id)
    requires t !in s.tasks
    ensures Step(s, t, StartRetire(q)) ==
      (if q in s.table then s.(table := s.table - {q}, tasks := s.tasks[t := Unref(q, Finished)])
       else s.(tasks := s.tasks[t := At(Finished)]))
  {
  }

  // The message a step sends to q: a task goes from having it in hand to being done.
  ghost function SentBy(s: State, u: State, t: Tid, q: Id): (r: seq<Msg>) {
    if t in s.tasks && s.tasks[t].Sending? && s.tasks[t].q == q && t in u.tasks && u.tasks[t] == Unref(q, Finished)
    then [s.tasks[t].m] else []
  }

  // The message a step hands to the callback of q: the first in the queue, when
  // a task goes from the dispatch loop into the callback.
  ghost function CalledBy(s: State, u: State, t: Tid, q: Id): (r: seq<Msg>) {
    if t in s.tasks && s.tasks[t] == Running(q) && t in u.tasks && u.tasks[t] == Calling(q) && q in s.queues && s.queues[q].msgs != []
    then [s.queues[q].msgs[0]] else []
  }

  ghost function Sent(s: State, steps: seq<(Tid, Choice)>, q: Id): (r: seq<Msg>)
    decreases |steps|
  {
    if steps == [] then []
    else
      var u := Step(s, steps[0].0, steps[0].1);
      SentBy(s, u, steps[0].0, q) + Sent(u, steps[1..], q)
  }

  ghost function Called(s: State, steps: seq<(Tid, Choice)>, q: Id): (r: seq<Msg>)
    decreases |steps|
  {
    if steps == [] then []
    else
      var u := Step(s, steps[0].0, steps[0].1);
      CalledBy(s, u, steps[0].0, q) + Called(u, steps[1..], q)
  }

  // One step pushes what it sends and delivers what it hands to a callback, and
  // neither a message in hand nor one in a queue being dispatched stays behind.
  ghost predicate Logged(s: State, u: State, t: Tid, q: Id) {
    && Pushed(u, q) == Pushed(s, q) + SentBy(s, u, t, q)
    && Delivered(u, q) == Delivered(s, q) + CalledBy(s, u, t, q)
    && (t in s.tasks && s.tasks[t].Sending? && s.tasks[t].q == q ==> SentBy(s, u, t, q) == [s.tasks[t].m])
    && (t in s.tasks && s.tasks[t] == Running(q) && q in s.queues && s.queues[q].msgs != [] ==>
          CalledBy(s, u, t, q) == [s.queues[q].msgs[0]])
  }

  lemma LoggedAt(s: State, t: Tid, c: Choice, q: Id)
    requires t !in s.tasks || s.tasks[t].At?
    ensures Logged(s, Step(s, t, c), t, q)
  {
    hide SentBy, CalledBy;
    var u := Step(s, t, c);
    NoneMoved(s, u, t, q);
    assert Pushed(u, q) == Pushed(s, q) && Delivered(u, q) == Delivered(s, q);
  }

  lemma NoneMoved(s: State, u: State, t: Tid, q: Id)
    ensures !(t in s.tasks && s.tasks[t].Sending?) ==> SentBy(s, u, t, q) == []
    ensures !(t in s.tasks && s.tasks[t].Running?) ==> CalledBy(s, u, t, q) == []
  {
  }

  lemma LoggedBusy(s: State, t: Tid, c: Choice, q: Id)
    requires t in s.tasks && !s.tasks[t].At?
    requires s.tasks[t].Sending? || s.tasks[t].Running? ==> s.tasks[t].q in s.queues && s.tasks[t].q in s.logs
    ensures Logged(s, Step(s, t, c), t, q)
  {
    hide Begin, PopGlobal, Grab, ReleaseQueue, Retire;
    var u := Step(s, t, c);
    if s.tasks[t].Sending? || s.tasks[t].Running? {
    } else {
      NoneMoved(s, u, t, q);
      hide SentBy, CalledBy;
      assert Pushed(u, q) == Pushed(s, q) && Delivered(u, q) == Delivered(s, q);
    }
  }

  lemma StepLogged(s: State, t: Tid, c: Choice, q: Id)
    requires Inv(s)
    ensures Logged(s, Step(s, t, c), t, q)
  {
    hide Step, Logged;
    if t in s.tasks { TaskFacts(s, t); }
    hide Inv;
    if t in s.tasks && !s.tasks[t].At? { LoggedBusy(s, t, c, q); } else { LoggedAt(s, t, c, q); }
  }

  // Over any run, what was pushed is what was sent, and what was delivered is
  // what the callbacks were handed, each in the order of the steps.
  lemma {:induction false} LoggedRun(s: State, steps: seq<(Tid, Choice)>, q: Id)
    requires Inv(s)
    ensures Pushed(Run(s, steps), q) == Pushed(s, q) + Sent(s, steps, q)
    ensures Delivered(Run(s, steps), q) == Delivered(s, q) + Called(s, steps, q)
    decreases |steps|
  {
    hide Inv, Step, SentBy, CalledBy;
    if steps != [] {
      var u := Step(s, steps[0].0, steps[0].1);
      StepLogged(s, steps[0].0, steps[0].1, q);
      StepInv(s, steps[0].0, steps[0].1);
      LoggedRun(u, steps[1..], q);
    }
  }

  // So every run delivers, in order and once each, a part of what was sent; the
  // rest was dropped after the context had gone, or waits.
  lemma SentIsConsumed(steps: seq<(Tid, Choice)>, q: Id)
    ensures var s := Run(Start, steps);
      Sent(Start, steps, q) == Called(Start, steps, q) + Dropped(s, q) + if q in s.queues then s.queues[q].msgs else []
  {
    StartInv();
    hide Inv;
    LoggedRun(Start, steps, q);
    ExactlyOnce(steps, q);
    var s := Run(Start, steps);
    assert [] + Sent(Start, steps, q) == Sent(Start, steps, q) && [] + Called(Start, steps, q) == Called(Start, steps, q);
    var rest := Called(Start, steps, q) + Dropped(s, q);
    assert rest + [] == rest && (q !in s.logs ==> rest == []);
  }

  // ---------------------------------------------------------------- workers and launchers

  // A worker, whatever it is in the middle of; senders, launchers and retirers end.
  ghost predicate Works(task: Task) {
    match task
    case At(k) => WorksOn(k)
    case Running(_) => true
    case Calling(_) => true
    case Switch(_) => true
    case Swap(_, _) => true
    case Sending(_, _) => false
    case Init(_) => false
    case Unref(_, k) => WorksOn(k)
    case Deleting(_, k) => WorksOn(k)
    case Draining(_, w) => w
    case Freeing(_, w) => w
  }

  ghost predicate WorksOn(k: Cont) { k.Idle? || k.Holding? || (k.Dropping? && k.worker) }

  // The step of a task leaves it a worker, or none.
  ghost predicate Same(s: State, u: State, t: Tid)
    requires t in s.tasks
  {
    t in u.tasks && (Works(u.tasks[t]) <==> Works(s.tasks[t]))
  }

  lemma WorksLauncher(s: State, t: Tid, c: Choice)
    requires t in s.tasks && s.tasks[t].At? && !Works(s.tasks[t])
    ensures Same(s, Step(s, t, c), t)
  {
    hide PopMessage, PushMessage, Delete, Drain, LookFurther, Release, Begin, PopGlobal, Grab;
  }

  lemma WorksWorker(s: State, t: Tid, c: Choice)
    requires t in s.tasks && s.tasks[t].At? && Works(s.tasks[t])
    ensures Same(s, Step(s, t, c), t)
  {
    hide PopMessage, PushMessage, Delete, Drain, LookFurther, Release, Begin, Retire;
  }

  lemma WorksQueue(s: State, t: Tid, c: Choice)
    requires t in s.tasks && UsesQueue(s.tasks[t])
    ensures Same(s, Step(s, t, c), t)
  {
    hide Begin, PopGlobal, Grab, ReleaseQueue, Retire, LookFurther, Release;
  }

  lemma WorksPlain(s: State, t: Tid, c: Choice)
    requires t in s.tasks && !s.tasks[t].At? && !UsesQueue(s.tasks[t])
    ensures Same(s, Step(s, t, c), t)
  {
    hide Begin, PopGlobal, Grab, ReleaseQueue, Retire, PopMessage, PushMessage, Delete, Drain;
  }

  lemma WorksNext(s: State, t: Tid, c: Choice)
    requires t in s.tasks
    ensures Same(s, Step(s, t, c), t)
  {
    hide Step, Same, Works;
    if s.tasks[t].At? {
      if Works(s.tasks[t]) { WorksWorker(s, t, c); } else { WorksLauncher(s, t, c); }
    } else {
      if UsesQueue(s.tasks[t]) { WorksQueue(s, t, c); } else { WorksPlain(s, t, c); }
    }
  }

  // No worker is lost in any run, and no other task becomes one.
  lemma {:induction false} WorkersStay(s: State, steps: seq<(Tid, Choice)>, t: Tid)
    requires t in s.tasks
    ensures var u := Run(s, steps); t in u.tasks && (Works(u.tasks[t]) <==> Works(s.tasks[t]))
    decreases |steps|
  {
    hide Step, Works;
    if steps != [] {
      var v, c := steps[0].0, steps[0].1;
      if v == t { WorksNext(s, t, c); } else { OthersStay(s, v, c, t); }
      WorkersStay(Step(s, v, c), steps[1..], t);
    }
  }

  // A launcher whose release deleted the context only lists the queue and ends:
  // it does not write to the context.
  lemma {:induction false} DeleterEnds(s: State, steps: seq<(Tid, Choice)>, t: Tid, q: Id)
    requires t in s.tasks && (s.tasks[t] == Deleting(q, Launched(q)) || s.tasks[t] == At(Publish(q)) || s.tasks[t] == At(Finished))
    ensures var u := Run(s, steps);
      t in u.tasks && !Touches(u.tasks[t], q)
      && (u.tasks[t] == Deleting(q, Launched(q)) || u.tasks[t] == At(Publish(q)) || u.tasks[t] == At(Finished))
    decreases |steps|
  {
    if steps != [] {
      var v, c := steps[0].0, steps[0].1;
      if v != t { OthersStay(s, v, c, t); }
      DeleterEnds(Step(s, v, c), steps[1..], t, q);
    }
  }

  // ---------------------------------------------------------------- progress

  // A registered service whose queue has a message.
  ghost predicate Waits(s: State, q: Id) {
    Inv(s) && q in s.table && q in s.refs && q in s.queues && s.queues[q].msgs != [] && q in s.logs
  }

  // The first message can be delivered next.
  ghost predicate Can(s: State, q: Id)
    requires q in s.queues && s.queues[q].msgs != []
  {
    exists steps :: Called(s, steps, q) == [s.queues[q].msgs[0]]
  }

  // A step that leaves the message where it is.
  lemma GoOn(s: State, t: Tid, c: Choice, q: Id)
    requires Waits(s, q)
    requires var u := Step(s, t, c); Waits(u, q) && u.queues[q].msgs == s.queues[q].msgs && CalledBy(s, u, t, q) == [] && Can(u, q)
    ensures Can(s, q)
  {
    hide Inv, Step, CalledBy;
    var u := Step(s, t, c);
    var steps :| Called(u, steps, q) == [u.queues[q].msgs[0]];
    var all := [(t, c)] + steps;
    assert all[1..] == steps;
    assert Called(s, all, q) == [] + Called(u, steps, q);
  }

  // The step is quiet: the service and its queue stay as they are.
  ghost predicate Quiet(s: State, u: State, q: Id) {
    u.table == s.table && (q in s.queues ==> q in u.queues && u.queues[q].msgs == s.queues[q].msgs)
  }

  lemma QuietWaits(s: State, t: Tid, c: Choice, q: Id)
    requires Waits(s, q) && Quiet(s, Step(s, t, c), q)
    ensures Waits(Step(s, t, c), q)
  {
    hide Step;
    StepInv(s, t, c);
    var u := Step(s, t, c);
    assert Counted(u, q, |Referrers(u, q)|) && Accounted(u, q);
  }

  // After the step, with what the task does next.
  lemma Next(s: State, t: Tid, c: Choice, q: Id, task: Task)
    requires Waits(s, q) && Quiet(s, Step(s, t, c), q)
    requires var u := Step(s, t, c); t in u.tasks && u.tasks[t] == task && task != Calling(q)
    ensures Waits(Step(s, t, c), q) && (Can(Step(s, t, c), q) ==> Can(s, q))
  {
    hide Step, Inv;
    QuietWaits(s, t, c, q);
    var u := Step(s, t, c);
    assert CalledBy(s, u, t, q) == [];
    hide CalledBy, Waits, Can;
    if Can(u, q) { assert Waits(s, q) && u.queues[q].msgs == s.queues[q].msgs; GoOn(s, t, c, q); }
  }

  lemma FromRunning(s: State, t: Tid, q: Id)
    requires Waits(s, q) && t in s.tasks && s.tasks[t] == Running(q)
    ensures Can(s, q)
  {
    hide Step, Inv;
    StepLogged(s, t, Go, q);
    var u := Step(s, t, Go);
    var steps := [(t, Go)];
    assert steps[1..] == [] && Called(u, [], q) == [];
    assert Called(s, steps, q) == CalledBy(s, u, t, q) + [];
  }

  lemma FromHolding(s: State, t: Tid, q: Id)
    requires Waits(s, q) && t in s.tasks && s.tasks[t] == At(Holding(q))
    ensures Can(s, q)
  {
    hide Inv, Can;
    assert Step(s, t, Go) == Grab(s, t, q);
    Next(s, t, Go, q, Running(q));
    FromRunning(Step(s, t, Go), t, q);
  }

  // There is always an unused task number.
  lemma UnusedTask(s: State) returns (t: Tid)
    ensures t !in s.tasks
  {
    var m := s.tasks.Keys;
    t := Above(m);
  }

  lemma Above(m: set<Tid>) returns (t: Tid)
    ensures forall x :: x in m ==> x < t
  {
    if m == {} {
      t := 0;
    } else {
      var x :| x in m;
      var u := Above(m - {x});
      t := if x < u then u else x + 1;
      forall y | y in m ensures y < t {
        if y != x { assert y in m - {x}; }
      }
    }
  }

  // A listed queue: new workers take the queues in front of it, and one takes it.
  lemma {:induction false} FromGlobal(s: State, q: Id, i: nat)
    requires Waits(s, q) && i < |s.global| && s.global[i] == q
    ensures Can(s, q)
    decreases i
  {
    hide Inv, Can;
    var t := UnusedTask(s);
    var u := Step(s, t, StartWorker);
    assert u == Put(s, t, At(Idle));
    Next(s, t, StartWorker, q, At(Idle));
    var v := Step(u, t, Go);
    assert v == PopGlobal(u, t);
    Next(u, t, Go, q, At(Holding(s.global[0])));
    if i == 0 {
      FromHolding(v, t, q);
    } else {
      assert v.global[i - 1] == q;
      FromGlobal(v, q, i - 1);
    }
  }

  // The queue has just been listed.
  lemma Listed(s: State, t: Tid, c: Choice, q: Id, task: Task)
    requires Waits(s, q) && Step(s, t, c) == Put(s.(global := s.global + [q]), t, task) && task != Calling(q)
    ensures Can(s, q)
  {
    hide Inv, Can, Step;
    Next(s, t, c, q, task);
    FromGlobal(Step(s, t, c), q, |s.global|);
  }

  // A failed launch is about to retire the service.
  predicate Fails(task: Task, q: Id) {
    match task
    case At(k) => k == RetireNew(q)
    case Unref(_, k) => k == RetireNew(q)
    case Deleting(_, k) => k == RetireNew(q)
    case _ => false
  }

  lemma FromAt(s: State, t: Tid, k: Cont, q: Id)
    requires Waits(s, q) && t in s.tasks && s.tasks[t] == At(k) && q in OwnsNext(k) && k != RetireNew(q)
    ensures Can(s, q)
  {
    NotReleased(s, q);
    hide Inv, Can;
    match k
    case Holding(_) => FromHolding(s, t, q);
    case Dropping(_, w) =>
      assert Step(s, t, Go) == ReleaseQueue(s, t, q, w);
      Listed(s, t, Go, q, At(After(w)));
    case Publish(_) => Listed(s, t, Go, q, At(Finished));
    case PublishLoud(_) => Listed(s, t, Go, q, At(Report(q)));
    case Launched(_) =>
      Next(s, t, Go, q, At(PublishLoud(q)));
      Listed(Step(s, t, Go), t, Go, q, At(Report(q)));
  }

  lemma NotReleased(s: State, q: Id)
    requires Waits(s, q)
    ensures !s.queues[q].release
  {
    assert Counted(s, q, |Referrers(s, q)|);
  }

  lemma FromDeleting(s: State, t: Tid, p: Id, k: Cont, q: Id)
    requires Waits(s, q) && t in s.tasks && s.tasks[t] == Deleting(p, k) && q in OwnsNext(k) && k != RetireNew(q)
    ensures Can(s, q)
  {
    TaskFacts(s, t);
    assert p != q by { assert Backed(s, s.tasks[t]) && Counted(s, q, |Referrers(s, q)|); }
    hide Inv, Can;
    assert Step(s, t, Go) == Delete(s, t, p, k);
    Next(s, t, Go, q, At(Deleted(k)));
    FromAt(Step(s, t, Go), t, Deleted(k), q);
  }

  lemma FromUnref(s: State, t: Tid, p: Id, k: Cont, q: Id)
    requires Waits(s, q) && t in s.tasks && s.tasks[t] == Unref(p, k) && q in OwnsNext(k) && k != RetireNew(q)
    ensures Can(s, q)
  {
    TaskFacts(s, t);
    hide Inv, Can;
    assert Refers(s.tasks[t], p);
    assert Step(s, t, Go) == Release(s, t, p, k);
    var u := Step(s, t, Go);
    Next(s, t, Go, q, u.tasks[t]);
    hide Step;
    if u.tasks[t].Deleting? { FromDeleting(u, t, p, k, q); } else { FromAt(u, t, k, q); }
  }

  lemma FromSwitch(s: State, t: Tid, q: Id)
    requires Waits(s, q) && t in s.tasks && s.tasks[t] == Switch(q)
    ensures Can(s, q)
  {
    hide Inv, Can;
    var u := Step(s, t, Go);
    assert u == LookFurther(s, t, q);
    Next(s, t, Go, q, u.tasks[t]);
    if s.global == [] {
      FromUnref(u, t, q, Holding(q), q);
    } else {
      Listed(u, t, Go, q, Unref(q, Holding(s.global[0])));
    }
  }

  lemma FromOwner(s: State, t: Tid, q: Id)
    requires Waits(s, q) && t in s.tasks && q in Owns(s.tasks[t]) && !Fails(s.tasks[t], q)
    ensures Can(s, q)
  {
    NotReleased(s, q);
    assert Backed(s, s.tasks[t]);
    hide Inv, Can;
    match s.tasks[t]
    case At(k) => FromAt(s, t, k, q);
    case Running(_) => FromRunning(s, t, q);
    case Calling(_) =>
      Next(s, t, Go, q, Running(q));
      FromRunning(Step(s, t, Go), t, q);
    case Switch(_) => FromSwitch(s, t, q);
    case Swap(p, nq) =>
      if p == q {
        Listed(s, t, Go, q, Unref(q, Holding(nq)));
      } else {
        Next(s, t, Go, q, Unref(p, Holding(q)));
        FromUnref(Step(s, t, Go), t, p, Holding(q), q);
      }
    case Init(_) =>
      Next(s, t, Go, q, Unref(q, Launched(q)));
      FromUnref(Step(s, t, Go), t, q, Launched(q), q);
    case Unref(p, k) => FromUnref(s, t, p, k, q);
    case Deleting(p, k) => FromDeleting(s, t, p, k, q);
  }

  // No run gets stuck: whatever has happened, a registered service whose queue has
  // a message can still be given the first one next, unless its launch has failed
  // and it is about to be retired.
  lemma Deliverable(steps: seq<(Tid, Choice)>, q: Id)
    ensures var s := Run(Start, steps);
      q in s.table && q in s.queues && s.queues[q].msgs != [] && (forall t :: t in s.tasks ==> !Fails(s.tasks[t], q)) ==> Can(s, q)
  {
    hide Can;
    StartInv();
    RunInv(Start, steps);
    NoLostWakeup(steps, q);
    var s := Run(Start, steps);
    hide Run;
    if q in s.table && q in s.queues && s.queues[q].msgs != [] && forall t :: t in s.tasks ==> !Fails(s.tasks[t], q) {
      assert Counted(s, q, |Referrers(s, q)|) && Accounted(s, q);
      assert Waits(s, q);
      hide Inv;
      if q in s.global {
        var i :| 0 <= i < |s.global| && s.global[i] == q;
        FromGlobal(s, q, i);
      } else {
        var t :| t in s.tasks && q in Owns(s.tasks[t]);
        FromOwner(s, t, q);
      }
    }
  }

  // ---------------------------------------------------------------- no queue is left over

  // The queue of a service that is gone.
  ghost predicate Marked(s: State, q: Id) {
    Inv(s) && q in s.queues && s.queues[q].release && q !in s.refs && q !in s.table && q in s.logs
  }

  ghost predicate CanFree(s: State, q: Id) { exists steps :: q !in Run(s, steps).queues }

  // A step after which the queue is marked still, or freed.
  lemma FreeNext(s: State, t: Tid, c: Choice, q: Id)
    requires Marked(s, q) && (var u := Step(s, t, c); q in u.queues ==> u.queues[q].release)
    ensures var u := Step(s, t, c); (q in u.queues ==> Marked(u, q)) && (q !in u.queues || CanFree(u, q) ==> CanFree(s, q))
  {
    hide Step;
    StepInv(s, t, c);
    var u := Step(s, t, c);
    assert q in u.queues ==> Counted(u, q, |Referrers(u, q)|) && Accounted(u, q);
    hide Inv;
    if q !in u.queues {
      RunFirst(s, t, c, []);
      assert q !in Run(s, [(t, c)] + []).queues;
    } else if CanFree(u, q) {
      var steps :| q !in Run(u, steps).queues;
      RunFirst(s, t, c, steps);
      assert q !in Run(s, [(t, c)] + steps).queues;
    }
  }

  lemma {:induction false} FreeDraining(s: State, t: Tid, q: Id, w: bool)
    requires Marked(s, q) && t in s.tasks && s.tasks[t] == Draining(q, w)
    ensures CanFree(s, q)
    decreases |s.queues[q].msgs|
  {
    hide Inv, CanFree;
    var u := Step(s, t, Go);
    assert u == Drain(s, t, q, w);
    FreeNext(s, t, Go, q);
    if s.queues[q].msgs == [] {
      FreeNext(u, t, Go, q);
      assert Step(u, t, Go).queues == u.queues - {q};
    } else {
      FreeDraining(u, t, q, w);
    }
  }

  lemma FreeDropping(s: State, t: Tid, q: Id, w: bool)
    requires Marked(s, q) && t in s.tasks && s.tasks[t] == At(Dropping(q, w))
    ensures CanFree(s, q)
  {
    hide Inv, CanFree;
    assert Step(s, t, Go) == ReleaseQueue(s, t, q, w);
    FreeNext(s, t, Go, q);
    FreeDraining(Step(s, t, Go), t, q, w);
  }

  lemma FreeHolding(s: State, t: Tid, q: Id)
    requires Marked(s, q) && t in s.tasks && s.tasks[t] == At(Holding(q))
    ensures CanFree(s, q)
  {
    hide Inv, CanFree;
    assert Step(s, t, Go) == Grab(s, t, q);
    FreeNext(s, t, Go, q);
    FreeDropping(Step(s, t, Go), t, q, true);
  }

  lemma {:induction false} FreeGlobal(s: State, q: Id, i: nat)
    requires Marked(s, q) && i < |s.global| && s.global[i] == q
    ensures CanFree(s, q)
    decreases i
  {
    hide Inv, CanFree;
    var t := UnusedTask(s);
    var u := Step(s, t, StartWorker);
    assert u == Put(s, t, At(Idle));
    FreeNext(s, t, StartWorker, q);
    var v := Step(u, t, Go);
    assert v == PopGlobal(u, t);
    FreeNext(u, t, Go, q);
    if i == 0 {
      FreeHolding(v, t, q);
    } else {
      assert v.global[i - 1] == q;
      FreeGlobal(v, q, i - 1);
    }
  }

  lemma FreeListed(s: State, t: Tid, q: Id, task: Task)
    requires Marked(s, q) && Step(s, t, Go) == Put(s.(global := s.global + [q]), t, task)
    ensures CanFree(s, q)
  {
    hide Inv, CanFree, Step;
    FreeNext(s, t, Go, q);
    FreeGlobal(Step(s, t, Go), q, |s.global|);
  }

  lemma FreeAt(s: State, t: Tid, k: Cont, q: Id)
    requires Marked(s, q) && t in s.tasks && s.tasks[t] == At(k) && q in OwnsNext(k)
    ensures CanFree(s, q)
  {
    hide Inv, CanFree;
    match k
    case Holding(_) => FreeHolding(s, t, q);
    case Dropping(_, w) => FreeDropping(s, t, q, w);
    case Publish(_) => FreeListed(s, t, q, At(Finished));
    case PublishLoud(_) => FreeListed(s, t, q, At(Report(q)));
    case Launched(_) =>
      FreeNext(s, t, Go, q);
      FreeListed(Step(s, t, Go), t, q, At(Report(q)));
    case RetireNew(_) =>
      assert Step(s, t, Go) == Put(s, t, At(Dropping(q, false)));
      FreeNext(s, t, Go, q);
      FreeDropping(Step(s, t, Go), t, q, false);
  }

  lemma FreeDeleting(s: State, t: Tid, p: Id, k: Cont, q: Id)
    requires Marked(s, q) && t in s.tasks && s.tasks[t] == Deleting(p, k) && q in OwnsNext(k)
    ensures CanFree(s, q)
  {
    TaskFacts(s, t);
    hide Inv, CanFree;
    assert Step(s, t, Go) == Delete(s, t, p, k);
    FreeNext(s, t, Go, q);
    FreeAt(Step(s, t, Go), t, Deleted(k), q);
  }

  lemma FreeUnref(s: State, t: Tid, p: Id, k: Cont, q: Id)
    requires Marked(s, q) && t in s.tasks && s.tasks[t] == Unref(p, k) && q in OwnsNext(k)
    ensures CanFree(s, q)
  {
    TaskFacts(s, t);
    hide Inv, CanFree;
    assert Refers(s.tasks[t], p);
    var u := Step(s, t, Go);
    assert u == Release(s, t, p, k);
    FreeNext(s, t, Go, q);
    hide Step;
    if u.tasks[t].Deleting? { FreeDeleting(u, t, p, k, q); } else { FreeAt(u, t, k, q); }
  }

  lemma FreeOwner(s: State, t: Tid, q: Id)
    requires Marked(s, q) && t in s.tasks && q in Owns(s.tasks[t])
    ensures CanFree(s, q)
  {
    assert Backed(s, s.tasks[t]);
    assert !Refers(s.tasks[t], q);
    hide Inv, CanFree;
    match s.tasks[t]
    case At(k) => FreeAt(s, t, k, q);
    case Swap(p, nq) =>
      FreeNext(s, t, Go, q);
      FreeUnref(Step(s, t, Go), t, p, Holding(q), q);
    case Unref(p, k) => FreeUnref(s, t, p, k, q);
    case Deleting(p, k) => FreeDeleting(s, t, p, k, q);
    case Draining(_, w) => FreeDraining(s, t, q, w);
    case Freeing(_, w) =>
      assert Step(s, t, Go).queues == s.queues - {q};
      FreeNext(s, t, Go, q);
  }

  // ---------------------------------------------------------------- no context is left over

  // A service out of the table whose context is still there.
  ghost predicate Retired(s: State, q: Id) { Inv(s) && Zeroes(s) && q in s.refs && q !in s.table }

  ghost predicate CanEnd(s: State, q: Id) { exists steps :: q !in Run(s, steps).refs }

  // A step of a task in the middle of something.
  lemma EndNext(s: State, t: Tid, c: Choice, q: Id)
    requires Retired(s, q) && Step(s, t, c).table == s.table
    ensures var u := Step(s, t, c); (q in u.refs ==> Retired(u, q)) && (q !in u.refs || CanEnd(u, q) ==> CanEnd(s, q))
  {
    hide Step, Inv, Zeroes;
    StepInv(s, t, c);
    StepZeroes(s, t, c);
    var u := Step(s, t, c);
    if q !in u.refs {
      RunFirst(s, t, c, []);
      assert q !in Run(s, [(t, c)] + []).refs;
    } else if CanEnd(u, q) {
      var steps :| q !in Run(u, steps).refs;
      RunFirst(s, t, c, steps);
      assert q !in Run(s, [(t, c)] + steps).refs;
    }
  }

  lemma EndDeleting(s: State, t: Tid, q: Id)
    requires Retired(s, q) && Deletes(s, t, q)
    ensures CanEnd(s, q)
  {
    TaskFacts(s, t);
    hide Inv, Zeroes, CanEnd;
    assert Step(s, t, Go) == Delete(s, t, q, s.tasks[t].k);
    EndNext(s, t, Go, q);
  }

  // The reference is given back, and the others after it.
  lemma {:induction false} EndUnref(s: State, t: Tid, k: Cont, q: Id)
    requires Retired(s, q) && t in s.tasks && s.tasks[t] == Unref(q, k)
    ensures CanEnd(s, q)
    decreases s.refs[q], 0
  {
    TaskFacts(s, t);
    hide Inv, Zeroes, CanEnd;
    assert Refers(s.tasks[t], q);
    var u := Step(s, t, Go);
    assert u == Release(s, t, q, k);
    EndNext(s, t, Go, q);
    hide Step;
    if s.refs[q] == 1 { EndDeleting(u, t, q); } else { EndAny(u, q); }
  }

  lemma {:induction false} EndSwitch(s: State, t: Tid, q: Id)
    requires Retired(s, q) && t in s.tasks && s.tasks[t] == Switch(q)
    ensures CanEnd(s, q)
    decreases s.refs[q], 2
  {
    hide Inv, Zeroes, CanEnd;
    var u := Step(s, t, Go);
    assert u == LookFurther(s, t, q);
    EndNext(s, t, Go, q);
    if s.global == [] { EndUnref(u, t, Holding(q), q); } else { EndSwap(u, t, q, s.global[0]); }
  }

  lemma {:induction false} EndSwap(s: State, t: Tid, q: Id, nq: Id)
    requires Retired(s, q) && t in s.tasks && s.tasks[t] == Swap(q, nq)
    ensures CanEnd(s, q)
    decreases s.refs[q], 1
  {
    hide Inv, Zeroes, CanEnd;
    EndNext(s, t, Go, q);
    EndUnref(Step(s, t, Go), t, Holding(nq), q);
  }

  lemma {:induction false} EndCalling(s: State, t: Tid, q: Id)
    requires Retired(s, q) && t in s.tasks && s.tasks[t] == Calling(q)
    ensures CanEnd(s, q)
    decreases s.refs[q], 3
  {
    hide Inv, Zeroes, CanEnd;
    EndNext(s, t, Stop, q);
    EndSwitch(Step(s, t, Stop), t, q);
  }

  lemma {:induction false} EndRunning(s: State, t: Tid, q: Id)
    requires Retired(s, q) && t in s.tasks && s.tasks[t] == Running(q)
    ensures CanEnd(s, q)
    decreases s.refs[q], 4
  {
    TaskFacts(s, t);
    hide Inv, Zeroes, CanEnd;
    assert Refers(s.tasks[t], q);
    var u := Step(s, t, Go);
    assert u == PopMessage(s, t, q);
    EndNext(s, t, Go, q);
    if s.queues[q].msgs == [] { EndUnref(u, t, Idle, q); } else { EndCalling(u, t, q); }
  }

  lemma {:induction false} EndAny(s: State, q: Id)
    requires Retired(s, q)
    ensures CanEnd(s, q)
    decreases s.refs[q], 5, 1
  {
    hide CanEnd;
    assert Counted(s, q, |Referrers(s, q)|);
    if s.refs[q] == 0 {
      var t :| Deletes(s, t, q);
      EndDeleting(s, t, q);
    } else {
      var t :| t in Referrers(s, q);
      EndOne(s, t, q);
    }
  }

  lemma {:induction false} EndOne(s: State, t: Tid, q: Id)
    requires Retired(s, q) && t in s.tasks && Refers(s.tasks[t], q)
    ensures CanEnd(s, q)
    decreases s.refs[q], 5, 0
  {
    TaskFacts(s, t);
    hide Inv, Zeroes, CanEnd;
    match s.tasks[t]
    case Running(_) => EndRunning(s, t, q);
    case Calling(_) => EndCalling(s, t, q);
    case Switch(_) => EndSwitch(s, t, q);
    case Swap(_, nq) => EndSwap(s, t, q, nq);
    case Sending(_, m) =>
      assert Step(s, t, Go) == PushMessage(s, t, q, m);
      EndNext(s, t, Go, q);
      EndUnref(Step(s, t, Go), t, Finished, q);
    case Init(_) =>
      EndNext(s, t, Go, q);
      EndUnref(Step(s, t, Go), t, Launched(q), q);
    case Unref(_, k) => EndUnref(s, t, k, q);
  }

  // No context leaks: a service that was retired can always still end, however
  // many tasks hold it.
  lemma Endable(steps: seq<(Tid, Choice)>, q: Id)
    ensures var s := Run(Start, steps); q in s.refs && q !in s.table ==> CanEnd(s, q)
  {
    hide CanEnd;
    StartInv();
    RunInv(Start, steps);
    RunZeroes(Start, steps);
    var s := Run(Start, steps);
    hide Run, Inv;
    if q in s.refs && q !in s.table { EndAny(s, q); }
  }

  // No queue leaks: one whose context is gone can always still be freed.
  lemma Freeable(steps: seq<(Tid, Choice)>, q: Id)
    ensures var s := Run(Start, steps); q in s.queues && q !in s.refs ==> CanFree(s, q)
  {
    hide CanFree;
    StartInv();
    RunInv(Start, steps);
    NoLostWakeup(steps, q);
    var s := Run(Start, steps);
    hide Run;
    if q in s.queues && q !in s.refs {
      assert Counted(s, q, |Referrers(s, q)|) && Accounted(s, q);
      assert Marked(s, q);
      hide Inv;
      if q in s.global {
        var i :| 0 <= i < |s.global| && s.global[i] == q;
        FreeGlobal(s, q, i);
      } else {
        var t :| t in s.tasks && q in Owns(s.tasks[t]);
        FreeOwner(s, t, q);
      }
    }
  }
}
