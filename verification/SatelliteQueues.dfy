/** The satellite's side of the check pipeline, `shinken/satellite.py` and
    `shinken/worker.py`: queues for workers, results on their way home, bounded intake. */
module SatelliteQueues {
  import opened Options
  import opened Lists
  import opened Checks
  import opened Pipelines

  class Queue {
    var items: seq<Shell>

    constructor ()
      ensures items == []
    {
      items := [];
    }
  }

  // ----- A worker -----

  class Worker {
    const s: Queue
    const returnsQueue: Queue
    const processesByWorker: nat
    var checks: seq<Shell>

    constructor (s: Queue, returnsQueue: Queue, processesByWorker: nat)
      ensures this.s == s && this.returnsQueue == returnsQueue && this.processesByWorker == processesByWorker
      ensures checks == []
    {
      this.s, this.returnsQueue, this.processesByWorker, checks := s, returnsQueue, processesByWorker, [];
    }

    /** Takes checks from the queue as long as there is room. */
    method GetNewChecks()
      modifies this`checks, s`items
      ensures var n := Room(old(s.items), old(checks), processesByWorker);
              checks == old(checks) + old(s.items)[..n] && s.items == old(s.items)[n..]
      ensures old(|checks|) <= processesByWorker ==> |checks| <= processesByWorker
    {
      ghost var taken := 0;
      while |checks| < processesByWorker
        invariant 0 <= taken <= |old(s.items)| && |checks| == old(|checks|) + taken
        invariant taken > 0 ==> |checks| <= processesByWorker
        invariant checks == old(checks) + old(s.items)[..taken] && s.items == old(s.items)[taken..]
        decreases |s.items|
      {
        if s.items == [] {
          break;
        }
        var msg := s.items[0];
        s.items := s.items[1..];
        checks := checks + [msg];
        taken := taken + 1;
      }
    }

    /** Launches what is queued; `run` tells how each launch ends. */
    method LaunchNewChecks(run: Poll)
      modifies this`checks
      ensures checks == Polled(old(checks), (c: Shell) => if c.status == Queued then run(c) else c.status)
      ensures |checks| == old(|checks|)
      ensures forall i :: 0 <= i < |checks| ==>
                var c := old(checks)[i];
                checks[i] == if c.status == Queued then c.(status := run(c)) else c
    {
      ghost var before, poll := checks, (c: Shell) => if c.status == Queued then run(c) else c.status;
      PollAll((c: Shell) => if c.status == Queued then run(c) else c.status);
      forall i | 0 <= i < |before| {
        PolledIs(before, poll, i);
      }
    }

    method PollAll(poll: Poll)
      modifies this`checks
      ensures checks == Polled(old(checks), poll)
    {
      for i := 0 to |checks|
        invariant |checks| == old(|checks|)
        invariant checks[..i] == Polled(old(checks)[..i], poll) && checks[i..] == old(checks)[i..]
      {
        var c := checks[i];
        assert c == old(checks)[i];
        assert old(checks)[..i + 1][..i] == old(checks)[..i];
        ghost var before := checks;
        checks := checks[i := c.(status := poll(c))];
        assert checks[..i + 1] == before[..i] + [c.(status := poll(c))];
        assert checks[i + 1..] == before[i..][1..];
      }
      assert checks[..|checks|] == checks && old(checks)[..|checks|] == old(checks);
    }

    /** Finished checks go to the returns queue; `end` tells the status of a launched one. */
    method ManageFinishedChecks(end: Poll)
      requires s != returnsQueue
      modifies this`checks, returnsQueue`items
      ensures var list := Polled(old(checks), (c: Shell) => if c.status == Launched then end(c) else c.status);
              checks == Unfinished(list) && returnsQueue.items == old(returnsQueue.items) + Finished(list)
      ensures old(returnsQueue.items) <= returnsQueue.items
      ensures var left := returnsQueue.items[old(|returnsQueue.items|)..];
              && (forall s :: s in left ==> s.status == Done || s.status == TimedOut)
              && (forall s :: s in checks ==> s.status != Done && s.status != TimedOut)
              && multiset(left) + multiset(checks) ==
                 multiset(seq(old(|checks|), i requires 0 <= i < old(|checks|) =>
                                var c := old(checks)[i]; if c.status == Launched then c.(status := end(c)) else c))
    {
      ghost var before, items := checks, returnsQueue.items;
      ManageAll(end);
      FinishedMeans(before, end);
      assert returnsQueue.items[|items|..] == Finished(Polled(before, (c: Shell) => if c.status == Launched then end(c) else c.status));
    }

    lemma FinishedMeans(before: seq<Shell>, end: Poll)
      ensures var list := Polled(before, (c: Shell) => if c.status == Launched then end(c) else c.status);
              && list == seq(|before|, i requires 0 <= i < |before| => var c := before[i]; if c.status == Launched then c.(status := end(c)) else c)
              && (forall s :: s in Finished(list) ==> s.status == Done || s.status == TimedOut)
              && (forall s :: s in Unfinished(list) ==> s.status != Done && s.status != TimedOut)
              && multiset(Finished(list)) + multiset(Unfinished(list)) == multiset(list)
    {
      var poll := (c: Shell) => if c.status == Launched then end(c) else c.status;
      forall i | 0 <= i < |before| ensures Polled(before, poll)[i] == var c := before[i]; if c.status == Launched then c.(status := end(c)) else c {
        PolledIs(before, poll, i);
      }
      FinishedIs(Polled(before, poll));
      FinishedAll(Polled(before, poll));
    }

    method ManageAll(end: Poll)
      requires s != returnsQueue
      modifies this`checks, returnsQueue`items
      ensures var list := Polled(old(checks), (c: Shell) => if c.status == Launched then end(c) else c.status);
              checks == Unfinished(list) && returnsQueue.items == old(returnsQueue.items) + Finished(list)
    {
      PollAll((c: Shell) => if c.status == Launched then end(c) else c.status);
      var list := checks;
      var rest := [];
      for i := 0 to |list|
        invariant checks == list
        invariant rest == Unfinished(list[..i]) && returnsQueue.items == old(returnsQueue.items) + Finished(list[..i])
      {
        assert list[..i + 1][..i] == list[..i];
        if IsDone(list[i]) {
          returnsQueue.items := returnsQueue.items + [list[i]];
        } else {
          rest := rest + [list[i]];
        }
      }
      assert list[..|list|] == list;
      checks := rest;
    }
  }

  // ----- The satellite -----

  /** How many actions may still be asked for. */
  function Slots(limit: nat, waiting: nat): nat {
    if waiting < limit then limit - waiting else 0
  }

  /** A scheduler's answer to a request for so many actions, or no answer. */
  type Answer = (nat, Option<nat>) -> Option<seq<Shell>>

  /** No scheduler answers with more than it was asked for, and the shells are its own. */
  ghost predicate Honest(answer: Answer) {
    forall s: nat, n: Option<nat> :: answer(s, n).Some? ==>
                                       (n.Some? ==> |answer(s, n).value| <= n.value) && Mine(answer(s, n).value, s)
  }

  /** How a scheduler reacts to results: it takes them, does not, or breaks the connection. */
  datatype Ack = Taken | NotTaken | Broken

  /** What can happen to a satellite: it asks its schedulers, a worker takes checks from its
      queue, starts or dies. */
  datatype Turn = Ask(answer: Answer) | Take(w: nat) | Launch(moduleName: string, found: Loaded) | Die(w: nat)

  /** What is known of a module that a worker is wanted for; the built-in one has workers. */
  datatype Loaded = WithWorkers | WithoutWorkers | NotLoaded

  /** The queues of a module when the queue `i` goes and those behind move up. */
  function WithoutQueue(ws: seq<nat>, i: nat): (r: seq<nat>) {
    if ws == [] then []
    else
      var init, last := WithoutQueue(ws[..|ws| - 1], i), ws[|ws| - 1];
      if last == i then init else init + [if last > i then last - 1 else last]
  }

  /** Each other queue is still served, under its new number, in the same order. */
  lemma {:induction false} WithoutQueueIs(ws: seq<nat>, more: seq<nat>, i: nat)
    ensures WithoutQueue(ws + more, i) == WithoutQueue(ws, i) + WithoutQueue(more, i)
    ensures |more| == 1 ==> WithoutQueue(more, i) == if more[0] == i then [] else if more[0] > i then [more[0] - 1] else more
    decreases |more|
  {
    if more == [] {
      assert ws + more == ws;
    } else {
      var init := more[..|more| - 1];
      assert (ws + more)[..|ws + more| - 1] == ws + init;
      WithoutQueueIs(ws, init, i);
      if |more| == 1 {
        assert init == [] && WithoutQueue(init, i) == [];
      }
    }
  }

  lemma {:induction false} WithoutBelow(ws: seq<nat>, n: nat, i: nat)
    requires i < n && forall k :: 0 <= k < |ws| ==> ws[k] < n
    ensures forall k :: 0 <= k < |WithoutQueue(ws, i)| ==> WithoutQueue(ws, i)[k] < n - 1
  {
    if ws != [] {
      WithoutBelow(ws[..|ws| - 1], n, i);
    }
  }

  function WithoutWorker(routes: Routes, i: nat): Routes {
    map m | m in routes :: WithoutQueue(routes[m], i)
  }

  lemma WithoutRoutes(routes: Routes, n: nat, i: nat)
    requires RoutesTo(routes, n) && i < n
    ensures RoutesTo(WithoutWorker(routes, i), n - 1)
  {
    forall m | m in routes ensures forall k :: 0 <= k < |WithoutQueue(routes[m], i)| ==> WithoutQueue(routes[m], i)[k] < n - 1 {
      WithoutBelow(routes[m], n, i);
    }
  }

  lemma {:induction false} TotalConcat(a: seq<seq<Shell>>, b: seq<seq<Shell>>)
    ensures Total(a + b) == Total(a) + Total(b)
    decreases |b|
  {
    if b == [] {
      assert a + b == a;
    } else {
      assert (a + b)[..|a + b| - 1] == a + b[..|b| - 1];
      TotalConcat(a, b[..|b| - 1]);
    }
  }

  lemma TotalWithout(lists: seq<seq<Shell>>, i: nat)
    requires i < |lists|
    ensures Total(lists[..i] + lists[i + 1..]) <= Total(lists)
  {
    Around(lists, i);
    TotalAround(lists[..i], lists[i], lists[i + 1..]);
  }

  lemma Around(lists: seq<seq<Shell>>, i: nat)
    requires i < |lists|
    ensures lists == lists[..i] + ([lists[i]] + lists[i + 1..])
  {
  }

  lemma TotalAround(a: seq<seq<Shell>>, x: seq<Shell>, b: seq<seq<Shell>>)
    ensures Total(a + b) <= Total(a + ([x] + b))
  {
    TotalConcat(a, b);
    TotalConcat(a, [x] + b);
    TotalConcat([x], b);
  }

  class Satellite {
    const returnsQueue: Queue
    const maxQSize: int
    const qFactor: int
    const processesByWorker: nat
    const resultsBatch: int
    /** The workers' queues, module after module. */
    var queues: seq<Queue>
    var workers: seq<Worker>
    /** Which queues serve a module. */
    var routes: Routes
    /** The known schedulers, in order, and those of them that are active. */
    var schedulers: seq<nat>
    var active: set<nat>
    var waitHomerun: HomeRun

    constructor (returnsQueue: Queue, maxQSize: int, qFactor: int, processesByWorker: nat, resultsBatch: int)
      ensures this.maxQSize == maxQSize && this.qFactor == qFactor
      ensures this.processesByWorker == processesByWorker && this.resultsBatch == resultsBatch
      ensures this.returnsQueue == returnsQueue && Valid() && queues == [] && schedulers == [] && waitHomerun == map[]
    {
      this.returnsQueue, this.maxQSize, this.qFactor := returnsQueue, maxQSize, qFactor;
      this.processesByWorker, this.resultsBatch := processesByWorker, resultsBatch;
      queues, workers, routes, schedulers, active, waitHomerun := [], [], map[], [], {}, map[];
    }

    predicate Valid()
      reads this`queues, this`workers, this`routes
    {
      && RoutesTo(routes, |queues|) && Distinct(queues)
      && |workers| == |queues|
      && forall i :: 0 <= i < |queues| ==> workers[i].s == queues[i] && workers[i].processesByWorker == processesByWorker
    }

    function Items(): (r: seq<seq<Shell>>)
      reads this, queues
      ensures |r| == |queues| && forall i :: 0 <= i < |queues| ==> r[i] == queues[i].items
    {
      seq(|queues|, i requires 0 <= i < |queues| reads this, queues => queues[i].items)
    }

    method GetActionsQueueLen() returns (n: nat)
      ensures n == Total(Items())
    {
      n := 0;
      for i := 0 to |queues|
        invariant n == Total(Items()[..i])
      {
        assert Items()[..i + 1][..i] == Items()[..i];
        n := n + |queues[i].items|;
      }
      assert Items()[..|queues|] == Items();
    }

    /** What may still be asked for with so many actions waiting; `None` means no limit. */
    function Allowance(waiting: nat): Option<nat>
      reads this`queues
    {
      if maxQSize > 0 then Some(Slots(maxQSize, waiting))
      else if qFactor > 0 then Some(Slots(|queues| * processesByWorker * qFactor, waiting))
      else None
    }

    method GetAvailableSlots() returns (available: Option<nat>)
      ensures available == Allowance(Total(Items()))
      ensures maxQSize > 0 ==> available == Some(if maxQSize > Total(Items()) then maxQSize - Total(Items()) else 0)
      ensures maxQSize <= 0 && qFactor > 0 ==>
                var room := |queues| * processesByWorker * qFactor;
                available == Some(if room > Total(Items()) then room - Total(Items()) else 0)
      ensures maxQSize <= 0 && qFactor <= 0 ==> available == None
    {
      var slots: int;
      if maxQSize > 0 {
        slots := maxQSize;
      } else if qFactor > 0 {
        slots := |queues| * processesByWorker;
        slots := slots * qFactor;
      } else {
        return None;
      }
      var actions := GetActionsQueueLen();
      return Some(if slots - actions > 0 then slots - actions else 0);
    }

    method PutIn(i: nat, s: Shell)
      requires Valid() && i < |queues|
      modifies queues`items
      ensures Items() == old(Items())[i := old(Items())[i] + [s]]
    {
      queues[i].items := queues[i].items + [s];
    }

    /** add_actions with assign_to_a_queue */
    method AddActions(lst: seq<Shell>, sched: nat)
      requires Valid()
      modifies queues`items
      ensures Items() == Enqueue(old(Items()), routes, lst, sched)
      ensures forall q :: 0 <= q < |queues| ==> Items()[q] == old(Items())[q] + RoutedTo(routes, lst, sched, q)
      ensures (forall j :: 0 <= j < |lst| ==> lst[j].moduleType in routes) ==>
                forall j :: 0 <= j < |lst| && routes[lst[j].moduleType] != [] ==>
                              var workers := routes[lst[j].moduleType];
                              lst[j].(sched := sched, status := Queued) in Items()[workers[lst[j].id % |workers|]]
      ensures Total(Items()) == Total(old(Items())) + Served(routes, lst)
    {
      AddAll(lst, sched);
      forall q | 0 <= q < |queues| ensures Items()[q] == old(Items())[q] + RoutedTo(routes, lst, sched, q) {
        EnqueueExactly(old(Items()), routes, lst, sched, q);
      }
      if forall j :: 0 <= j < |lst| ==> lst[j].moduleType in routes {
        forall j | 0 <= j < |lst| && routes[lst[j].moduleType] != []
          ensures var workers := routes[lst[j].moduleType];
                  lst[j].(sched := sched, status := Queued) in Items()[workers[lst[j].id % |workers|]]
        {
          RoutedThere(routes, lst, sched, j);
        }
      }
      EnqueueTotal(old(Items()), routes, lst, sched);
    }

    method AddAll(lst: seq<Shell>, sched: nat)
      requires Valid()
      modifies queues`items
      ensures Items() == Enqueue(old(Items()), routes, lst, sched)
    {
      for i := 0 to |lst|
        invariant Enqueue(old(Items()), routes, lst, sched) == Enqueue(Items(), routes, lst[i..], sched)
      {
        assert lst[i..][0] == lst[i] && lst[i..][1..] == lst[i + 1..];
        if lst[i].moduleType !in routes {
          return;
        }
        var a := lst[i].(sched := sched, status := Queued);
        var q := Route(routes, a);
        if q.Some? {
          PutIn(q.value, a);
        }
      }
      assert lst[|lst|..] == [];
    }

    /** The queues after asking one scheduler for as much as is allowed. */
    function AfterAsking(items: seq<seq<Shell>>, sched: nat, answer: Answer): (r: seq<seq<Shell>>)
      reads this`queues, this`routes
      requires RoutesTo(routes, |items|)
      ensures |r| == |items|
    {
      var actions := answer(sched, Allowance(Total(items)));
      if actions.None? then items else Enqueue(items, routes, actions.value, sched)
    }

    /** The queues after asking the first `n` schedulers, of which only active ones count. */
    function AfterTurn(items: seq<seq<Shell>>, n: nat, answer: Answer): (r: seq<seq<Shell>>)
      reads this
      requires RoutesTo(routes, |items|) && n <= |schedulers|
      ensures |r| == |items|
      decreases n
    {
      if n == 0 then items
      else
        var before := AfterTurn(items, n - 1, answer);
        if schedulers[n - 1] in active then AfterAsking(before, schedulers[n - 1], answer) else before
    }

    method AskScheduler(sched: nat, answer: Answer)
      requires Valid()
      modifies queues`items
      ensures Items() == AfterAsking(old(Items()), sched, answer)
    {
      var slots := GetAvailableSlots();
      var actions := answer(sched, slots);
      if actions.Some? {
        AddActions(actions.value, sched);
      }
    }

    /** The next scheduler of a turn is asked for what is allowed then, if it is active. */
    lemma TurnStep(items: seq<seq<Shell>>, n: nat, answer: Answer)
      requires RoutesTo(routes, |items|) && n < |schedulers|
      ensures AfterTurn(items, 0, answer) == items
      ensures var before, s := AfterTurn(items, n, answer), schedulers[n];
              var total := Total(before);
              var allowed := if maxQSize > 0 then Some(if maxQSize > total then maxQSize - total else 0)
                             else if qFactor > 0
                             then Some(if |queues| * processesByWorker * qFactor > total
                                       then |queues| * processesByWorker * qFactor - total else 0)
                             else None;
              AfterTurn(items, n + 1, answer) ==
              if s in active && answer(s, allowed).Some? then Enqueue(before, routes, answer(s, allowed).value, s) else before
    {
    }

    /** Every active scheduler is asked in turn. */
    method DoGetNewActions(answer: Answer)
      requires Valid()
      modifies queues`items
      ensures Items() == AfterTurn(old(Items()), |schedulers|, answer)
    {
      for i := 0 to |schedulers|
        invariant Items() == AfterTurn(old(Items()), i, answer)
      {
        if schedulers[i] in active {
          AskScheduler(schedulers[i], answer);
        }
      }
    }

    /** The most that a turn fills the queues to; `None` means no limit. */
    function Limit(): Option<nat>
      reads this`queues
    {
      if maxQSize > 0 then Some(maxQSize) else if qFactor > 0 then Some(|queues| * processesByWorker * qFactor) else None
    }

    /** However many schedulers answer, the queues stay within max_q_size, or the factor of
        the workers' capacity, or what they held before. */
    lemma {:induction false} TurnBounded(items: seq<seq<Shell>>, n: nat, answer: Answer)
      requires RoutesTo(routes, |items|) && n <= |schedulers| && Honest(answer) && Limit().Some?
      ensures var after := Total(AfterTurn(items, n, answer));
              after <= Limit().value || after <= Total(items)
      decreases n
    {
      if n > 0 {
        var before := AfterTurn(items, n - 1, answer);
        TurnBounded(items, n - 1, answer);
        var sched := schedulers[n - 1];
        var actions := answer(sched, Allowance(Total(before)));
        if actions.Some? {
          QueueAdds(before, routes, actions.value, sched, sched, 0);
        }
      }
    }

    method ManageActionReturn(action: Shell)
      modifies this`waitHomerun
      ensures waitHomerun == Return(old(waitHomerun), action)
      ensures waitHomerun == if action.sched in old(waitHomerun)
                             then old(waitHomerun)[action.sched := old(waitHomerun)[action.sched] + [action]] else old(waitHomerun)
    {
      if action.sched in waitHomerun {
        waitHomerun := waitHomerun[action.sched := waitHomerun[action.sched] + [action]];
      }
    }

    /** Results leave only when the scheduler takes them: each waiting list splits into what
        was sent and what still waits. */
    method DoManageReturns(acks: nat -> Ack) returns (sent: HomeRun)
      requires Distinct(schedulers)
      modifies this`waitHomerun
      ensures waitHomerun.Keys == old(waitHomerun).Keys
      ensures forall s :: s in waitHomerun ==>
                            old(waitHomerun)[s] == (if s in sent then sent[s] else []) + waitHomerun[s]
      ensures forall s :: s in sent ==>
                            && s in waitHomerun && s in active && acks(s) == Taken
                            && |sent[s]| == Batch(resultsBatch, |old(waitHomerun)[s]|)
                            && |sent[s]| == (var n := |old(waitHomerun)[s]|; if 0 < resultsBatch < n then resultsBatch else n)
      ensures (forall s :: acks(s) != Broken) ==>
                forall s :: s in schedulers && s in active && s in waitHomerun && acks(s) == Taken ==> s in sent
    {
      sent := map[];
      for i := 0 to |schedulers|
        invariant waitHomerun.Keys == old(waitHomerun).Keys
        invariant forall s :: s in sent ==>
                                && s in waitHomerun && s in active && acks(s) == Taken && s in schedulers[..i]
                                && |sent[s]| == Batch(resultsBatch, |old(waitHomerun)[s]|)
        invariant forall s :: s in schedulers[..i] && s in active && s in waitHomerun && acks(s) == Taken ==> s in sent
        invariant forall s :: s in waitHomerun ==>
                                old(waitHomerun)[s] == (if s in sent then sent[s] else []) + waitHomerun[s]
      {
        var s := schedulers[i];
        if s !in active || s !in waitHomerun {
          continue;
        }
        if acks(s) == Broken {
          return;
        }
        if acks(s) == Taken {
          var batch := Batch(resultsBatch, |waitHomerun[s]|);
          assert s !in schedulers[..i];
          sent := sent[s := waitHomerun[s][..batch]];
          waitHomerun := waitHomerun[s := waitHomerun[s][batch..]];
        }
      }
    }

    // ----- Workers that start and die -----

    /** create_and_launch_worker; fails for a loaded module that has no workers, and does
        nothing for one that is not loaded. */
    method CreateAndLaunchWorker(moduleName: string, found: Loaded) returns (ok: bool)
      requires Valid() && moduleName in routes
      modifies this`queues, this`workers, this`routes
      ensures Valid() && (ok <==> found != WithoutWorkers)
      ensures found != WithWorkers ==>
                queues == old(queues) && workers == old(workers) && routes == old(routes) && Items() == old(Items())
      ensures found == WithWorkers ==>
                && |queues| > 0 && fresh(queues[|queues| - 1]) && fresh(workers[|queues| - 1])
                && queues == old(queues) + [queues[|queues| - 1]] && workers == old(workers) + [workers[|queues| - 1]]
                && Items() == old(Items()) + [[]]
                && routes == old(routes)[moduleName := old(routes[moduleName]) + [old(|queues|)]]
    {
      var q := new Queue();
      if found == WithoutWorkers {
        return false;
      }
      if found == NotLoaded {
        return true;
      }
      var w := new Worker(q, returnsQueue, processesByWorker);
      workers := workers + [w];
      routes := routes[moduleName := routes[moduleName] + [|queues|]];
      queues := queues + [q];
      ok := true;
    }

    /** The part of check_and_del_zombie_workers for one dead worker: its queue goes with all
        that waits in it. */
    method DelWorker(i: nat)
      requires Valid() && i < |workers|
      modifies this`queues, this`workers, this`routes
      ensures Valid() && queues == old(queues[..i] + queues[i + 1..]) && workers == old(workers[..i] + workers[i + 1..])
      ensures Items() == old(Items()[..i] + Items()[i + 1..]) && routes == WithoutWorker(old(routes), i)
    {
      WithoutRoutes(routes, |queues|, i);
      routes := WithoutWorker(routes, i);
      queues := queues[..i] + queues[i + 1..];
      workers := workers[..i] + workers[i + 1..];
    }

    /** A worker takes new checks from its queue. */
    method LetWork(i: nat)
      requires Valid() && i < |workers|
      modifies {workers[i]}`checks, {queues[i]}`items
      ensures var n := Room(old(Items())[i], old(workers[i].checks), processesByWorker);
              && Items() == old(Items())[i := old(Items())[i][n..]]
              && workers[i].checks == old(workers[i].checks) + old(Items())[i][..n]
    {
      workers[i].GetNewChecks();
    }

    // ----- Bounded intake over any number of turns -----

    /** The queues together hold no more than `bound`. */
    ghost predicate Within(bound: nat)
      reads this, queues
    {
      Valid() && Total(Items()) <= bound
    }

    method AskBounded(answer: Answer, ghost bound: nat)
      requires Within(bound) && 0 < maxQSize <= bound && Honest(answer)
      modifies queues`items
      ensures Within(bound)
    {
      TurnBounded(Items(), |schedulers|, answer);
      DoGetNewActions(answer);
    }

    method TakeBounded(w: nat, ghost bound: nat)
      requires Within(bound) && w < |workers|
      modifies queues`items, workers`checks
      ensures Within(bound)
    {
      ghost var items := Items();
      LetWork(w);
      TotalUpdate(items, w, Items()[w]);
    }

    method LaunchBounded(moduleName: string, found: Loaded, ghost bound: nat)
      requires Within(bound) && moduleName in routes
      modifies this`queues, this`workers, this`routes
      ensures Within(bound)
      ensures forall i :: 0 <= i < |queues| ==> queues[i] in old(queues) || fresh(queues[i])
      ensures forall i :: 0 <= i < |workers| ==> workers[i] in old(workers) || fresh(workers[i])
    {
      TotalConcat(Items(), [[]]);
      var ok := CreateAndLaunchWorker(moduleName, found);
      assert Total([[]]) == 0;
    }

    method DieBounded(w: nat, ghost bound: nat)
      requires Within(bound) && w < |workers|
      modifies this`queues, this`workers, this`routes
      ensures Within(bound)
      ensures forall i :: 0 <= i < |queues| ==> queues[i] in old(queues) || fresh(queues[i])
      ensures forall i :: 0 <= i < |workers| ==> workers[i] in old(workers) || fresh(workers[i])
    {
      TotalWithout(Items(), w);
      DelWorker(w);
    }

    method TakeTurn(t: Turn, ghost bound: nat)
      requires Within(bound) && 0 < maxQSize <= bound && (t.Ask? ==> Honest(t.answer))
      modifies this`queues, this`workers, this`routes, queues`items, workers`checks
      ensures Within(bound)
      ensures forall i :: 0 <= i < |queues| ==> queues[i] in old(queues) || fresh(queues[i])
      ensures forall i :: 0 <= i < |workers| ==> workers[i] in old(workers) || fresh(workers[i])
    {
      match t {
        case Ask(answer) => AskBounded(answer, bound);
        case Take(w) => if w < |workers| { TakeBounded(w, bound); }
        case Launch(moduleName, found) => if moduleName in routes { LaunchBounded(moduleName, found, bound); }
        case Die(w) => if w < |workers| { DieBounded(w, bound); }
      }
    }

    /** Whatever schedulers answer and whichever workers take checks, start or die, the queues
        together never hold more than max_q_size, unless they did before. */
    method Run(turns: seq<Turn>)
      requires Valid() && maxQSize > 0 && forall i :: 0 <= i < |turns| && turns[i].Ask? ==> Honest(turns[i].answer)
      modifies this`queues, this`workers, this`routes, queues`items, workers`checks
      ensures Valid() && (Total(Items()) <= maxQSize || Total(Items()) <= old(Total(Items())))
    {
      ghost var bound: nat := if Total(Items()) <= maxQSize then maxQSize else Total(Items());
      for i := 0 to |turns|
        invariant Within(bound)
        invariant forall k :: 0 <= k < |queues| ==> queues[k] in old(queues) || fresh(queues[k])
        invariant forall k :: 0 <= k < |workers| ==> workers[k] in old(workers) || fresh(workers[k])
      {
        TakeTurn(turns[i], bound);
      }
    }
  }
}
