/** Checks in the scheduler, the shells that travel for them, and what each operation of
    `shinken/scheduler.py`, `shinken/satellite.py` and `shinken/worker.py` does to them. */
module Checks {
  import opened Options

  // ----- Checks in the scheduler -----

  datatype Status = Scheduled | InPoller | WaitConsume | WaitDep | HaveToResolveDep | Zombie

  datatype Check = Check(id: nat, status: Status, priority: int, tag: string, moduleType: string,
                         internal: bool, tToGo: int)

  /** The scheduler's dictionary of checks. */
  type CheckMap = map<nat, Check>

  /** Every check with the status that `f` gives it. */
  function Marked(checks: CheckMap, f: Check -> Status): CheckMap {
    map id | id in checks :: checks[id].(status := f(checks[id]))
  }

  /** Ready to be given to a satellite with these tags and module types. */
  predicate Eligible(c: Check, tags: set<string>, modules: set<string>, now: int) {
    c.tag in tags && c.moduleType in modules && c.status == Scheduled && now > c.tToGo && !c.internal
  }

  function HandOut(checks: CheckMap, ids: seq<nat>): CheckMap {
    Marked(checks, (c: Check) => if c.id in ids then InPoller else c.status)
  }

  /** put_results: the result of an unknown check is ignored. */
  function Put(checks: CheckMap, s: Shell): CheckMap {
    if s.id in checks then checks[s.id := checks[s.id].(status := WaitConsume)] else checks
  }

  function PutAll(checks: CheckMap, results: seq<Shell>): CheckMap {
    if results == [] then checks else Put(PutAll(checks, results[..|results| - 1]), results[|results| - 1])
  }

  /** What the items make of their checks: a status for each check that waits to be consumed,
      whether a waiting check has no dependency left, and a status for each of those. */
  datatype Judge = Judge(first: nat -> Status, ready: nat -> bool, second: nat -> Status) {
    /** No check is put back to be polled. */
    ghost predicate Fair() {
      forall id: nat :: Past(first(id)) && Past(second(id))
    }
  }

  /** Beyond being polled. */
  predicate Past(s: Status) {
    s != Scheduled && s != InPoller
  }

  function Consumed(checks: CheckMap, j: Judge): CheckMap {
    Marked(checks, (c: Check) => if c.status == WaitConsume then j.first(c.id) else c.status)
  }

  function Resolved(checks: CheckMap): CheckMap {
    Marked(checks, (c: Check) => if c.status == HaveToResolveDep then Zombie else c.status)
  }

  function Reintegrated(checks: CheckMap, j: Judge): CheckMap {
    Marked(checks, (c: Check) => if c.status == WaitDep && j.ready(c.id) then j.second(c.id) else c.status)
  }

  /** consume_results */
  function Collected(checks: CheckMap, results: seq<Shell>, j: Judge): CheckMap {
    Reintegrated(Resolved(Consumed(PutAll(checks, results), j)), j)
  }

  /** A check that has been away too long; a limit of 0 switches this off. */
  predicate Orphaned(c: Check, limit: int, now: int) {
    limit != 0 && c.status == InPoller && c.tToGo < now - limit
  }

  /** check_orphaned */
  function Reenabled(checks: CheckMap, limit: nat -> int, now: int): CheckMap {
    Marked(checks, (c: Check) => if Orphaned(c, limit(c.id), now) then Scheduled else c.status)
  }

  /** delete_zombie_checks */
  function WithoutZombies(checks: CheckMap): CheckMap {
    map id | id in checks && checks[id].status != Zombie :: checks[id]
  }

  /** The dictionary is keyed by the checks' own ids. */
  predicate Keyed(checks: CheckMap) {
    forall id :: id in checks ==> checks[id].id == id
  }

  // ----- Shells on their way -----

  datatype ShellStatus = Fresh | Queued | Launched | Done | TimedOut

  /** What a satellite gets to run a check. */
  datatype Shell = Shell(id: nat, sched: nat, moduleType: string, status: ShellStatus)

  /** How many of the shells are for check `id` of scheduler `me`. */
  function Count(shells: seq<Shell>, me: nat, id: nat): nat {
    if shells == [] then 0
    else Count(shells[..|shells| - 1], me, id) +
         (if shells[|shells| - 1].sched == me && shells[|shells| - 1].id == id then 1 else 0)
  }

  function CountAll(lists: seq<seq<Shell>>, me: nat, id: nat): nat {
    if lists == [] then 0 else CountAll(lists[..|lists| - 1], me, id) + Count(lists[|lists| - 1], me, id)
  }

  function Total(lists: seq<seq<Shell>>): nat {
    if lists == [] then 0 else Total(lists[..|lists| - 1]) + |lists[|lists| - 1]|
  }

  // ----- The satellite's queues -----

  /** Which workers serve a module, in order. */
  type Routes = map<string, seq<nat>>

  predicate RoutesTo(routes: Routes, n: nat) {
    forall m, k :: m in routes && 0 <= k < |routes[m]| ==> routes[m][k] < n
  }

  /** _got_queue_from_action: the workers of a module take turns. */
  function Route(routes: Routes, s: Shell): Option<nat>
    requires s.moduleType in routes
  {
    var workers := routes[s.moduleType];
    if workers == [] then None else Some(workers[s.id % |workers|])
  }

  /** add_actions: a shell whose module has no worker is dropped, and an unknown module ends
      the whole batch. */
  function Enqueue(queues: seq<seq<Shell>>, routes: Routes, batch: seq<Shell>, sched: nat): (r: seq<seq<Shell>>)
    requires RoutesTo(routes, |queues|)
    ensures |r| == |queues|
    decreases |batch|
  {
    if batch == [] || batch[0].moduleType !in routes then queues
    else
      var s := batch[0].(sched := sched, status := Queued);
      var q := Route(routes, s);
      Enqueue(if q.None? then queues else queues[q.value := queues[q.value] + [s]], routes, batch[1..], sched)
  }

  /** The shells of a batch that go to queue `q`, in order: each to the worker that its id
      selects among those of its module, up to the first unknown module. */
  function RoutedTo(routes: Routes, batch: seq<Shell>, sched: nat, q: nat): seq<Shell> {
    if batch == [] || batch[0].moduleType !in routes then []
    else
      var workers := routes[batch[0].moduleType];
      (if workers != [] && workers[batch[0].id % |workers|] == q then [batch[0].(sched := sched, status := Queued)] else [])
      + RoutedTo(routes, batch[1..], sched, q)
  }

  lemma {:induction false} EnqueueExactly(queues: seq<seq<Shell>>, routes: Routes, batch: seq<Shell>, sched: nat, q: nat)
    requires RoutesTo(routes, |queues|) && q < |queues|
    ensures Enqueue(queues, routes, batch, sched)[q] == queues[q] + RoutedTo(routes, batch, sched, q)
    decreases |batch|
  {
    if batch != [] && batch[0].moduleType in routes {
      var s := batch[0].(sched := sched, status := Queued);
      var workers := routes[s.moduleType];
      if workers != [] {
        var i := workers[s.id % |workers|];
        EnqueueExactly(queues[i := queues[i] + [s]], routes, batch[1..], sched, q);
        Appended(queues[q], s, RoutedTo(routes, batch[1..], sched, q));
      } else {
        EnqueueExactly(queues, routes, batch[1..], sched, q);
      }
    }
  }

  lemma Appended(a: seq<Shell>, s: Shell, b: seq<Shell>)
    ensures a + [s] + b == a + ([s] + b) && [] + b == b
  {
  }

  /** In a batch of known modules every shell with a worker goes to one. */
  lemma {:induction false} RoutedThere(routes: Routes, batch: seq<Shell>, sched: nat, j: nat)
    requires j < |batch| && forall k :: 0 <= k <= j ==> batch[k].moduleType in routes
    requires routes[batch[j].moduleType] != []
    ensures var workers := routes[batch[j].moduleType];
            batch[j].(sched := sched, status := Queued) in RoutedTo(routes, batch, sched, workers[batch[j].id % |workers|])
    decreases j
  {
    if j > 0 {
      assert batch[1..][j - 1] == batch[j];
      assert forall k :: 0 <= k < j ==> batch[1..][k] == batch[k + 1];
      RoutedThere(routes, batch[1..], sched, j - 1);
    }
  }

  /** The shells of a batch that have a worker, up to the first unknown module. */
  function Served(routes: Routes, batch: seq<Shell>): (n: nat)
    ensures n <= |batch|
    ensures (forall k :: 0 <= k < |batch| ==> batch[k].moduleType in routes && routes[batch[k].moduleType] != []) ==> n == |batch|
  {
    if batch == [] || batch[0].moduleType !in routes then 0
    else (if routes[batch[0].moduleType] != [] then 1 else 0) + Served(routes, batch[1..])
  }

  /** Queueing adds exactly those. */
  lemma {:induction false} EnqueueTotal(queues: seq<seq<Shell>>, routes: Routes, batch: seq<Shell>, sched: nat)
    requires RoutesTo(routes, |queues|)
    ensures Total(Enqueue(queues, routes, batch, sched)) == Total(queues) + Served(routes, batch)
    decreases |batch|
  {
    if batch != [] && batch[0].moduleType in routes {
      var s := batch[0].(sched := sched, status := Queued);
      var q := Route(routes, s);
      if q.Some? {
        TotalUpdate(queues, q.value, queues[q.value] + [s]);
        EnqueueTotal(queues[q.value := queues[q.value] + [s]], routes, batch[1..], sched);
      } else {
        EnqueueTotal(queues, routes, batch[1..], sched);
      }
    }
  }

  /** get_new_checks: how many shells a worker takes from its queue. */
  function Room(queue: seq<Shell>, list: seq<Shell>, limit: nat): (n: nat)
    ensures n <= |queue|
    ensures n > 0 ==> |list| + n <= limit
    ensures n < |queue| ==> |list| + n >= limit
  {
    if |list| >= limit then 0 else if |queue| <= limit - |list| then |queue| else limit - |list|
  }

  /** A status for each shell of a worker, as an oracle. */
  type Poll = Shell -> ShellStatus

  function Polled(list: seq<Shell>, poll: Poll): (r: seq<Shell>)
    ensures |r| == |list|
  {
    if list == [] then []
    else Polled(list[..|list| - 1], poll) + [list[|list| - 1].(status := poll(list[|list| - 1]))]
  }

  predicate IsDone(s: Shell) {
    s.status == Done || s.status == TimedOut
  }

  function Finished(list: seq<Shell>): seq<Shell> {
    if list == [] then [] else Finished(list[..|list| - 1]) + if IsDone(list[|list| - 1]) then [list[|list| - 1]] else []
  }

  function Unfinished(list: seq<Shell>): (r: seq<Shell>)
    ensures |r| <= |list|
  {
    if list == [] then [] else Unfinished(list[..|list| - 1]) + if IsDone(list[|list| - 1]) then [] else [list[|list| - 1]]
  }

  /** What waits to go back, by scheduler. */
  type HomeRun = map<nat, seq<Shell>>

  /** manage_action_return: the result for an unknown scheduler is dropped. */
  function Return(home: HomeRun, s: Shell): HomeRun {
    if s.sched in home then home[s.sched := home[s.sched] + [s]] else home
  }

  /** How many results do_manage_returns sends at once; 0 means all. */
  function Batch(limit: int, n: nat): (k: nat)
    ensures k <= n
  {
    if limit > 0 && limit < n then limit else n
  }

  // ----- Counting -----

  lemma {:induction false} CountConcat(a: seq<Shell>, b: seq<Shell>, me: nat, id: nat)
    ensures Count(a + b, me, id) == Count(a, me, id) + Count(b, me, id)
    decreases |b|
  {
    if b == [] {
      assert a + b == a;
    } else {
      assert (a + b)[..|a + b| - 1] == a + b[..|b| - 1];
      CountConcat(a, b[..|b| - 1], me, id);
    }
  }

  lemma CountOne(s: Shell, me: nat, id: nat)
    ensures Count([s], me, id) == if s.sched == me && s.id == id then 1 else 0
  {
    assert [s][..0] == [];
  }

  lemma {:induction false} CountAllUpdate(lists: seq<seq<Shell>>, i: nat, l: seq<Shell>, me: nat, id: nat)
    requires i < |lists|
    ensures CountAll(lists[i := l], me, id) == CountAll(lists, me, id) - Count(lists[i], me, id) + Count(l, me, id)
    decreases |lists|
  {
    var n := |lists| - 1;
    if i < n {
      assert lists[i := l][..n] == lists[..n][i := l];
      CountAllUpdate(lists[..n], i, l, me, id);
    } else {
      assert lists[i := l][..n] == lists[..n];
    }
  }

  lemma {:induction false} TotalUpdate(lists: seq<seq<Shell>>, i: nat, l: seq<Shell>)
    requires i < |lists|
    ensures Total(lists[i := l]) == Total(lists) - |lists[i]| + |l|
    decreases |lists|
  {
    var n := |lists| - 1;
    if i < n {
      assert lists[i := l][..n] == lists[..n][i := l];
      TotalUpdate(lists[..n], i, l);
    } else {
      assert lists[i := l][..n] == lists[..n];
    }
  }

  /** Queueing a batch adds at most the batch: in number, for each check, and nothing for
      other schedulers. */
  lemma {:induction false} QueueAdds(queues: seq<seq<Shell>>, routes: Routes, batch: seq<Shell>, sched: nat, me: nat, id: nat)
    requires RoutesTo(routes, |queues|) && forall k :: 0 <= k < |batch| ==> batch[k].sched == sched
    ensures var r := Enqueue(queues, routes, batch, sched);
            && CountAll(r, me, id) <= CountAll(queues, me, id) + Count(batch, me, id)
            && Total(r) <= Total(queues) + |batch|
    decreases |batch|
  {
    if batch != [] {
      assert batch == [batch[0]] + batch[1..];
      CountConcat([batch[0]], batch[1..], me, id);
      CountOne(batch[0], me, id);
      if batch[0].moduleType in routes {
        var s := batch[0].(sched := sched, status := Queued);
        var q := Route(routes, s);
        if q.Some? {
          QueueOne(queues, q.value, s, me, id);
          QueueAdds(queues[q.value := queues[q.value] + [s]], routes, batch[1..], sched, me, id);
        } else {
          QueueAdds(queues, routes, batch[1..], sched, me, id);
        }
      }
    }
  }

  lemma QueueOne(queues: seq<seq<Shell>>, i: nat, s: Shell, me: nat, id: nat)
    requires i < |queues|
    ensures var r := queues[i := queues[i] + [s]];
            CountAll(r, me, id) == CountAll(queues, me, id) + Count([s], me, id) && Total(r) == Total(queues) + 1
    ensures Count([s], me, id) == if s.sched == me && s.id == id then 1 else 0
  {
    CountAllUpdate(queues, i, queues[i] + [s], me, id);
    CountConcat(queues[i], [s], me, id);
    TotalUpdate(queues, i, queues[i] + [s]);
    CountOne(s, me, id);
  }

  /** A change of status does not change what a shell is for. */
  lemma {:induction false} PolledCount(list: seq<Shell>, poll: Poll, me: nat, id: nat)
    ensures Count(Polled(list, poll), me, id) == Count(list, me, id)
    decreases |list|
  {
    if list != [] {
      PolledCount(list[..|list| - 1], poll, me, id);
      var last := list[|list| - 1].(status := poll(list[|list| - 1]));
      CountConcat(Polled(list[..|list| - 1], poll), [last], me, id);
      CountOne(last, me, id);
    }
  }

  lemma CountAppend(shells: seq<Shell>, s: Shell, me: nat, id: nat)
    ensures Count(shells + [s], me, id) == Count(shells, me, id) + if s.sched == me && s.id == id then 1 else 0
  {
    assert (shells + [s])[..|shells|] == shells;
  }

  /** Finishing splits the worker's list. */
  lemma {:induction false} FinishedCount(list: seq<Shell>, me: nat, id: nat)
    ensures Count(Finished(list), me, id) + Count(Unfinished(list), me, id) == Count(list, me, id)
    decreases |list|
  {
    if list != [] {
      var init, last := list[..|list| - 1], list[|list| - 1];
      FinishedCount(init, me, id);
      if IsDone(last) {
        CountAppend(Finished(init), last, me, id);
        assert Unfinished(list) == Unfinished(init);
      } else {
        CountAppend(Unfinished(init), last, me, id);
        assert Finished(list) == Finished(init);
      }
    }
  }

  lemma {:induction false} PolledIs(list: seq<Shell>, poll: Poll, i: nat)
    requires i < |list|
    ensures Polled(list, poll)[i] == list[i].(status := poll(list[i]))
    decreases |list|
  {
    if i < |list| - 1 {
      PolledIs(list[..|list| - 1], poll, i);
      assert list[..|list| - 1][i] == list[i];
    }
  }

  /** What is done or timed out leaves, all else stays. */
  lemma {:induction false} FinishedIs(list: seq<Shell>)
    ensures forall s :: s in Finished(list) ==> s.status == Done || s.status == TimedOut
    ensures forall s :: s in Unfinished(list) ==> s.status != Done && s.status != TimedOut
    decreases |list|
  {
    if list != [] {
      FinishedIs(list[..|list| - 1]);
    }
  }

  /** Nothing is lost or doubled. */
  lemma {:induction false} FinishedAll(list: seq<Shell>)
    ensures multiset(Finished(list)) + multiset(Unfinished(list)) == multiset(list)
    decreases |list|
  {
    if list != [] {
      var init, last := list[..|list| - 1], list[|list| - 1];
      FinishedAll(init);
      assert list == init + [last];
      if IsDone(last) {
        assert Finished(list) == Finished(init) + [last] && Unfinished(list) == Unfinished(init);
      } else {
        assert Unfinished(list) == Unfinished(init) + [last] && Finished(list) == Finished(init);
      }
    }
  }

  /** Both keep the order, of any two lists one after the other. */
  lemma {:induction false} FinishedConcat(a: seq<Shell>, b: seq<Shell>)
    ensures Finished(a + b) == Finished(a) + Finished(b) && Unfinished(a + b) == Unfinished(a) + Unfinished(b)
    decreases |b|
  {
    if b == [] {
      assert a + b == a;
    } else {
      assert (a + b)[..|a + b| - 1] == a + b[..|b| - 1];
      FinishedConcat(a, b[..|b| - 1]);
    }
  }

  /** The first results and the rest are all the results. */
  lemma CountSplit(s: seq<Shell>, k: nat, me: nat, id: nat)
    requires k <= |s|
    ensures Count(s[..k], me, id) + Count(s[k..], me, id) == Count(s, me, id)
  {
    CountConcat(s[..k], s[k..], me, id);
    assert s[..k] + s[k..] == s;
  }
}
