/** The way of a check from a scheduler through satellites and their workers and back, as
    runs of steps that interleave freely and may lose what they carry. */
module Pipelines {
  import opened Lists
  import opened Checks

  // ----- States -----

  /** A satellite: a queue and a list for each worker, the queue of returned actions, and
      what waits to go home. */
  datatype Sat = Sat(queues: seq<seq<Shell>>, lists: seq<seq<Shell>>, back: seq<Shell>, home: HomeRun)

  /** What has happened to the checks so far. */
  datatype History = History(used: set<nat>, handouts: map<nat, nat>, reenables: map<nat, nat>,
                             results: map<nat, nat>, forced: set<nat>)

  /** The scheduler's checks and waiting results, its replies on the way to satellites, the
      satellites, and the history. */
  datatype State = State(checks: CheckMap, waiting: seq<Shell>, replies: seq<seq<Shell>>, sats: seq<Sat>, past: History)

  function Get(m: map<nat, nat>, id: nat): nat {
    if id in m then m[id] else 0
  }

  function HomeCount(home: HomeRun, me: nat, id: nat): nat {
    if me in home then Count(home[me], me, id) else 0
  }

  function SatCount(s: Sat, me: nat, id: nat): nat {
    CountAll(s.queues, me, id) + CountAll(s.lists, me, id) + Count(s.back, me, id) + HomeCount(s.home, me, id)
  }

  function SatsCount(sats: seq<Sat>, me: nat, id: nat): nat {
    if sats == [] then 0 else SatsCount(sats[..|sats| - 1], me, id) + SatCount(sats[|sats| - 1], me, id)
  }

  /** The shells of a check that are still on their way, wherever. */
  function Live(st: State, me: nat, id: nat): nat {
    Count(st.waiting, me, id) + CountAll(st.replies, me, id) + SatsCount(st.sats, me, id)
  }

  // ----- Steps -----

  datatype Step =
    | Create(check: Check)
    | GiveOut(ids: seq<nat>)
    | LoseReply(i: nat)
    | Deliver(i: nat, k: nat, routes: Routes)
    | Other(k: nat, routes: Routes, batch: seq<Shell>, sched: nat)
    | Fetch(k: nat, w: nat, limit: nat)
    | Work(k: nat, w: nat, poll: Poll)
    | Die(k: nat, w: nat)
    | TakeReturn(k: nat)
    | Forget(k: nat, sched: nat)
    | Meet(k: nat, sched: nat)
    | Report(k: nat, atOnce: int)
    | Collect(judge: Judge)
    | Orphans(age: nat -> int, now: int)
    | Bury
    | Force(those: set<nat>)
    | Remove(those: set<nat>)

  function Add(m: map<nat, nat>, ids: set<nat>): map<nat, nat> {
    map id | id in m.Keys + ids :: Get(m, id) + if id in ids then 1 else 0
  }

  function Shells(checks: CheckMap, ids: seq<nat>, me: nat): (r: seq<Shell>)
    requires forall k :: 0 <= k < |ids| ==> ids[k] in checks
    ensures |r| == |ids|
    ensures forall k :: 0 <= k < |ids| ==> r[k] == Shell(ids[k], me, checks[ids[k]].moduleType, Fresh)
  {
    seq(|ids|, k requires 0 <= k < |ids| => Shell(ids[k], me, checks[ids[k]].moduleType, Fresh))
  }

  ghost predicate Enabled(st: State, me: nat, step: Step) {
    match step
    case Create(c) => c.id !in st.past.used && c.status == Scheduled
    case GiveOut(ids) => Distinct(ids) && forall k :: 0 <= k < |ids| ==> ids[k] in st.checks && st.checks[ids[k]].status == Scheduled
    case LoseReply(i) => i < |st.replies|
    case Deliver(i, k, routes) => i < |st.replies| && k < |st.sats| && RoutesTo(routes, |st.sats[k].queues|)
    case Other(k, routes, batch, sched) =>
      sched != me && k < |st.sats| && RoutesTo(routes, |st.sats[k].queues|) && forall j :: 0 <= j < |batch| ==> batch[j].sched == sched
    case Fetch(k, w, _) => k < |st.sats| && w < |st.sats[k].queues| && w < |st.sats[k].lists|
    case Work(k, w, _) => k < |st.sats| && w < |st.sats[k].lists|
    case Die(k, w) => k < |st.sats| && w < |st.sats[k].queues| && w < |st.sats[k].lists|
    case TakeReturn(k) => k < |st.sats| && st.sats[k].back != []
    case Forget(k, _) => k < |st.sats|
    case Meet(k, sched) => k < |st.sats| && sched !in st.sats[k].home
    case Report(k, _) => k < |st.sats| && me in st.sats[k].home
    case Collect(judge) => judge.Fair()
    case Orphans(_, _) => true
    case Bury => true
    case Force(_) => true
    case Remove(_) => true
  }

  /** Checks that a batch of results reaches. */
  function Reached(checks: CheckMap, results: seq<Shell>): (r: map<nat, nat>) {
    if results == [] then map[]
    else
      var r := Reached(checks, results[..|results| - 1]);
      var id := results[|results| - 1].id;
      if id in checks then r[id := Get(r, id) + 1] else r
  }

  function Plus(a: map<nat, nat>, b: map<nat, nat>): map<nat, nat> {
    map id | id in a.Keys + b.Keys :: Get(a, id) + Get(b, id)
  }

  function NextSat(s: Sat, me: nat, step: Step): Sat
    requires step.Fetch? ==> step.w < |s.queues| && step.w < |s.lists|
    requires step.Work? ==> step.w < |s.lists|
    requires step.Die? ==> step.w < |s.queues| && step.w < |s.lists|
    requires step.TakeReturn? ==> s.back != []
  {
    match step
    case Fetch(_, w, limit) =>
      var n := Room(s.queues[w], s.lists[w], limit);
      s.(queues := s.queues[w := s.queues[w][n..]], lists := s.lists[w := s.lists[w] + s.queues[w][..n]])
    case Work(_, w, poll) =>
      var list := Polled(s.lists[w], poll);
      s.(lists := s.lists[w := Unfinished(list)], back := s.back + Finished(list))
    case Die(_, w) => s.(queues := s.queues[w := []], lists := s.lists[w := []])
    case TakeReturn(_) => s.(back := s.back[1..], home := Return(s.home, s.back[0]))
    case Forget(_, sched) => s.(home := s.home - {sched})
    case Meet(_, sched) => s.(home := s.home[sched := []])
    case _ => s
  }

  ghost function Next(st: State, me: nat, step: Step): State
    requires Enabled(st, me, step)
  {
    var past := st.past;
    match step
    case Create(c) => st.(checks := st.checks[c.id := c], past := past.(used := past.used + {c.id}))
    case GiveOut(ids) =>
      st.(checks := HandOut(st.checks, ids), replies := st.replies + [Shells(st.checks, ids, me)],
      past := past.(handouts := Add(past.handouts, set k | 0 <= k < |ids| :: ids[k])))
    case LoseReply(i) => st.(replies := st.replies[i := []])
    case Deliver(i, k, routes) =>
      st.(replies := st.replies[i := []],
      sats := st.sats[k := st.sats[k].(queues := Enqueue(st.sats[k].queues, routes, st.replies[i], me))])
    case Other(k, routes, batch, sched) =>
      st.(sats := st.sats[k := st.sats[k].(queues := Enqueue(st.sats[k].queues, routes, batch, sched))])
    case Report(k, limit) =>
      var home := st.sats[k].home[me];
      var n := Batch(limit, |home|);
      st.(waiting := st.waiting + home[..n], sats := st.sats[k := st.sats[k].(home := st.sats[k].home[me := home[n..]])])
    case Collect(judge) =>
      st.(checks := Collected(st.checks, st.waiting, judge), waiting := [],
      past := past.(results := Plus(past.results, Reached(st.checks, st.waiting))))
    case Orphans(limit, now) =>
      st.(checks := Reenabled(st.checks, limit, now),
      past := past.(reenables := Add(past.reenables, set id | id in st.checks && Orphaned(st.checks[id], limit(st.checks[id].id), now))))
    case Bury => st.(checks := WithoutZombies(st.checks))
    case Force(ids) =>
      st.(checks := Marked(st.checks, (c: Check) => if c.id in ids then WaitConsume else c.status),
      past := past.(forced := past.forced + (ids * st.checks.Keys)))
    case Remove(ids) => st.(checks := st.checks - ids)
    case Fetch(k, _, _) => st.(sats := st.sats[k := NextSat(st.sats[k], me, step)])
    case Work(k, _, _) => st.(sats := st.sats[k := NextSat(st.sats[k], me, step)])
    case Die(k, _) => st.(sats := st.sats[k := NextSat(st.sats[k], me, step)])
    case TakeReturn(k) => st.(sats := st.sats[k := NextSat(st.sats[k], me, step)])
    case Forget(k, _) => st.(sats := st.sats[k := NextSat(st.sats[k], me, step)])
    case Meet(k, _) => st.(sats := st.sats[k := NextSat(st.sats[k], me, step)])
  }

  // ----- What every step keeps -----

  predicate IsScheduled(st: State, id: nat) {
    id in st.checks && st.checks[id].status == Scheduled
  }

  predicate IsPast(st: State, id: nat) {
    id in st.checks && Past(st.checks[id].status)
  }

  /** Hand-outs are paid for by re-enables, results and live shells by hand-outs. */
  predicate Good(st: State, me: nat, id: nat) {
    var h, r, n := Get(st.past.handouts, id), Get(st.past.reenables, id), Get(st.past.results, id);
    && h <= r + (if IsScheduled(st, id) then 0 else 1)
    && n + Live(st, me, id) <= h
    && (IsPast(st, id) ==> n >= 1 || id in st.past.forced)
    && (id !in st.past.used ==> id !in st.checks && h == 0)
    && (id in st.past.forced ==> id in st.past.used && (id in st.checks ==> IsPast(st, id)))
  }

  predicate Mine(shells: seq<Shell>, me: nat) {
    forall j :: 0 <= j < |shells| ==> shells[j].sched == me
  }

  predicate HomeMine(home: HomeRun, me: nat) {
    me in home ==> Mine(home[me], me)
  }

  /** What comes from and goes to the scheduler is its own. */
  predicate Tidy(st: State, me: nat) {
    && Keyed(st.checks) && Mine(st.waiting, me)
    && (forall i :: 0 <= i < |st.replies| ==> Mine(st.replies[i], me))
    && (forall k :: 0 <= k < |st.sats| ==> HomeMine(st.sats[k].home, me))
  }

  // satellites

  lemma {:induction false} SatsUpdate(sats: seq<Sat>, k: nat, s: Sat, me: nat, id: nat)
    requires k < |sats|
    ensures SatsCount(sats[k := s], me, id) == SatsCount(sats, me, id) - SatCount(sats[k], me, id) + SatCount(s, me, id)
    decreases |sats|
  {
    var n := |sats| - 1;
    if k < n {
      assert sats[k := s][..n] == sats[..n][k := s];
      SatsUpdate(sats[..n], k, s, me, id);
    } else {
      assert sats[k := s][..n] == sats[..n];
    }
  }

  lemma FetchCount(s: Sat, w: nat, limit: nat, me: nat, id: nat)
    requires w < |s.queues| && w < |s.lists|
    ensures SatCount(NextSat(s, me, Fetch(0, w, limit)), me, id) == SatCount(s, me, id)
  {
    var n := Room(s.queues[w], s.lists[w], limit);
    CountAllUpdate(s.queues, w, s.queues[w][n..], me, id);
    CountAllUpdate(s.lists, w, s.lists[w] + s.queues[w][..n], me, id);
    CountSplit(s.queues[w], n, me, id);
    CountConcat(s.lists[w], s.queues[w][..n], me, id);
  }

  lemma WorkCount(s: Sat, w: nat, poll: Poll, me: nat, id: nat)
    requires w < |s.lists|
    ensures SatCount(NextSat(s, me, Work(0, w, poll)), me, id) == SatCount(s, me, id)
  {
    var list := Polled(s.lists[w], poll);
    CountAllUpdate(s.lists, w, Unfinished(list), me, id);
    PolledCount(s.lists[w], poll, me, id);
    FinishedCount(list, me, id);
    CountConcat(s.back, Finished(list), me, id);
  }

  lemma DieCount(s: Sat, w: nat, me: nat, id: nat)
    requires w < |s.queues| && w < |s.lists|
    ensures SatCount(NextSat(s, me, Die(0, w)), me, id) <= SatCount(s, me, id)
  {
    CountAllUpdate(s.queues, w, [], me, id);
    CountAllUpdate(s.lists, w, [], me, id);
  }

  lemma TakeReturnCount(s: Sat, me: nat, id: nat)
    requires s.back != []
    ensures SatCount(NextSat(s, me, TakeReturn(0)), me, id) <= SatCount(s, me, id)
  {
    var first := s.back[0];
    CountSplit(s.back, 1, me, id);
    assert s.back[..1] == [first];
    CountOne(first, me, id);
    if first.sched in s.home {
      CountConcat(s.home[first.sched], [first], me, id);
    }
  }

  /** No step inside a satellite makes a shell. */
  lemma SatStep(s: Sat, me: nat, step: Step, id: nat)
    requires step.Fetch? ==> step.w < |s.queues| && step.w < |s.lists|
    requires step.Work? ==> step.w < |s.lists|
    requires step.Die? ==> step.w < |s.queues| && step.w < |s.lists|
    requires step.TakeReturn? ==> s.back != []
    requires step.Meet? ==> step.sched !in s.home
    ensures SatCount(NextSat(s, me, step), me, id) <= SatCount(s, me, id)
  {
    match step {
      case Fetch(_, w, limit) => FetchCount(s, w, limit, me, id);
      case Work(_, w, poll) => WorkCount(s, w, poll, me, id);
      case Die(_, w) => DieCount(s, w, me, id);
      case TakeReturn(_) => TakeReturnCount(s, me, id);
      case _ =>
    }
  }

  // the scheduler

  lemma {:induction false} ShellsCount(checks: CheckMap, ids: seq<nat>, me: nat, id: nat)
    requires Distinct(ids) && forall k :: 0 <= k < |ids| ==> ids[k] in checks
    ensures Count(Shells(checks, ids, me), me, id) == if id in ids then 1 else 0
    decreases |ids|
  {
    if ids != [] {
      var init, last := ids[..|ids| - 1], ids[|ids| - 1];
      assert Shells(checks, ids, me)[..|ids| - 1] == Shells(checks, init, me);
      ShellsCount(checks, init, me, id);
      assert ids == init + [last] && last !in init;
    }
  }

  lemma {:induction false} ReachedCount(checks: CheckMap, results: seq<Shell>, me: nat, id: nat)
    requires forall j :: 0 <= j < |results| ==> results[j].sched == me
    ensures Get(Reached(checks, results), id) == if id in checks then Count(results, me, id) else 0
    decreases |results|
  {
    if results != [] {
      ReachedCount(checks, results[..|results| - 1], me, id);
    }
  }

  lemma {:induction false} PutAllStatus(checks: CheckMap, results: seq<Shell>, me: nat, id: nat)
    requires Keyed(checks) && forall j :: 0 <= j < |results| ==> results[j].sched == me
    ensures var after := PutAll(checks, results);
            && after.Keys == checks.Keys && Keyed(after)
            && (id in checks ==> after[id].status == if Count(results, me, id) > 0 then WaitConsume else checks[id].status)
    decreases |results|
  {
    if results != [] {
      PutAllStatus(checks, results[..|results| - 1], me, id);
    }
  }

  lemma MarkedStatus(checks: CheckMap, f: Check -> Status, id: nat)
    requires Keyed(checks)
    ensures Marked(checks, f).Keys == checks.Keys && Keyed(Marked(checks, f))
    ensures id in checks ==> Marked(checks, f)[id].status == f(checks[id])
  {
  }

  /** After the results have been put, the items' verdicts put no check back. */
  lemma JudgedStatus(checks: CheckMap, j: Judge, id: nat)
    requires Keyed(checks) && j.Fair()
    ensures var after := Reintegrated(Resolved(Consumed(checks, j)), j);
            && after.Keys == checks.Keys && Keyed(after)
            && (id in checks ==> if Past(checks[id].status) then Past(after[id].status) else after[id].status == checks[id].status)
  {
    var c2 := Consumed(checks, j);
    var c3 := Resolved(c2);
    MarkedStatus(checks, (c: Check) => if c.status == WaitConsume then j.first(c.id) else c.status, id);
    MarkedStatus(c2, (c: Check) => if c.status == HaveToResolveDep then Zombie else c.status, id);
    MarkedStatus(c3, (c: Check) => if c.status == WaitDep && j.ready(c.id) then j.second(c.id) else c.status, id);
  }

  lemma CollectedStatus(checks: CheckMap, results: seq<Shell>, j: Judge, me: nat, id: nat)
    requires Keyed(checks) && j.Fair() && forall k :: 0 <= k < |results| ==> results[k].sched == me
    ensures var after := Collected(checks, results, j);
            && after.Keys == checks.Keys && Keyed(after)
            && (id in checks ==>
                  if Past(checks[id].status) || Count(results, me, id) > 0 then Past(after[id].status)
                  else after[id].status == checks[id].status)
  {
    PutAllStatus(checks, results, me, id);
    JudgedStatus(PutAll(checks, results), j, id);
  }

  // step by step

  lemma CreateKeeps(st: State, me: nat, c: Check, id: nat)
    requires Good(st, me, id) && Enabled(st, me, Create(c))
    ensures Good(Next(st, me, Create(c)), me, id)
  {
  }

  /** Giving out puts one more shell on the way for each check given out. */
  lemma GiveOutLive(st: State, me: nat, ids: seq<nat>, id: nat)
    requires Enabled(st, me, GiveOut(ids))
    ensures Live(Next(st, me, GiveOut(ids)), me, id) == Live(st, me, id) + if id in ids then 1 else 0
  {
    var st' := Next(st, me, GiveOut(ids));
    ShellsCount(st.checks, ids, me, id);
    assert st'.replies[..|st.replies|] == st.replies;
  }

  lemma GiveOutStatus(st: State, me: nat, ids: seq<nat>, id: nat)
    requires Tidy(st, me) && Enabled(st, me, GiveOut(ids))
    ensures var st' := Next(st, me, GiveOut(ids));
            && st'.checks.Keys == st.checks.Keys
            && (id in ids ==> IsScheduled(st, id) && st'.checks[id].status == InPoller)
            && (id !in ids && id in st.checks ==> st'.checks[id] == st.checks[id])
  {
    if id in ids {
      var k :| 0 <= k < |ids| && ids[k] == id;
    }
  }

  lemma GiveOutPast(st: State, me: nat, ids: seq<nat>, id: nat)
    requires Enabled(st, me, GiveOut(ids))
    ensures var st' := Next(st, me, GiveOut(ids));
            && st'.past == st.past.(handouts := st'.past.handouts)
            && Get(st'.past.handouts, id) == Get(st.past.handouts, id) + if id in ids then 1 else 0
  {
    var given := set k | 0 <= k < |ids| :: ids[k];
    assert id in ids <==> id in given;
  }

  lemma GiveOutKeeps(st: State, me: nat, ids: seq<nat>, id: nat)
    requires Good(st, me, id) && Tidy(st, me) && Enabled(st, me, GiveOut(ids))
    ensures Good(Next(st, me, GiveOut(ids)), me, id)
  {
    GiveOutLive(st, me, ids, id);
    GiveOutStatus(st, me, ids, id);
    GiveOutPast(st, me, ids, id);
  }

  lemma LoseReplyKeeps(st: State, me: nat, i: nat, id: nat)
    requires Good(st, me, id) && Enabled(st, me, LoseReply(i))
    ensures Good(Next(st, me, LoseReply(i)), me, id)
  {
    CountAllUpdate(st.replies, i, [], me, id);
  }

  lemma DeliverKeeps(st: State, me: nat, i: nat, k: nat, routes: Routes, id: nat)
    requires Good(st, me, id) && Tidy(st, me) && Enabled(st, me, Deliver(i, k, routes))
    ensures Good(Next(st, me, Deliver(i, k, routes)), me, id)
  {
    var s := st.sats[k];
    CountAllUpdate(st.replies, i, [], me, id);
    QueueAdds(s.queues, routes, st.replies[i], me, me, id);
    SatsUpdate(st.sats, k, s.(queues := Enqueue(s.queues, routes, st.replies[i], me)), me, id);
  }

  lemma OtherKeeps(st: State, me: nat, k: nat, routes: Routes, batch: seq<Shell>, sched: nat, id: nat)
    requires Good(st, me, id) && Enabled(st, me, Other(k, routes, batch, sched))
    ensures Good(Next(st, me, Other(k, routes, batch, sched)), me, id)
  {
    var s := st.sats[k];
    OthersCount(batch, sched, me, id);
    QueueAdds(s.queues, routes, batch, sched, me, id);
    SatsUpdate(st.sats, k, s.(queues := Enqueue(s.queues, routes, batch, sched)), me, id);
  }

  lemma {:induction false} OthersCount(batch: seq<Shell>, sched: nat, me: nat, id: nat)
    requires sched != me && forall j :: 0 <= j < |batch| ==> batch[j].sched == sched
    ensures Count(batch, me, id) == 0
  {
    if batch != [] {
      OthersCount(batch[..|batch| - 1], sched, me, id);
    }
  }

  lemma ReportKeeps(st: State, me: nat, k: nat, atOnce: int, id: nat)
    requires Good(st, me, id) && Enabled(st, me, Report(k, atOnce))
    ensures Good(Next(st, me, Report(k, atOnce)), me, id)
  {
    var s := st.sats[k];
    var home := s.home[me];
    var n := Batch(atOnce, |home|);
    CountConcat(st.waiting, home[..n], me, id);
    CountSplit(home, n, me, id);
    SatsUpdate(st.sats, k, s.(home := s.home[me := home[n..]]), me, id);
  }

  lemma CollectKeeps(st: State, me: nat, j: Judge, id: nat)
    requires Good(st, me, id) && Tidy(st, me) && j.Fair()
    ensures Good(Next(st, me, Collect(j)), me, id)
  {
    ReachedCount(st.checks, st.waiting, me, id);
    CollectedStatus(st.checks, st.waiting, j, me, id);
  }

  lemma OrphansKeep(st: State, me: nat, age: nat -> int, now: int, id: nat)
    requires Good(st, me, id) && Tidy(st, me)
    ensures Good(Next(st, me, Orphans(age, now)), me, id)
  {
  }

  lemma BuryKeeps(st: State, me: nat, id: nat)
    requires Good(st, me, id)
    ensures Good(Next(st, me, Bury), me, id)
  {
  }

  lemma ForceKeeps(st: State, me: nat, those: set<nat>, id: nat)
    requires Good(st, me, id) && Tidy(st, me)
    ensures Good(Next(st, me, Force(those)), me, id)
  {
  }

  lemma RemoveKeeps(st: State, me: nat, those: set<nat>, id: nat)
    requires Good(st, me, id)
    ensures Good(Next(st, me, Remove(those)), me, id)
  {
  }

  predicate Inside(step: Step) {
    step.Fetch? || step.Work? || step.Die? || step.TakeReturn? || step.Forget? || step.Meet?
  }

  lemma InsideKeeps(st: State, me: nat, step: Step, id: nat)
    requires Good(st, me, id) && Inside(step) && Enabled(st, me, step)
    ensures Good(Next(st, me, step), me, id)
  {
    var s := st.sats[step.k];
    SatStep(s, me, step, id);
    SatsUpdate(st.sats, step.k, NextSat(s, me, step), me, id);
  }

  lemma StepKeeps(st: State, me: nat, step: Step, id: nat)
    requires Good(st, me, id) && Tidy(st, me) && Enabled(st, me, step)
    ensures Good(Next(st, me, step), me, id)
  {
    match step {
      case Create(c) => CreateKeeps(st, me, c, id);
      case GiveOut(ids) => GiveOutKeeps(st, me, ids, id);
      case LoseReply(i) => LoseReplyKeeps(st, me, i, id);
      case Deliver(i, k, routes) => DeliverKeeps(st, me, i, k, routes, id);
      case Other(k, routes, batch, sched) => OtherKeeps(st, me, k, routes, batch, sched, id);
      case Report(k, atOnce) => ReportKeeps(st, me, k, atOnce, id);
      case Collect(j) => CollectKeeps(st, me, j, id);
      case Orphans(age, now) => OrphansKeep(st, me, age, now, id);
      case Bury => BuryKeeps(st, me, id);
      case Force(those) => ForceKeeps(st, me, those, id);
      case Remove(those) => RemoveKeeps(st, me, those, id);
      case _ => InsideKeeps(st, me, step, id);
    }
  }

  lemma InsideTidy(st: State, me: nat, step: Step)
    requires Tidy(st, me) && Inside(step) && Enabled(st, me, step)
    ensures Tidy(Next(st, me, step), me)
  {
    assert HomeMine(st.sats[step.k].home, me);
    assert HomeMine(NextSat(st.sats[step.k], me, step).home, me);
  }

  lemma StepTidy(st: State, me: nat, step: Step)
    requires Tidy(st, me) && Enabled(st, me, step)
    ensures Tidy(Next(st, me, step), me)
  {
    if Inside(step) {
      InsideTidy(st, me, step);
    } else if step.Collect? {
      CollectedStatus(st.checks, st.waiting, step.judge, me, 0);
    } else if step.Report? {
      assert HomeMine(st.sats[step.k].home, me);
    } else if step.GiveOut? {
      assert Mine(Shells(st.checks, step.ids, me), me);
    }
  }

  // ----- Runs -----

  ghost predicate Possible(st: State, me: nat, steps: seq<Step>)
    decreases |steps|
  {
    steps != [] ==> Enabled(st, me, steps[0]) && Possible(Next(st, me, steps[0]), me, steps[1..])
  }

  ghost function After(st: State, me: nat, steps: seq<Step>): State
    requires Possible(st, me, steps)
    decreases |steps|
  {
    if steps == [] then st else After(Next(st, me, steps[0]), me, steps[1..])
  }

  /** A scheduler without checks, and nothing on the way for it. */
  ghost predicate Initial(st: State, me: nat) {
    && st.checks == map[] && st.waiting == [] && st.past == History({}, map[], map[], map[], {})
    && Tidy(st, me) && forall id: nat :: Live(st, me, id) == 0
  }

  lemma {:induction false} RunKeeps(st: State, me: nat, steps: seq<Step>, id: nat)
    requires Good(st, me, id) && Tidy(st, me) && Possible(st, me, steps)
    ensures Good(After(st, me, steps), me, id)
    decreases |steps|
  {
    if steps != [] {
      StepKeeps(st, me, steps[0], id);
      StepTidy(st, me, steps[0]);
      RunKeeps(Next(st, me, steps[0]), me, steps[1..], id);
    }
  }

  /** Over every run, a check is handed out at most once more than it is re-enabled, and gets
      at most as many results as hand-outs, shells on their way counted. */
  lemma HandOutsBounded(st: State, me: nat, steps: seq<Step>, id: nat)
    requires Initial(st, me) && Possible(st, me, steps)
    ensures var end := After(st, me, steps);
            && Get(end.past.handouts, id) <= 1 + Get(end.past.reenables, id)
            && Get(end.past.results, id) + Live(end, me, id) <= Get(end.past.handouts, id)
  {
    assert Good(st, me, id);
    RunKeeps(st, me, steps, id);
  }

  /** A check that was never re-enabled has at most one shell on its way. While it has, the
      scheduler has dropped the check, or waits for it exactly if it was not forced. */
  lemma OneShell(st: State, me: nat, steps: seq<Step>, id: nat)
    requires Initial(st, me) && Possible(st, me, steps) && Get(After(st, me, steps).past.reenables, id) == 0
    ensures var end := After(st, me, steps);
            && Live(end, me, id) <= 1
            && (Live(end, me, id) == 1 && id in end.checks ==>
                  (end.checks[id].status == InPoller <==> id !in end.past.forced))
  {
    assert Good(st, me, id);
    RunKeeps(st, me, steps, id);
  }

  // ----- Why the exceptions are needed -----

  const NOTHING := State(map[], [], [], [], History({}, map[], map[], map[], {}))

  /** A new check that is given out once. */
  lemma GivenOnce(me: nat, c: Check) returns (st: State)
    requires c.status == Scheduled
    ensures Possible(NOTHING, me, [Create(c), GiveOut([c.id])]) && st == After(NOTHING, me, [Create(c), GiveOut([c.id])])
    ensures st.checks == map[c.id := c.(status := InPoller)] && st.past.reenables == map[] && Live(st, me, c.id) == 1
  {
    var st1 := Next(NOTHING, me, Create(c));
    AfterConcat(NOTHING, me, [], Create(c));
    AfterConcat(NOTHING, me, [] + [Create(c)], GiveOut([c.id]));
    assert [] + [Create(c)] + [GiveOut([c.id])] == [Create(c), GiveOut([c.id])];
    st := Next(st1, me, GiveOut([c.id]));
    GiveOutLive(st1, me, [c.id], c.id);
  }

  /** A check that is forced while it is away keeps its shell although it is no longer
      polled. */
  lemma ForcedShell(me: nat, c: Check)
    requires c.status == Scheduled
    ensures var steps := [Create(c), GiveOut([c.id]), Force({c.id})];
            && Possible(NOTHING, me, steps)
            && var end := After(NOTHING, me, steps);
               && Live(end, me, c.id) == 1 && Get(end.past.reenables, c.id) == 0
               && c.id in end.checks && end.checks[c.id].status == WaitConsume
  {
    var st := GivenOnce(me, c);
    var two := [Create(c), GiveOut([c.id])];
    AfterConcat(NOTHING, me, two, Force({c.id}));
    assert two + [Force({c.id})] == [Create(c), GiveOut([c.id]), Force({c.id})];
  }

  lemma {:induction false} AfterConcat(st: State, me: nat, steps: seq<Step>, step: Step)
    requires Possible(st, me, steps) && Enabled(After(st, me, steps), me, step)
    ensures Possible(st, me, steps + [step]) && After(st, me, steps + [step]) == Next(After(st, me, steps), me, step)
    decreases |steps|
  {
    var all := steps + [step];
    if steps == [] {
      assert all == [step] && all[1..] == [];
    } else {
      assert all[0] == steps[0] && all[1..] == steps[1..] + [step];
      AfterConcat(Next(st, me, steps[0]), me, steps[1..], step);
    }
  }

  /** A check that is re-enabled while it is away can have two shells. */
  lemma TwoShells(me: nat, c: Check, now: int)
    requires c.status == Scheduled && c.tToGo < now - 1
    ensures var steps := [Create(c), GiveOut([c.id]), Orphans(_ => 1, now), GiveOut([c.id])];
            Possible(NOTHING, me, steps) && Live(After(NOTHING, me, steps), me, c.id) == 2
  {
    var st := GivenOnce(me, c);
    var orphans := Orphans(_ => 1, now);
    Rescheduled(st, me, c, now);
    GivenAgain(NOTHING, me, [Create(c), GiveOut([c.id])], orphans, c.id);
    assert [Create(c), GiveOut([c.id])] + [orphans] + [GiveOut([c.id])] == [Create(c), GiveOut([c.id]), orphans, GiveOut([c.id])];
  }

  lemma GivenAgain(st: State, me: nat, steps: seq<Step>, step: Step, id: nat)
    requires Possible(st, me, steps) && Enabled(After(st, me, steps), me, step)
    requires Enabled(Next(After(st, me, steps), me, step), me, GiveOut([id]))
    ensures var all := steps + [step] + [GiveOut([id])];
            && Possible(st, me, all)
            && Live(After(st, me, all), me, id) == Live(Next(After(st, me, steps), me, step), me, id) + 1
  {
    AfterConcat(st, me, steps, step);
    AfterConcat(st, me, steps + [step], GiveOut([id]));
    GiveOutLive(After(st, me, steps + [step]), me, [id], id);
  }

  lemma Rescheduled(st: State, me: nat, c: Check, now: int)
    requires st.checks == map[c.id := c.(status := InPoller)] && c.tToGo < now - 1
    ensures var st' := Next(st, me, Orphans(_ => 1, now));
            Enabled(st', me, GiveOut([c.id])) && Live(st', me, c.id) == Live(st, me, c.id)
  {
  }
}
