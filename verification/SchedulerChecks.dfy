/** The scheduler's side of the check pipeline, `shinken/scheduler.py`: handing checks out,
    taking results in, giving up on checks that do not come back. */
module SchedulerChecks {
  import opened Options
  import opened Lists
  import opened Checks
  import opened Pipelines

  // ----- Priority order -----

  /** Inserts behind all checks of the same or a smaller priority. */
  function Insert(s: seq<Check>, c: Check): seq<Check> {
    if s == [] || s[|s| - 1].priority <= c.priority then s + [c]
    else Insert(s[..|s| - 1], c) + [s[|s| - 1]]
  }

  /** `sorted(values, key=get_prio)`, a stable sort. */
  function Sorted(s: seq<Check>): seq<Check> {
    if s == [] then [] else Insert(Sorted(s[..|s| - 1]), s[|s| - 1])
  }

  predicate Ascending(s: seq<Check>) {
    forall i, j :: 0 <= i < j < |s| ==> s[i].priority <= s[j].priority
  }

  function OfPriority(s: seq<Check>, n: int): seq<Check> {
    if s == [] then [] else OfPriority(s[..|s| - 1], n) + if s[|s| - 1].priority == n then [s[|s| - 1]] else []
  }

  lemma OfPriorityAppend(s: seq<Check>, c: Check, n: int)
    ensures OfPriority(s + [c], n) == OfPriority(s, n) + if c.priority == n then [c] else []
  {
    assert (s + [c])[..|s|] == s;
  }

  lemma {:induction false} InsertPermutes(s: seq<Check>, c: Check)
    ensures multiset(Insert(s, c)) == multiset(s) + multiset{c}
    decreases |s|
  {
    if s != [] && s[|s| - 1].priority > c.priority {
      InsertPermutes(s[..|s| - 1], c);
      assert s == s[..|s| - 1] + [s[|s| - 1]];
    }
  }

  lemma {:induction false} InsertSorts(s: seq<Check>, c: Check, top: int)
    requires Ascending(s) && (s != [] ==> s[|s| - 1].priority <= top) && c.priority <= top
    ensures Ascending(Insert(s, c)) && Insert(s, c) != [] && Insert(s, c)[|Insert(s, c)| - 1].priority <= top
    decreases |s|
  {
    if s != [] && s[|s| - 1].priority > c.priority {
      var init, last := s[..|s| - 1], s[|s| - 1];
      InsertSorts(init, c, last.priority);
      AscendingAppend(Insert(init, c), last);
    } else {
      AscendingAppend(s, c);
    }
  }

  lemma AscendingAppend(s: seq<Check>, c: Check)
    requires Ascending(s) && (s != [] ==> s[|s| - 1].priority <= c.priority)
    ensures Ascending(s + [c])
  {
  }

  /** Among checks of one priority the new one comes last. */
  lemma {:induction false} InsertStable(s: seq<Check>, c: Check, n: int)
    requires Ascending(s)
    ensures OfPriority(Insert(s, c), n) == OfPriority(s, n) + if c.priority == n then [c] else []
    decreases |s|
  {
    if s == [] || s[|s| - 1].priority <= c.priority {
      OfPriorityAppend(s, c, n);
    } else {
      var init, last := s[..|s| - 1], s[|s| - 1];
      InsertStable(init, c, n);
      OfPriorityAppend(Insert(init, c), last, n);
      if last.priority == n {
        assert c.priority != n;
      }
    }
  }

  lemma {:induction false} SortedPermutes(s: seq<Check>)
    ensures multiset(Sorted(s)) == multiset(s)
    decreases |s|
  {
    if s != [] {
      SortedPermutes(s[..|s| - 1]);
      InsertPermutes(Sorted(s[..|s| - 1]), s[|s| - 1]);
      assert s == s[..|s| - 1] + [s[|s| - 1]];
    }
  }

  lemma {:induction false} SortedAscends(s: seq<Check>)
    ensures Ascending(Sorted(s))
    decreases |s|
  {
    if s != [] {
      var sorted, last := Sorted(s[..|s| - 1]), s[|s| - 1];
      SortedAscends(s[..|s| - 1]);
      var end := if sorted == [] then last.priority else sorted[|sorted| - 1].priority;
      InsertSorts(sorted, last, if end > last.priority then end else last.priority);
    }
  }

  lemma {:induction false} SortedKeepsOrder(s: seq<Check>, n: int)
    ensures OfPriority(Sorted(s), n) == OfPriority(s, n)
    decreases |s|
  {
    if s != [] {
      SortedKeepsOrder(s[..|s| - 1], n);
      SortedAscends(s[..|s| - 1]);
      InsertStable(Sorted(s[..|s| - 1]), s[|s| - 1], n);
    }
  }

  /** The order is a permutation by rising priority that keeps the order within each one. */
  lemma SortedIsStable(s: seq<Check>, n: int)
    ensures Ascending(Sorted(s)) && multiset(Sorted(s)) == multiset(s)
    ensures OfPriority(Sorted(s), n) == OfPriority(s, n)
  {
    SortedAscends(s);
    SortedPermutes(s);
    SortedKeepsOrder(s, n);
  }

  // ----- The batch for a satellite -----

  /** What a satellite asks for. */
  datatype Order = Order(tags: set<string>, modules: set<string>, now: int, limit: Option<int>)

  function Candidates(s: seq<Check>, o: Order): (r: seq<Check>)
    ensures forall c :: c in r <==> c in s && Eligible(c, o.tags, o.modules, o.now)
  {
    if s == [] then []
    else Candidates(s[..|s| - 1], o) + if Eligible(s[|s| - 1], o.tags, o.modules, o.now) then [s[|s| - 1]] else []
  }

  /** The first ones, as many as the limit allows. */
  function First(s: seq<Check>, limit: Option<int>): (r: seq<Check>)
    ensures r <= s && (limit.Some? ==> |r| <= if limit.value > 0 then limit.value else 0)
    ensures |r| < |s| ==> limit.Some? && |r| >= limit.value
  {
    if limit.None? || |s| <= limit.value then s else if limit.value <= 0 then [] else s[..limit.value]
  }

  /** The checks to hand out: the first eligible ones in priority order. */
  function ToRun(values: seq<Check>, o: Order): seq<Check> {
    First(Candidates(Sorted(values), o), o.limit)
  }

  lemma {:induction false} CandidatesPrefix(s: seq<Check>, i: nat, o: Order)
    requires i <= |s|
    ensures Candidates(s[..i], o) <= Candidates(s, o)
    decreases |s|
  {
    if i < |s| {
      CandidatesPrefix(s[..|s| - 1], i, o);
      assert s[..|s| - 1][..i] == s[..i];
    } else {
      assert s[..i] == s;
    }
  }

  function Ids(s: seq<Check>): (r: seq<nat>)
    ensures |r| == |s| && forall i :: 0 <= i < |s| ==> r[i] == s[i].id
  {
    seq(|s|, i requires 0 <= i < |s| => s[i].id)
  }

  /** The values of the dictionary, in its order. */
  function Values(checks: CheckMap, order: seq<nat>): (r: seq<Check>)
    requires forall i :: 0 <= i < |order| ==> order[i] in checks
    ensures |r| == |order| && forall i :: 0 <= i < |order| ==> r[i] == checks[order[i]]
  {
    seq(|order|, i requires 0 <= i < |order| => checks[order[i]])
  }

  predicate Apart(s: seq<Check>) {
    forall i, j :: 0 <= i < j < |s| ==> s[i].id != s[j].id
  }

  lemma {:induction false} CandidatesApart(s: seq<Check>, o: Order)
    requires Apart(s)
    ensures Apart(Candidates(s, o))
    decreases |s|
  {
    if s != [] {
      var init, last := s[..|s| - 1], s[|s| - 1];
      CandidatesApart(init, o);
      var r := Candidates(init, o);
      forall i | 0 <= i < |r| ensures r[i].id != last.id {
        assert r[i] in r;
        assert r[i] in init;
      }
    }
  }

  lemma SortedApart(s: seq<Check>)
    requires Apart(s)
    ensures Apart(Sorted(s))
  {
    SortedPermutes(s);
    var r := Sorted(s);
    forall i, j | 0 <= i < j < |r| ensures r[i].id != r[j].id {
      assert r[i] in multiset(r) && r[j] in multiset(r);
      var a :| 0 <= a < |s| && s[a] == r[i];
      var b :| 0 <= b < |s| && s[b] == r[j];
      if a == b {
        TwoOf(r, i, j);
        OneOf(s, a);
      }
    }
  }

  lemma TwoOf(r: seq<Check>, i: nat, j: nat)
    requires i < j < |r| && r[i] == r[j]
    ensures multiset(r)[r[i]] >= 2
  {
    assert r == r[..j] + [r[j]] + r[j + 1..];
    assert r[i] in r[..j];
  }

  lemma {:induction false} OneOf(s: seq<Check>, a: nat)
    requires Apart(s) && a < |s|
    ensures multiset(s)[s[a]] == 1
  {
    var c := s[a];
    assert s == s[..a] + [c] + s[a + 1..];
    assert c !in s[..a] && c !in s[a + 1..];
  }

  lemma FirstIs(s: seq<Check>, batch: seq<Check>, limit: Option<int>)
    requires batch <= s && (batch == s || (limit.Some? && |batch| >= limit.value))
    requires limit.Some? && batch != [] ==> |batch| <= limit.value
    ensures batch == First(s, limit)
  {
  }

  /** The checks of a batch are those of the dictionary, each once and all scheduled. */
  predicate Proper(batch: seq<Check>, checks: CheckMap) {
    Apart(batch) && forall k :: 0 <= k < |batch| ==> batch[k].id in checks && checks[batch[k].id] == batch[k] && batch[k].status == Scheduled
  }

  lemma HandOutNext(checks: CheckMap, batch: seq<Check>, c: Check, me: nat)
    requires Keyed(checks) && Proper(batch, checks) && Proper(batch + [c], checks)
    ensures c.id in checks
    ensures HandOut(checks, Ids(batch + [c])) == HandOut(checks, Ids(batch))[c.id := c.(status := InPoller)]
    ensures Shells(checks, Ids(batch + [c]), me) == Shells(checks, Ids(batch), me) + [Shell(c.id, me, c.moduleType, Fresh)]
  {
    assert Ids(batch + [c]) == Ids(batch) + [c.id];
    assert (batch + [c])[|batch|] == c;
  }

  /** The checks of the batch are away and their shells made. */
  ghost predicate Given(before: CheckMap, after: CheckMap, batch: seq<Check>, res: seq<Shell>, me: nat) {
    Proper(batch, before) && after == HandOut(before, Ids(batch)) && res == Shells(before, Ids(batch), me)
  }

  lemma GivenNext(before: CheckMap, after: CheckMap, batch: seq<Check>, res: seq<Shell>, me: nat, c: Check, all: seq<Check>)
    requires Keyed(before) && Given(before, after, batch, res, me) && Proper(all, before) && batch + [c] <= all
    ensures Given(before, after[c.id := c.(status := InPoller)], batch + [c], res + [Shell(c.id, me, c.moduleType, Fresh)], me)
  {
    ProperPrefix(batch + [c], all, before);
    HandOutNext(before, batch, c, me);
  }

  /** This is the step of the pipeline that gives checks out. */
  lemma GivenEnabled(before: CheckMap, after: CheckMap, batch: seq<Check>, res: seq<Shell>, me: nat, st: State)
    requires Keyed(before) && Given(before, after, batch, res, me) && st.checks == before
    ensures Enabled(st, me, GiveOut(Ids(batch)))
    ensures var st' := Next(st, me, GiveOut(Ids(batch))); st'.checks == after && st'.replies == st.replies + [res]
  {
  }

  lemma GivenSizes(before: CheckMap, after: CheckMap, batch: seq<Check>, res: seq<Shell>, me: nat)
    requires Keyed(before) && Given(before, after, batch, res, me)
    ensures |res| == |batch| && Keyed(after) && after.Keys == before.Keys
  {
  }

  lemma ProperPrefix(batch: seq<Check>, all: seq<Check>, checks: CheckMap)
    requires Proper(all, checks) && batch <= all
    ensures Proper(batch, checks)
  {
  }

  lemma CandidatesProper(values: seq<Check>, o: Order, checks: CheckMap)
    requires Apart(values) && forall k :: 0 <= k < |values| ==> values[k].id in checks && checks[values[k].id] == values[k]
    ensures Proper(Candidates(Sorted(values), o), checks)
  {
    var sorted := Sorted(values);
    var r := Candidates(sorted, o);
    SortedApart(values);
    CandidatesApart(sorted, o);
    SortedPermutes(values);
    forall k | 0 <= k < |r| ensures r[k].id in checks && checks[r[k].id] == r[k] && r[k].status == Scheduled {
      assert r[k] in r;
      assert r[k] in sorted;
      assert r[k] in multiset(sorted);
      assert r[k] in values;
    }
  }

  lemma CandidateNext(sorted: seq<Check>, i: nat, o: Order)
    requires i < |sorted|
    ensures var c, b := sorted[i], Candidates(sorted[..i], o);
            Candidates(sorted[..i + 1], o) == if Eligible(c, o.tags, o.modules, o.now) then b + [c] else b
    ensures Candidates(sorted[..i + 1], o) <= Candidates(sorted, o)
  {
    assert sorted[..i + 1][..i] == sorted[..i];
    CandidatesPrefix(sorted, i + 1, o);
  }

  lemma {:induction false} CandidatesAscend(s: seq<Check>, o: Order)
    requires Ascending(s)
    ensures Ascending(Candidates(s, o))
    decreases |s|
  {
    if s != [] {
      var init, last := s[..|s| - 1], s[|s| - 1];
      CandidatesAscend(init, o);
      var r := Candidates(init, o);
      forall i | 0 <= i < |r| ensures r[i].priority <= last.priority {
        assert r[i] in r;
        assert r[i] in init;
      }
    }
  }

  /** The batch holds only checks that may go, and passes one over only when it is full, and
      only for checks of the same or a smaller priority number. */
  lemma ToRunIs(values: seq<Check>, o: Order, c: Check)
    requires c in values
    ensures c in ToRun(values, o) ==>
              c.tag in o.tags && c.moduleType in o.modules && c.status == Scheduled && o.now > c.tToGo && !c.internal
    ensures c.tag in o.tags && c.moduleType in o.modules && c.status == Scheduled && o.now > c.tToGo && !c.internal ==>
              || c in ToRun(values, o)
              || (o.limit.Some? && |ToRun(values, o)| >= o.limit.value && forall g :: g in ToRun(values, o) ==> g.priority <= c.priority)
  {
    var sorted := Sorted(values);
    var all := Candidates(sorted, o);
    SortedAscends(values);
    SortedPermutes(values);
    CandidatesAscend(sorted, o);
    assert c in multiset(values) && c in multiset(sorted);
    FirstPasses(all, ToRun(values, o), c);
  }

  lemma FirstPasses(all: seq<Check>, batch: seq<Check>, c: Check)
    requires Ascending(all) && batch <= all
    ensures c in batch ==> c in all
    ensures c in all && c !in batch ==> |batch| < |all| && forall g :: g in batch ==> g.priority <= c.priority
  {
    if c in all && c !in batch {
      var j :| 0 <= j < |all| && all[j] == c;
      assert forall i :: 0 <= i < |batch| ==> batch[i] in batch && batch[i] == all[i];
      forall g | g in batch ensures g.priority <= c.priority {
        var i :| 0 <= i < |batch| && batch[i] == g;
        assert all[i] == g;
      }
    }
  }

  /** What has been handed out, check by check. */
  lemma GivenIs(before: CheckMap, after: CheckMap, batch: seq<Check>, res: seq<Shell>, me: nat)
    requires Keyed(before) && Given(before, after, batch, res, me)
    ensures |res| == |batch| && after.Keys == before.Keys
    ensures forall k :: 0 <= k < |res| ==>
              && res[k].id in before && batch[k] == before[res[k].id]
              && res[k] == Shell(batch[k].id, me, batch[k].moduleType, Fresh)
              && after[res[k].id] == batch[k].(status := InPoller)
    ensures forall id :: id in before && (forall k :: 0 <= k < |res| ==> res[k].id != id) ==> after[id] == before[id]
  {
    GivenSizes(before, after, batch, res, me);
    var ids := Ids(batch);
    forall k | 0 <= k < |res| ensures res[k].id == ids[k] && ids[k] in ids {
    }
  }

  /** The loop over the sorted checks, which ends when the batch is full. */
  method Pick(before: CheckMap, sorted: seq<Check>, o: Order, me: nat) returns (checks: CheckMap, res: seq<Shell>)
    requires Keyed(before) && Proper(Candidates(sorted, o), before)
    ensures Keyed(checks) && checks.Keys == before.Keys
    ensures Given(before, checks, First(Candidates(sorted, o), o.limit), res, me)
    ensures |res| == |First(Candidates(sorted, o), o.limit)|
  {
    checks, res := before, [];
    ghost var batch: seq<Check> := [];
    var i := 0;
    while i < |sorted|
      invariant 0 <= i <= |sorted| && batch == Candidates(sorted[..i], o)
      invariant Given(before, checks, batch, res, me)
      invariant o.limit.Some? && batch != [] ==> |batch| <= o.limit.value
    {
      GivenSizes(before, checks, batch, res, me);
      if o.limit.Some? && |res| >= o.limit.value {
        break;
      }
      var c := sorted[i];
      CandidateNext(sorted, i, o);
      if Eligible(c, o.tags, o.modules, o.now) {
        GivenNext(before, checks, batch, res, me, c, Candidates(sorted, o));
        checks := checks[c.id := c.(status := InPoller)];
        res := res + [Shell(c.id, me, c.moduleType, Fresh)];
        batch := batch + [c];
      }
      i := i + 1;
    }
    CandidatesPrefix(sorted, i, o);
    assert i == |sorted| ==> sorted[..i] == sorted;
    FirstIs(Candidates(sorted, o), batch, o.limit);
    GivenSizes(before, checks, batch, res, me);
  }

  // ----- Consuming results -----

  lemma {:induction false} PutAllIs(checks: CheckMap, results: seq<Shell>, id: nat)
    requires id in checks
    ensures PutAll(checks, results).Keys == checks.Keys
    ensures PutAll(checks, results)[id] ==
            if exists k :: 0 <= k < |results| && results[k].id == id then checks[id].(status := WaitConsume) else checks[id]
    decreases |results|
  {
    if results != [] {
      var init, last := results[..|results| - 1], results[|results| - 1];
      PutAllIs(checks, init, id);
      assert forall k :: 0 <= k < |init| ==> init[k] == results[k];
    }
  }

  /** What becomes of one check. */
  lemma CollectedIs(checks: CheckMap, results: seq<Shell>, j: Judge, id: nat)
    requires Keyed(checks) && id in checks
    ensures Collected(checks, results, j).Keys == checks.Keys
    ensures var got := exists k :: 0 <= k < |results| && results[k].id == id;
            var status := if got then WaitConsume else checks[id].status;
            var first := if status == WaitConsume then j.first(id) else status;
            var settled := if first == HaveToResolveDep then Zombie else first;
            Collected(checks, results, j)[id] ==
            checks[id].(status := if settled == WaitDep && j.ready(id) then j.second(id) else settled)
  {
    PutAllIs(checks, results, id);
  }

  // ----- The scheduler -----

  class Scheduler {
    const me: nat
    var checks: CheckMap
    /** The ids in the order of the dictionary. */
    var order: seq<nat>
    var waitingResults: seq<Shell>

    predicate Valid()
      reads this`checks, this`order
    {
      && Keyed(checks) && Distinct(order)
      && (forall i :: 0 <= i < |order| ==> order[i] in checks) && (forall id :: id in checks ==> id in order)
    }

    constructor (me: nat)
      ensures this.me == me && Valid() && checks == map[] && waitingResults == []
    {
      this.me, checks, order, waitingResults := me, map[], [], [];
    }

    function CheckList(): (r: seq<Check>)
      reads this`checks, this`order
      requires Valid()
      ensures Apart(r)
    {
      Values(checks, order)
    }

    /** The shells of the first eligible checks in priority order, which are then away. */
    method GetToRunChecks(o: Order) returns (res: seq<Shell>)
      requires Valid()
      modifies this`checks
      ensures Valid() && Given(old(checks), checks, ToRun(old(CheckList()), o), res, me)
      ensures o.limit.Some? ==> |res| <= if o.limit.value > 0 then o.limit.value else 0
      ensures checks.Keys == old(checks).Keys
      ensures forall k :: 0 <= k < |res| ==>
                && res[k].id in old(checks)
                && var c := old(checks)[res[k].id];
                   && res[k] == Shell(c.id, me, c.moduleType, Fresh) && checks[c.id] == c.(status := InPoller)
                   && c.tag in o.tags && c.moduleType in o.modules && c.status == Scheduled && o.now > c.tToGo && !c.internal
      ensures forall id :: id in checks && (forall k :: 0 <= k < |res| ==> res[k].id != id) ==>
                && checks[id] == old(checks)[id]
                && var c := checks[id];
                   (c.tag in o.tags && c.moduleType in o.modules && c.status == Scheduled && o.now > c.tToGo && !c.internal ==>
                      o.limit.Some? && |res| >= o.limit.value
                      && forall k :: 0 <= k < |res| ==> old(checks)[res[k].id].priority <= c.priority)
    {
      var sorted := Sorted(CheckList());
      ghost var list, batch := CheckList(), ToRun(CheckList(), o);
      CandidatesProper(list, o, checks);
      checks, res := Pick(checks, sorted, o, me);
      GivenIs(old(checks), checks, batch, res, me);
      BatchMeans(old(checks), list, o, batch, res);
    }

    lemma BatchMeans(before: CheckMap, list: seq<Check>, o: Order, batch: seq<Check>, res: seq<Shell>)
      requires Keyed(before) && batch == ToRun(list, o) && |res| == |batch|
      requires (forall k :: 0 <= k < |list| ==> list[k].id in before && before[list[k].id] == list[k])
      requires forall id :: id in before ==> before[id] in list
      requires forall k :: 0 <= k < |res| ==> res[k].id in before && batch[k] == before[res[k].id]
      ensures forall k :: 0 <= k < |res| ==>
                var c := before[res[k].id];
                c.tag in o.tags && c.moduleType in o.modules && c.status == Scheduled && o.now > c.tToGo && !c.internal
      ensures forall id :: id in before && (forall k :: 0 <= k < |res| ==> res[k].id != id) ==>
                var c := before[id];
                c.tag in o.tags && c.moduleType in o.modules && c.status == Scheduled && o.now > c.tToGo && !c.internal ==>
                  o.limit.Some? && |res| >= o.limit.value && forall k :: 0 <= k < |res| ==> before[res[k].id].priority <= c.priority
    {
      forall k | 0 <= k < |res|
        ensures var c := before[res[k].id];
                c.tag in o.tags && c.moduleType in o.modules && c.status == Scheduled && o.now > c.tToGo && !c.internal
      {
        assert batch[k] in batch;
        ToRunIs(list, o, before[res[k].id]);
      }
      forall id | id in before && forall k :: 0 <= k < |res| ==> res[k].id != id
        ensures var c := before[id];
                c.tag in o.tags && c.moduleType in o.modules && c.status == Scheduled && o.now > c.tToGo && !c.internal ==>
                  o.limit.Some? && |res| >= o.limit.value && forall k :: 0 <= k < |res| ==> before[res[k].id].priority <= c.priority
      {
        ToRunIs(list, o, before[id]);
        assert before[id] !in batch;
        assert forall k :: 0 <= k < |res| ==> batch[k] in batch;
      }
    }

    /** put_results, for a check */
    method PutResults(c: Shell)
      requires Valid()
      modifies this`checks
      ensures Valid() && checks == Put(old(checks), c)
      ensures checks == if c.id in old(checks) then old(checks)[c.id := old(checks)[c.id].(status := WaitConsume)] else old(checks)
    {
      if c.id in checks {
        checks := checks[c.id := checks[c.id].(status := WaitConsume)];
      }
    }

    method TakeResults()
      requires Valid()
      modifies this`checks, this`waitingResults
      ensures Valid() && checks == PutAll(old(checks), old(waitingResults)) && waitingResults == []
    {
      var results := waitingResults;
      waitingResults := [];
      for i := 0 to |results|
        invariant Valid() && checks == PutAll(old(checks), results[..i]) && waitingResults == []
      {
        assert results[..i + 1][..i] == results[..i];
        PutResults(results[i]);
      }
      assert results[..|results|] == results;
    }

    /** One pass over the values of the dictionary. */
    method Mark(f: Check -> Status)
      requires Valid()
      modifies this`checks
      ensures Valid() && checks == Marked(old(checks), f)
    {
      for i := 0 to |order|
        invariant checks.Keys == old(checks).Keys
        invariant forall k :: i <= k < |order| ==> checks[order[k]] == old(checks)[order[k]]
        invariant forall k :: 0 <= k < i ==> checks[order[k]] == Marked(old(checks), f)[order[k]]
      {
        var c := checks[order[i]];
        checks := checks[order[i] := c.(status := f(c))];
      }
      assert checks == Marked(old(checks), f) by {
        forall id | id in checks ensures checks[id] == Marked(old(checks), f)[id] {
          assert id in order;
        }
      }
    }

    method ConsumeResults(j: Judge)
      requires Valid()
      modifies this`checks, this`waitingResults
      ensures Valid() && checks == Collected(old(checks), old(waitingResults), j) && waitingResults == []
      ensures checks.Keys == old(checks).Keys
      ensures forall id :: id in checks ==>
                var got := exists k :: 0 <= k < |old(waitingResults)| && old(waitingResults)[k].id == id;
                var status := if got then WaitConsume else old(checks)[id].status;
                var first := if status == WaitConsume then j.first(id) else status;
                var settled := if first == HaveToResolveDep then Zombie else first;
                checks[id] == old(checks)[id].(status := if settled == WaitDep && j.ready(id) then j.second(id) else settled)
    {
      ghost var before, results := checks, waitingResults;
      ConsumeAll(j);
      forall id | id in before {
        CollectedIs(before, results, j, id);
      }
    }

    method ConsumeAll(j: Judge)
      requires Valid()
      modifies this`checks, this`waitingResults
      ensures Valid() && checks == Collected(old(checks), old(waitingResults), j) && waitingResults == []
    {
      TakeResults();
      Mark((c: Check) => if c.status == WaitConsume then j.first(c.id) else c.status);
      Mark((c: Check) => if c.status == HaveToResolveDep then Zombie else c.status);
      Mark((c: Check) => if c.status == WaitDep && j.ready(c.id) then j.second(c.id) else c.status);
    }

    method CheckOrphaned(limit: nat -> int, now: int)
      requires Valid()
      modifies this`checks
      ensures Valid() && checks == Reenabled(old(checks), limit, now)
      ensures checks.Keys == old(checks).Keys
      ensures forall id :: id in checks ==>
                var c := old(checks)[id];
                checks[id] == if limit(id) != 0 && c.status == InPoller && c.tToGo < now - limit(id) then c.(status := Scheduled) else c
    {
      Mark((c: Check) => if Orphaned(c, limit(c.id), now) then Scheduled else c.status);
    }

    method DeleteZombieChecks()
      requires Valid()
      modifies this`checks, this`order
      ensures Valid() && checks == WithoutZombies(old(checks))
      ensures forall id :: id in checks <==> id in old(checks) && old(checks)[id].status != Zombie
      ensures forall id :: id in checks ==> checks[id] == old(checks)[id]
    {
      var kept := [];
      for i := 0 to |order|
        invariant Distinct(kept) && forall id :: id in kept <==> id in order[..i] && checks[id].status != Zombie
      {
        if checks[order[i]].status != Zombie {
          kept := kept + [order[i]];
        }
      }
      assert forall i :: 0 <= i < |kept| ==> kept[i] in kept;
      order := kept;
      checks := WithoutZombies(checks);
    }
  }
}
