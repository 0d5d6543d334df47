/** Scheduled downtimes (`shinken/downtime.py`) and the scheduler and external-command
    operations that create, start, end and cancel them.  A downtime can trigger others,
    so starting or cancelling one recurses over what it triggers; every item keeps a
    nesting depth that has to match the downtimes in effect on it. */
module Downtimes {
  import opened Lists

  class Item {
    var scheduledDowntimeDepth: int
    var inScheduledDowntime: bool
    var inScheduledDowntimeDuringLastCheck: bool
    var downtimes: seq<Downtime>

    constructor ()
      ensures scheduledDowntimeDepth == 0 && !inScheduledDowntime && downtimes == []
    {
      scheduledDowntimeDepth, inScheduledDowntime, inScheduledDowntimeDuringLastCheck := 0, false, false;
      downtimes := [];
    }

    method AddDowntime(dt: Downtime)
      modifies `downtimes
      ensures downtimes == old(downtimes) + [dt]
    {
      downtimes := downtimes + [dt];
    }

    /** Drops the downtime with this id from the item's list, if it is there. */
    method DelDowntime(downtimeId: int)
      requires Distinct(downtimes)
      requires forall c, d :: c in downtimes && d in downtimes && c.id == d.id ==> c == d
      modifies `downtimes, downtimes`canBeDeleted
      ensures Distinct(downtimes)
      ensures forall d :: d in downtimes <==> d in old(downtimes) && d.id != downtimeId
      ensures forall d :: d in old(downtimes) ==> d.canBeDeleted == (old(d.canBeDeleted) || d.id == downtimeId)
    {
      var found := -1;
      for i := 0 to |downtimes|
        invariant -1 <= found < i && downtimes == old(downtimes)
        invariant forall k :: 0 <= k < i && downtimes[k].id == downtimeId ==> k == found
        invariant found >= 0 ==> downtimes[found].id == downtimeId
        invariant forall k :: 0 <= k < i ==>
                    downtimes[k].canBeDeleted == (old(downtimes[k].canBeDeleted) || downtimes[k].id == downtimeId)
        invariant forall k :: i <= k < |downtimes| ==> downtimes[k].canBeDeleted == old(downtimes[k].canBeDeleted)
      {
        if downtimes[i].id == downtimeId {
          found := i;
          downtimes[i].canBeDeleted := true;
        }
      }
      if found >= 0 {
        downtimes := downtimes[..found] + downtimes[found + 1..];
      }
    }
  }

  // ----- The trigger forest -----

  /** `parent[d]` is the downtime that triggers `d`; a downtime is created after its parent. */
  type Parents = map<Downtime, Downtime>

  ghost predicate Ordered(parent: Parents) {
    forall d :: d in parent ==> parent[d].rank < d.rank
  }

  /** `x` is `a` or is triggered, directly or not, by `a`. */
  ghost predicate Under(parent: Parents, x: Downtime, a: Downtime)
    requires Ordered(parent)
    decreases x.rank
  {
    x == a || (x in parent && Under(parent, parent[x], a))
  }

  lemma {:induction false} UnderRank(parent: Parents, x: Downtime, a: Downtime)
    requires Ordered(parent) && Under(parent, x, a)
    ensures x == a || a.rank < x.rank
    decreases x.rank
  {
    if x != a {
      UnderRank(parent, parent[x], a);
    }
  }

  lemma {:induction false} UnderTrans(parent: Parents, x: Downtime, a: Downtime, b: Downtime)
    requires Ordered(parent) && Under(parent, x, a) && Under(parent, a, b)
    ensures Under(parent, x, b)
    decreases x.rank
  {
    if x != a {
      UnderTrans(parent, parent[x], a, b);
    }
  }

  /** The downtimes above `x` form a chain. */
  lemma {:induction false} UnderChain(parent: Parents, x: Downtime, a: Downtime, b: Downtime)
    requires Ordered(parent) && Under(parent, x, a) && Under(parent, x, b)
    ensures Under(parent, a, b) || Under(parent, b, a)
    decreases x.rank
  {
    if x != a && x != b {
      UnderChain(parent, parent[x], a, b);
    }
  }

  /** Two downtimes triggered by the same parent trigger disjoint sets. */
  lemma SiblingsApart(parent: Parents, x: Downtime, a: Downtime, b: Downtime)
    requires Ordered(parent) && a in parent && b in parent && parent[a] == parent[b] && a != b
    ensures !(Under(parent, x, a) && Under(parent, x, b))
  {
    if Under(parent, x, a) && Under(parent, x, b) {
      UnderChain(parent, x, a, b);
      if Under(parent, a, b) {
        UnderRank(parent, parent[a], b);
      } else {
        UnderRank(parent, parent[b], a);
      }
    }
  }

  /** Below `a` there is `a` itself and what is below its children. */
  lemma {:induction false} UnderChild(parent: Parents, x: Downtime, a: Downtime) returns (c: Downtime)
    requires Ordered(parent) && Under(parent, x, a) && x != a
    ensures c in parent && parent[c] == a && Under(parent, x, c)
    decreases x.rank
  {
    if parent[x] == a {
      c := x;
    } else {
      c := UnderChild(parent, parent[x], a);
    }
  }

  /** All downtimes ever created, their items, and the trigger forest over them both
      upwards and downwards. */
  datatype Links = Links(all: set<Downtime>, items: set<Item>, parent: Parents,
                         kids: map<Downtime, seq<Downtime>>, top: nat)

  type World = w: Links | Linked(w) witness Links({}, {}, map[], map[], 0)

  ghost predicate Listed(w: Links, d: Downtime) {
    d in w.parent && w.parent[d] in w.kids && d in w.kids[w.parent[d]]
  }

  ghost predicate ChildrenOf(w: Links, d: Downtime, ds: seq<Downtime>) {
    forall c :: c in ds ==> c in w.parent && w.parent[c] == d
  }

  ghost predicate Linked(w: Links) {
    && Ordered(w.parent)
    && w.parent.Keys <= w.all
    && w.kids.Keys == w.all
    && (forall d :: d in w.all ==> d.rank < w.top && d.ref in w.items && (d.fixed ==> d.triggerId == 0))
    && (forall d :: d in w.parent ==> d.triggerId != 0)
    && (forall d {:trigger Listed(w, d)} :: d in w.parent ==> Listed(w, d))
    && (forall d {:trigger ChildrenOf(w, d, w.kids[d])} :: d in w.all ==> ChildrenOf(w, d, w.kids[d]))
    && (forall d {:trigger Distinct(w.kids[d])} :: d in w.all ==> Distinct(w.kids[d]))
  }

  /** The objects' own lists are the forest's. */
  ghost predicate Reflects(w: Links)
    reads w.all`activateMe
  {
    forall d :: d in w.all && d in w.kids ==> d.activateMe == w.kids[d]
  }

  // ----- Depth against the downtimes in effect -----

  ghost function InEffect(all: set<Downtime>): set<Downtime>
    reads all`isInEffect
  {
    set d | d in all && d.isInEffect
  }

  ghost function Deletable(all: set<Downtime>): set<Downtime>
    reads all`canBeDeleted
  {
    set d | d in all && d.canBeDeleted
  }

  ghost function OnItem(e: set<Downtime>, item: Item): set<Downtime> {
    set d | d in e && d.ref == item
  }

  /** How many of the downtimes `e` are on `item`. */
  ghost function CountOn(e: set<Downtime>, item: Item): nat {
    |OnItem(e, item)|
  }

  lemma CountAdd(e: set<Downtime>, d: Downtime, item: Item)
    requires d !in e
    ensures CountOn(e + {d}, item) == CountOn(e, item) + (if d.ref == item then 1 else 0)
  {
    assert OnItem(e + {d}, item) == if d.ref == item then OnItem(e, item) + {d} else OnItem(e, item);
  }

  lemma CountRemove(e: set<Downtime>, d: Downtime, item: Item)
    ensures CountOn(e - {d}, item) == CountOn(e, item) - (if d in e && d.ref == item then 1 else 0)
  {
    if d in e {
      CountAdd(e - {d}, d, item);
      assert e - {d} + {d} == e;
    } else {
      assert e - {d} == e;
    }
  }

  /** By how much the depth of an item exceeds its number of downtimes in effect. */
  ghost function Surplus(all: set<Downtime>, item: Item): int
    reads all`isInEffect, item`scheduledDowntimeDepth
  {
    item.scheduledDowntimeDepth - CountOn(InEffect(all), item)
  }

  ghost predicate Balanced(all: set<Downtime>, item: Item)
    reads all`isInEffect, item`scheduledDowntimeDepth, item`inScheduledDowntime
  {
    Surplus(all, item) == 0 && (item.inScheduledDowntime <==> item.scheduledDowntimeDepth > 0)
  }

  ghost predicate AllBalanced(all: set<Downtime>, items: set<Item>)
    reads all`isInEffect, items`scheduledDowntimeDepth, items`inScheduledDowntime
  {
    forall i {:trigger Balanced(all, i)} :: i in items ==> Balanced(all, i)
  }

  /** Only flexible downtimes get a new end when they start. */
  ghost function Flexible(all: set<Downtime>): set<Downtime> {
    set d | d in all && !d.fixed
  }

  /** `a` and everything it triggers. */
  ghost function Below(w: World, a: Downtime): set<Downtime>
  {
    set x | x in w.all && Under(w.parent, x, a)
  }

  ghost predicate UnderSome(w: World, x: Downtime, ds: seq<Downtime>, n: nat)
    requires n <= |ds|
  {
    exists k :: 0 <= k < n && Under(w.parent, x, ds[k])
  }

  /** The first `n` of these downtimes and everything they trigger. */
  ghost function BelowFirst(w: World, ds: seq<Downtime>, n: nat): set<Downtime>
    requires n <= |ds|
  {
    set x | x in w.all && UnderSome(w, x, ds, n)
  }

  lemma BelowNext(w: World, ds: seq<Downtime>, n: nat)
    requires n < |ds|
    ensures BelowFirst(w, ds, 0) == {} && BelowFirst(w, ds, n + 1) == BelowFirst(w, ds, n) + Below(w, ds[n])
  {
    forall x | x in w.all ensures UnderSome(w, x, ds, n + 1) <==> UnderSome(w, x, ds, n) || Under(w.parent, x, ds[n]) {
    }
  }

  /** What the i-th child of `a` triggers is part of what `a` triggers, apart from `a`
      and from what earlier children trigger. */
  lemma ChildrenApart(w: World, a: Downtime, i: nat)
    requires a in w.all && i < |w.kids[a]|
    ensures w.kids[a][i] in w.all && a.rank < w.kids[a][i].rank < w.top
    ensures Below(w, w.kids[a][i]) <= Below(w, a) - {a}
    ensures Below(w, w.kids[a][i]) !! BelowFirst(w, w.kids[a], i)
  {
    var ds := w.kids[a];
    assert ChildrenOf(w, a, ds) && Distinct(ds);
    assert ds[i] in ds;
    forall x | x in Below(w, ds[i])
      ensures Under(w.parent, x, a) && x != a && x !in BelowFirst(w, ds, i)
    {
      UnderTrans(w.parent, x, ds[i], a);
      UnderRank(w.parent, x, ds[i]);
      forall k | 0 <= k < i ensures !Under(w.parent, x, ds[k]) {
        assert ds[k] in ds;
        SiblingsApart(w.parent, x, ds[k], ds[i]);
      }
    }
  }

  /** With a downtime goes whatever it triggers. */
  lemma BelowClosed(w: World, a: Downtime, d: Downtime, c: Downtime)
    requires a in w.all && d in Below(w, a) && c in w.kids[d] && c in w.all
    ensures a in Below(w, a) && c in Below(w, a)
  {
    assert ChildrenOf(w, d, w.kids[d]);
    UnderTrans(w.parent, c, d, a);
  }

  lemma EffectIs(all: set<Downtime>, d: Downtime)
    requires d in all
    ensures (d in InEffect(all) <==> d.isInEffect) && (d in Deletable(all) <==> d.canBeDeleted)
  {
  }

  lemma ChildrenCover(w: World, a: Downtime)
    requires a in w.all
    ensures Below(w, a) == {a} + BelowFirst(w, w.kids[a], |w.kids[a]|)
  {
    var ds := w.kids[a];
    assert ChildrenOf(w, a, ds);
    forall x | x in w.all
      ensures Under(w.parent, x, a) <==> x == a || x in BelowFirst(w, ds, |ds|)
    {
      if Under(w.parent, x, a) && x != a {
        var c := UnderChild(w.parent, x, a);
        assert Listed(w, c);
        var k :| 0 <= k < |ds| && ds[k] == c;
      }
      if x in BelowFirst(w, ds, |ds|) {
        var k :| 0 <= k < |ds| && Under(w.parent, x, ds[k]);
        assert ds[k] in ds;
        UnderTrans(w.parent, x, ds[k], a);
      }
    }
  }

  class Downtime {
    const id: int
    const ref: Item
    const triggerId: int
    const startTime: int
    const endTime: int
    const fixed: bool
    const duration: int
    // creation order
    ghost const rank: nat
    var activateMe: seq<Downtime>
    var realEndTime: int
    var isInEffect: bool
    var hasBeenTriggered: bool
    var canBeDeleted: bool

    constructor (id: int, ref: Item, startTime: int, endTime: int, fixed: bool, triggerId: int,
                 duration: int, ghost rank: nat)
      ensures this.id == id && this.ref == ref && this.triggerId == triggerId && this.rank == rank
      ensures this.startTime == startTime && this.endTime == endTime && realEndTime == endTime
      ensures this.fixed == (fixed && triggerId == 0)
      ensures this.duration == if fixed then endTime - startTime else duration
      ensures activateMe == [] && !isInEffect && !hasBeenTriggered && !canBeDeleted
    {
      this.id, this.ref, this.startTime, this.triggerId := id, ref, startTime, triggerId;
      this.endTime, this.realEndTime, this.rank := endTime, endTime, rank;
      // triggered plus fixed makes no sense
      this.fixed := if triggerId != 0 then false else fixed;
      this.duration := if fixed then endTime - startTime else duration;
      activateMe, isInEffect, hasBeenTriggered, canBeDeleted := [], false, false, false;
    }

    /** The downtime is the one that was asked for: a triggered one is never fixed. */
    predicate Asked(startTime: int, endTime: int, fixed: bool, duration: int)
      reads `realEndTime
    {
      && this.startTime == startTime && this.endTime == endTime && realEndTime == endTime
      && this.fixed == (fixed && triggerId == 0) && this.duration == if fixed then endTime - startTime else duration
    }

    method TriggerMe(other: Downtime)
      modifies `activateMe
      ensures activateMe == old(activateMe) + [other]
    {
      activateMe := activateMe + [other];
    }

    /** Marks this downtime as in effect and deepens its item. */
    method Begin(now: int, ghost all: set<Downtime>, ghost items: set<Item>)
      requires this in all && ref in items && !isInEffect && AllBalanced(all, items)
      modifies `isInEffect, (if fixed then {} else {this})`realEndTime, ref`scheduledDowntimeDepth, ref`inScheduledDowntime
      ensures InEffect(all) == old(InEffect(all)) + {this} && AllBalanced(all, items)
      ensures !fixed ==> realEndTime == now + duration
    {
      isInEffect := true;
      if !fixed {
        realEndTime := now + duration;
      }
      ref.scheduledDowntimeDepth := ref.scheduledDowntimeDepth + 1;
      ref.inScheduledDowntime := true;
      assert InEffect(all) == old(InEffect(all)) + {this};
      forall i | i in items ensures Balanced(all, i) {
        assert old(Balanced(all, i));
        CountAdd(old(InEffect(all)), this, i);
      }
    }

    /** Enters this downtime and everything it triggers. */
    method Enter(now: int, ghost w: World)
      requires this in w.all && Reflects(w)
      requires Below(w, this) !! InEffect(w.all) && AllBalanced(w.all, w.items)
      modifies w.all`isInEffect, Flexible(w.all)`realEndTime, w.items`scheduledDowntimeDepth, w.items`inScheduledDowntime
      ensures InEffect(w.all) == old(InEffect(w.all)) + Below(w, this)
      ensures AllBalanced(w.all, w.items) && Timed(Below(w, this), now)
      ensures forall d :: d in w.all && d !in Below(w, this) ==> d.realEndTime == old(d.realEndTime)
      decreases w.top - rank, 2
    {
      ghost var before := InEffect(w.all);
      ChildrenCover(w, this);
      assert this in Below(w, this);
      Begin(now, w.all, w.items);
      EnterChildren(now, w, before);
    }

    method EnterChildren(now: int, ghost w: World, ghost before: set<Downtime>)
      requires this in w.all && Reflects(w) && Below(w, this) !! before
      requires PartEntered(w, this, 0, before, now)
      modifies w.all`isInEffect, Flexible(w.all)`realEndTime, w.items`scheduledDowntimeDepth, w.items`inScheduledDowntime
      ensures PartEntered(w, this, |w.kids[this]|, before, now)
      ensures forall d :: d in w.all && d !in Below(w, this) ==> d.realEndTime == old(d.realEndTime)
      decreases w.top - rank, 1
    {
      for i := 0 to |activateMe|
        invariant PartEntered(w, this, i, before, now)
        invariant forall d :: d in w.all && d !in Below(w, this) ==> d.realEndTime == old(d.realEndTime)
      {
        EnterChild(now, i, w, before);
      }
    }

    method EnterChild(now: int, i: nat, ghost w: World, ghost before: set<Downtime>)
      requires this in w.all && Reflects(w) && i < |activateMe| && Below(w, this) !! before
      requires PartEntered(w, this, i, before, now)
      modifies w.all`isInEffect, Flexible(w.all)`realEndTime, w.items`scheduledDowntimeDepth, w.items`inScheduledDowntime
      ensures PartEntered(w, this, i + 1, before, now)
      ensures forall d :: d in w.all && d !in Below(w, this) ==> d.realEndTime == old(d.realEndTime)
      decreases w.top - rank, 0
    {
      ChildrenApart(w, this, i);
      ghost var cur := InEffect(w.all);
      assert Below(w, activateMe[i]) !! cur;
      activateMe[i].Enter(now, w);
      BelowNext(w, w.kids[this], i);
    }

    /** The end of the downtime was reached. */
    method Exit(ghost all: set<Downtime>, ghost items: set<Item>)
      requires this in all && ref in items && AllBalanced(all, items)
      modifies `isInEffect, `canBeDeleted, ref`scheduledDowntimeDepth, ref`inScheduledDowntime,
               ref`inScheduledDowntimeDuringLastCheck
      ensures canBeDeleted && ref.inScheduledDowntimeDuringLastCheck && InEffect(all) == old(InEffect(all)) - {this}
      ensures AllBalanced(all, items)
    {
      if isInEffect {
        isInEffect := false;
        ref.scheduledDowntimeDepth := ref.scheduledDowntimeDepth - 1;
        if ref.scheduledDowntimeDepth <= 0 {
          ref.inScheduledDowntime := false;
        }
      }
      canBeDeleted := true;
      ref.inScheduledDowntimeDuringLastCheck := true;
      assert InEffect(all) == old(InEffect(all)) - {this};
      forall i | i in items ensures Balanced(all, i) {
        assert old(Balanced(all, i));
        CountRemove(old(InEffect(all)), this, i);
      }
    }

    /** The cancellation of this downtime alone: the depth goes down whether or not the
        downtime was in effect. */
    method CancelOne(ghost all: set<Downtime>, ghost items: set<Item>)
      requires this in all && ref in items
      modifies `isInEffect, `canBeDeleted, ref`scheduledDowntimeDepth, ref`inScheduledDowntime,
               ref`inScheduledDowntimeDuringLastCheck
      ensures canBeDeleted && ref.inScheduledDowntimeDuringLastCheck && InEffect(all) == old(InEffect(all)) - {this}
      ensures forall i :: i in items ==>
                Surplus(all, i) == old(Surplus(all, i)) - (if i == ref && !old(isInEffect) then 1 else 0)
      ensures old(AllBalanced(all, items)) && old(isInEffect) ==> AllBalanced(all, items)
    {
      isInEffect := false;
      ref.scheduledDowntimeDepth := ref.scheduledDowntimeDepth - 1;
      if ref.scheduledDowntimeDepth == 0 {
        ref.inScheduledDowntime := false;
      }
      canBeDeleted := true;
      ref.inScheduledDowntimeDuringLastCheck := true;
      assert InEffect(all) == old(InEffect(all)) - {this};
      forall i | i in items
        ensures Surplus(all, i) == old(Surplus(all, i)) - (if i == ref && !old(isInEffect) then 1 else 0)
        ensures old(Balanced(all, i)) && old(isInEffect) ==> Balanced(all, i)
      {
        CountRemove(old(InEffect(all)), this, i);
      }
    }

    /** Cancels this downtime and everything it triggers.  No surplus goes up, and all of
        them stay exactly when the whole of it was in effect. */
    method Cancel(ghost w: World)
      requires this in w.all && Reflects(w)
      modifies w.all`isInEffect, w.all`canBeDeleted, w.items`scheduledDowntimeDepth, w.items`inScheduledDowntime,
               w.items`inScheduledDowntimeDuringLastCheck
      ensures Cancelled(w, Below(w, this), old(TakeStock(w)))
      decreases w.top - rank, 2
    {
      ChildrenCover(w, this);
      ghost var was := TakeStock(w);
      CancelSelf(w);
      CancelChildren(w, was);
    }

    method CancelSelf(ghost w: World)
      requires this in w.all && ref in w.items
      modifies `isInEffect, `canBeDeleted, ref`scheduledDowntimeDepth, ref`inScheduledDowntime,
               ref`inScheduledDowntimeDuringLastCheck
      ensures PartCancelled(w, this, 0, old(TakeStock(w)))
    {
      ghost var level := Surpluses(w.all, w.items);
      CancelOne(w.all, w.items);
      assert Surpluses(w.all, w.items) == level <==> Surpluses(w.all, w.items)[ref] == level[ref];
      assert PartBelow(w, this, 0) == {this};
    }

    method CancelChildren(ghost w: World, ghost was: Stock)
      requires this in w.all && Reflects(w) && PartCancelled(w, this, 0, was)
      modifies w.all`isInEffect, w.all`canBeDeleted, w.items`scheduledDowntimeDepth, w.items`inScheduledDowntime,
               w.items`inScheduledDowntimeDuringLastCheck
      ensures PartCancelled(w, this, |w.kids[this]|, was)
      decreases w.top - rank, 1
    {
      for i := 0 to |activateMe|
        invariant PartCancelled(w, this, i, was)
      {
        CancelChild(i, w, was);
      }
    }

    method CancelChild(i: nat, ghost w: World, ghost was: Stock)
      requires this in w.all && Reflects(w) && i < |activateMe| && PartCancelled(w, this, i, was)
      modifies w.all`isInEffect, w.all`canBeDeleted, w.items`scheduledDowntimeDepth, w.items`inScheduledDowntime,
               w.items`inScheduledDowntimeDuringLastCheck
      ensures PartCancelled(w, this, i + 1, was)
      decreases w.top - rank, 0
    {
      ChildrenApart(w, this, i);
      ghost var gone := PartBelow(w, this, i);
      ghost var more := Below(w, activateMe[i]);
      ghost var mid := Surpluses(w.all, w.items);
      assert more <= InEffect(w.all) <==> more <= was.eff;
      activateMe[i].Cancel(w);
      BelowNext(w, w.kids[this], i);
      assert PartBelow(w, this, i + 1) == gone + more;
      assert gone + more <= was.eff <==> gone <= was.eff && more <= was.eff;
      AtMostTrans(Surpluses(w.all, w.items), mid, was.level);
    }
  }

  /** The surplus of every item. */
  ghost function Surpluses(all: set<Downtime>, items: set<Item>): map<Item, int>
    reads all`isInEffect, items`scheduledDowntimeDepth
  {
    map i | i in items :: Surplus(all, i)
  }

  lemma NoSurplus(all: set<Downtime>, items: set<Item>)
    requires AllBalanced(all, items)
    ensures Surpluses(all, items) == map i | i in items :: 0
  {
    forall i | i in items ensures Surplus(all, i) == 0 {
      assert Balanced(all, i);
    }
  }

  ghost predicate AtMost(a: map<Item, int>, b: map<Item, int>) {
    a.Keys == b.Keys && forall i :: i in a ==> a[i] <= b[i]
  }

  lemma AtMostTrans(a: map<Item, int>, b: map<Item, int>, c: map<Item, int>)
    requires AtMost(a, b) && AtMost(b, c)
    ensures AtMost(a, c) && (a == c <==> a == b && b == c)
  {
    if a == c {
      assert forall i :: i in a ==> a[i] == b[i];
    }
  }

  /** The downtimes `more` have been entered since the downtimes `before` were in effect. */
  ghost predicate Entered(w: World, more: set<Downtime>, before: set<Downtime>)
    reads w.all`isInEffect, w.items`scheduledDowntimeDepth, w.items`inScheduledDowntime
  {
    InEffect(w.all) == before + more && AllBalanced(w.all, w.items)
  }

  /** The flexible ones among these downtimes last from now on. */
  ghost predicate Timed(ds: set<Downtime>, now: int)
    reads ds`realEndTime
  {
    forall d :: d in ds && !d.fixed ==> d.realEndTime == now + d.duration
  }

  /** `a` and what its first `n` children trigger. */
  ghost function PartBelow(w: World, a: Downtime, n: nat): set<Downtime>
    requires a in w.kids && n <= |w.kids[a]|
  {
    {a} + BelowFirst(w, w.kids[a], n)
  }

  /** `a` and what its first `n` children trigger have been entered at `now`. */
  ghost predicate PartEntered(w: World, a: Downtime, n: nat, before: set<Downtime>, now: int)
    reads w.all`isInEffect, w.items`scheduledDowntimeDepth, w.items`inScheduledDowntime, w.all`realEndTime
  {
    a in w.kids && n <= |w.kids[a]| && Entered(w, PartBelow(w, a, n), before) && Timed(w.all * PartBelow(w, a, n), now)
  }

  /** What a cancellation can change: the downtimes in effect and marked, the surplus of each
      item, and whether all are balanced. */
  datatype Stock = Stock(eff: set<Downtime>, marked: set<Downtime>, level: map<Item, int>, balanced: bool)

  ghost function TakeStock(w: World): Stock
    reads w.all`isInEffect, w.all`canBeDeleted, w.items`scheduledDowntimeDepth, w.items`inScheduledDowntime
  {
    Stock(InEffect(w.all), Deletable(w.all), Surpluses(w.all, w.items), AllBalanced(w.all, w.items))
  }

  /** The downtimes `gone` have been cancelled since. No surplus went up, and all of them
      stayed exactly if all of `gone` was in effect. */
  ghost predicate Cancelled(w: World, gone: set<Downtime>, was: Stock)
    reads w.all`isInEffect, w.all`canBeDeleted, w.items`scheduledDowntimeDepth, w.items`inScheduledDowntime
  {
    && InEffect(w.all) == was.eff - gone && Deletable(w.all) == was.marked + gone
    && AtMost(Surpluses(w.all, w.items), was.level)
    && (Surpluses(w.all, w.items) == was.level <==> gone <= was.eff)
    && (was.balanced && gone <= was.eff ==> AllBalanced(w.all, w.items))
  }

  ghost predicate PartCancelled(w: World, a: Downtime, n: nat, was: Stock)
    reads w.all`isInEffect, w.all`canBeDeleted, w.items`scheduledDowntimeDepth, w.items`inScheduledDowntime
  {
    a in w.kids && n <= |w.kids[a]| && Cancelled(w, PartBelow(w, a, n), was)
  }

  // ----- Runs of the scheduler -----

  /** No downtime of `reg` that is out of effect triggers one that is in effect, so that
      each of them may still be entered. */
  ghost predicate Quiet(w: World, reg: set<Downtime>, e: set<Downtime>)
  {
    forall d {:trigger Below(w, d)} :: d in reg && d !in e ==> Below(w, d) !! e
  }

  lemma QuietEnter(w: World, reg: set<Downtime>, e: set<Downtime>, r: Downtime)
    requires Quiet(w, reg, e) && reg <= w.all && r in w.all && r.triggerId == 0
    ensures Quiet(w, reg, e + Below(w, r))
  {
    forall d | d in reg && d !in e + Below(w, r) ensures Below(w, d) !! Below(w, r) {
      forall x | x in Below(w, d) && x in Below(w, r) ensures false {
        UnderChain(w.parent, x, d, r);
      }
    }
  }

  lemma QuietFewer(w: World, reg: set<Downtime>, fewer: set<Downtime>, e: set<Downtime>)
    requires Quiet(w, reg, e) && fewer <= reg
    ensures Quiet(w, fewer, e)
  {
  }

  lemma QuietExit(w: World, reg: set<Downtime>, e: set<Downtime>, d: Downtime)
    requires Quiet(w, reg, e)
    ensures Quiet(w, reg - {d}, e - {d})
  {
  }

  lemma QuietCancel(w: World, reg: set<Downtime>, e: set<Downtime>, d: Downtime)
    requires Quiet(w, reg, e)
    ensures Quiet(w, reg, e - Below(w, d))
  {
    forall x | x in reg && x !in e - Below(w, d) ensures Below(w, x) !! e - Below(w, d) {
      if x in e {
        forall y | y in Below(w, x) ensures y in Below(w, d) {
          UnderTrans(w.parent, y, x, d);
        }
      }
    }
  }

  /** The world after `d` has been created, triggered by `p` if there is one. */
  ghost function Created(w: World, d: Downtime, p: Downtime?): Links
    requires p != null ==> p in w.kids
  {
    var kids := w.kids[d := []];
    if p == null then Links(w.all + {d}, w.items, w.parent, kids, w.top + 1)
    else Links(w.all + {d}, w.items, w.parent[d := p], kids[p := w.kids[p] + [d]], w.top + 1)
  }

  ghost predicate Fits(w: World, d: Downtime, p: Downtime?) {
    && d.rank == w.top && d.ref in w.items && (d.fixed ==> d.triggerId == 0)
    && (p != null ==> p in w.all && p in w.kids && d.triggerId != 0)
  }

  lemma CreatedLinked(w: World, d: Downtime, p: Downtime?)
    requires d !in w.all && Fits(w, d, p)
    ensures Linked(Created(w, d, p))
  {
    var v := Created(w, d, p);
    forall c | c in v.parent ensures Listed(v, c) {
      if c != d {
        assert Listed(w, c);
      }
    }
    forall a | a in v.all ensures ChildrenOf(v, a, v.kids[a]) && Distinct(v.kids[a]) {
      if a != d {
        assert ChildrenOf(w, a, w.kids[a]) && Distinct(w.kids[a]);
        assert d !in w.parent;
      }
    }
  }

  lemma {:induction false} CreatedUnder(w: World, d: Downtime, p: Downtime?, x: Downtime, a: Downtime)
    requires d !in w.all && (p != null ==> p in w.all) && Linked(Created(w, d, p))
    requires x in w.all
    ensures Under(Created(w, d, p).parent, x, a) <==> Under(w.parent, x, a)
    decreases x.rank
  {
    if x in w.parent {
      assert Listed(w, x);
      CreatedUnder(w, d, p, w.parent[x], a);
    }
  }

  lemma CreatedQuiet(w: World, d: Downtime, p: Downtime?, reg: set<Downtime>, e: set<Downtime>)
    requires d !in w.all && (p != null ==> p in w.all) && Linked(Created(w, d, p))
    requires Quiet(w, reg, e) && reg <= w.all && e <= w.all
    ensures Quiet(Created(w, d, p), reg + {d}, e)
  {
    var v := Created(w, d, p);
    forall x, y | x in reg + {d} && x !in e && y in Below(v, x) ensures y !in e {
      if y in w.all {
        assert x in w.all && x !in e ==> Below(w, x) !! e;
        CreatedUnder(w, d, p, y, x);
        if x == d {
          UnderIn(w, y, d);
        }
      }
    }
  }

  lemma CreatedStaysQuiet(w: World, d: Downtime, p: Downtime?, reg: set<Downtime>, e: set<Downtime>, now: set<Downtime>)
    requires d !in w.all && (p != null ==> p in w.all) && Linked(Created(w, d, p))
    requires Quiet(w, reg, e) && reg <= w.all && e <= w.all && now <= reg + {d}
    ensures Quiet(Created(w, d, p), now, e)
  {
    CreatedQuiet(w, d, p, reg, e);
    QuietFewer(Created(w, d, p), reg + {d}, now, e);
  }

  lemma {:induction false} UnderIn(w: World, x: Downtime, a: Downtime)
    requires x in w.all && Under(w.parent, x, a)
    ensures a in w.all
    decreases x.rank
  {
    if x != a {
      assert Listed(w, x);
      UnderIn(w, w.parent[x], a);
    }
  }

  type ItemLists = map<Item, seq<Downtime>>

  ghost function ListsOf(items: set<Item>): ItemLists
    reads items`downtimes
  {
    map i | i in items :: i.downtimes
  }

  /** The registered downtimes, by id, are those on the items' lists. */
  ghost predicate Ledger(all: set<Downtime>, lists: ItemLists, reg: map<int, Downtime>) {
    && (forall k :: k in reg ==> reg[k] in all && reg[k].id == k && reg[k].ref in lists && reg[k] in lists[reg[k].ref])
    && (forall i {:trigger lists[i]} :: i in lists ==> Distinct(lists[i]) && RegisteredOn(lists[i], i, reg))
  }

  ghost predicate Registry(all: set<Downtime>, items: set<Item>, reg: map<int, Downtime>)
    reads items`downtimes
  {
    Ledger(all, ListsOf(items), reg)
  }

  lemma OnList(all: set<Downtime>, items: set<Item>, reg: map<int, Downtime>, i: Item)
    requires Registry(all, items, reg) && i in items
    ensures Distinct(i.downtimes) && RegisteredOn(i.downtimes, i, reg)
    ensures forall k :: k in reg && reg[k].ref == i ==> reg[k] in i.downtimes
  {
    assert ListsOf(items)[i] == i.downtimes;
  }

  lemma LedgerAdd(all: set<Downtime>, lists: ItemLists, reg: map<int, Downtime>, d: Downtime)
    requires Ledger(all, lists, reg) && d.ref in lists && d.id !in reg
    ensures Ledger(all + {d}, lists[d.ref := lists[d.ref] + [d]], reg[d.id := d])
  {
    assert RegisteredOn(lists[d.ref], d.ref, reg);
  }

  lemma LedgerDrop(all: set<Downtime>, lists: ItemLists, reg: map<int, Downtime>, id: int, left: seq<Downtime>)
    requires Ledger(all, lists, reg) && id in reg && Distinct(left)
    requires forall d :: d in left <==> d in lists[reg[id].ref] && d.id != id
    ensures Ledger(all, lists[reg[id].ref := left], reg - {id})
  {
    var item := reg[id].ref;
    assert RegisteredOn(lists[item], item, reg);
    forall i | i in lists && i != item ensures RegisteredOn(lists[i], i, reg - {id}) {
      assert RegisteredOn(lists[i], i, reg);
    }
  }

  ghost predicate RegisteredOn(ds: seq<Downtime>, i: Item, reg: map<int, Downtime>) {
    forall d :: d in ds ==> d.ref == i && d.id in reg && reg[d.id] == d
  }

  ghost function Registered(all: set<Downtime>, reg: map<int, Downtime>): set<Downtime> {
    set d | d in all && d.id in reg && reg[d.id] == d
  }

  /** A new downtime is not in effect, so no balance moves. */
  lemma CreatedBalance(w: World, d: Downtime)
    requires !d.isInEffect && AllBalanced(w.all, w.items)
    ensures InEffect(w.all + {d}) == InEffect(w.all) && AllBalanced(w.all + {d}, w.items)
  {
    assert InEffect(w.all + {d}) == InEffect(w.all);
    forall i | i in w.items ensures Balanced(w.all + {d}, i) {
      assert Balanced(w.all, i);
    }
  }

  /** A flexible downtime whose start has come on an item in a non-ok state. */
  predicate Due(d: Downtime, lastChk: int, stateId: int) {
    !d.fixed && d.startTime <= lastChk && stateId != 0 && d.triggerId == 0
  }

  /** What the first `n` downtimes of an item bring into effect, if `e` were before. */
  ghost function Woken(w: World, ds: seq<Downtime>, n: nat, lastChk: int, stateId: int, e: set<Downtime>): set<Downtime>
    requires n <= |ds|
  {
    if n == 0 then {}
    else Woken(w, ds, n - 1, lastChk, stateId, e)
         + (if Due(ds[n - 1], lastChk, stateId) && ds[n - 1] !in e then Below(w, ds[n - 1]) else {})
  }

  /** Some listed flexible downtime that nothing triggers is due and out of effect, and it is or
      triggers `d`. */
  ghost predicate IsWoken(w: World, ds: seq<Downtime>, lastChk: int, stateId: int, e: set<Downtime>, d: Downtime) {
    exists k ::
      && 0 <= k < |ds| && ds[k] !in e && !ds[k].fixed && ds[k].triggerId == 0 && ds[k].startTime <= lastChk && stateId != 0
      && Under(w.parent, d, ds[k])
  }

  lemma {:induction false} WokenIff(w: World, ds: seq<Downtime>, n: nat, lastChk: int, stateId: int, e: set<Downtime>, d: Downtime)
    requires n <= |ds| && d in w.all
    ensures d in Woken(w, ds, n, lastChk, stateId, e) <==> IsWoken(w, ds[..n], lastChk, stateId, e, d)
    ensures n == |ds| ==> ds[..n] == ds
  {
    if n > 0 {
      WokenIff(w, ds, n - 1, lastChk, stateId, e, d);
      var a, b := ds[..n - 1], ds[..n];
      assert b[n - 1] == ds[n - 1];
      assert forall k :: 0 <= k < n - 1 ==> b[k] == a[k];
    }
  }

  /** A downtime that no other triggers is not woken by others. */
  lemma {:induction false} WokenApart(w: World, ds: seq<Downtime>, n: nat, lastChk: int, stateId: int, e: set<Downtime>, d: Downtime)
    requires n <= |ds| && forall k :: 0 <= k < n ==> ds[k] != d
    ensures d.triggerId == 0 ==> d !in Woken(w, ds, n, lastChk, stateId, e)
  {
    if n > 0 {
      WokenApart(w, ds, n - 1, lastChk, stateId, e, d);
      assert d.triggerId == 0 ==> d !in w.parent;
    }
  }

  // ----- A pass over the downtimes, as values -----

  /** Whether a downtime is in effect and marked for deletion, and its real end. */
  datatype Status = Status(eff: bool, marked: bool, end: int)

  type Statuses = map<Downtime, Status>

  ghost function StatusOf(d: Downtime): Status
    reads d`isInEffect, d`canBeDeleted, d`realEndTime
  {
    Status(d.isInEffect, d.canBeDeleted, d.realEndTime)
  }

  ghost function StatusesOf(all: set<Downtime>): Statuses
    reads all`isInEffect, all`canBeDeleted, all`realEndTime
  {
    map d | d in all :: StatusOf(d)
  }

  /** A fixed downtime that has to start. */
  predicate Starts(d: Downtime, st: Status, now: int) {
    d.fixed && d.startTime <= now <= st.end && !st.eff && !st.marked
  }

  /** A downtime that is entered; a flexible one lasts from now on. */
  function Begun(d: Downtime, st: Status, now: int): Status {
    Status(true, st.marked, if d.fixed then st.end else now + d.duration)
  }

  /** A downtime after its own turn of the loop. */
  function OwnTurn(d: Downtime, st: Status, now: int): Status {
    if st.end < now then Status(false, true, st.end) else if Starts(d, st, now) then Begun(d, st, now) else st
  }

  ghost function StartingOf(all: set<Downtime>, s: Statuses, reg: map<int, Downtime>, now: int): set<Downtime> {
    set r | r in all && r in s && r.id in reg && reg[r.id] == r && Starts(r, s[r], now)
  }

  /** The downtimes `ds` are entered. */
  ghost function Entering(s: Statuses, ds: set<Downtime>, now: int): Statuses {
    map d | d in s :: if d in ds then Begun(d, s[d], now) else s[d]
  }

  lemma EnteringMore(s: Statuses, a: set<Downtime>, b: set<Downtime>, now: int)
    ensures Entering(Entering(s, a, now), b, now) == Entering(s, a + b, now)
  {
  }

  /** All downtimes after the turn of `dt`. */
  ghost function Turned(w: World, s: Statuses, dt: Downtime, now: int): (r: Statuses)
    requires dt in s
    ensures r.Keys == s.Keys
  {
    if s[dt].end < now then s[dt := Status(false, true, s[dt].end)]
    else if Starts(dt, s[dt], now) then Entering(s, Below(w, dt), now)
    else s
  }

  lemma TurnedStarts(w: World, s: Statuses, dt: Downtime, now: int)
    requires dt in s && Starts(dt, s[dt], now)
    ensures Turned(w, s, dt, now) == Entering(s, Below(w, dt), now)
  {
  }

  /** The list names each key of the dictionary once. */
  ghost predicate ListsKeys(order: seq<int>, reg: map<int, Downtime>) {
    && (forall i, j :: 0 <= i < j < |order| ==> order[i] != order[j])
    && (forall i :: 0 <= i < |order| ==> order[i] in reg) && (forall k :: k in reg ==> k in order)
  }

  /** The dictionary without the downtimes `marked` among the first `n` of the list. */
  ghost function Without(reg: map<int, Downtime>, order: seq<int>, n: nat, marked: set<Downtime>): map<int, Downtime>
    requires n <= |order|
  {
    map k | k in reg && !(k in order[..n] && reg[k] in marked) :: reg[k]
  }

  ghost function Unmarked(reg: map<int, Downtime>, marked: set<Downtime>): map<int, Downtime> {
    map k | k in reg && reg[k] !in marked :: reg[k]
  }

  lemma UnmarkedOf(reg: map<int, Downtime>, left: map<int, Downtime>, marked: set<Downtime>)
    requires forall k :: k in reg ==> if reg[k] in marked then k !in left else k in left && left[k] == reg[k]
    requires forall k :: k in left ==> k in reg
    ensures Unmarked(reg, marked) == left
  {
    var u := Unmarked(reg, marked);
    assert forall k :: k in left ==> k in u && u[k] == left[k];
    assert forall k :: k in u ==> k in left;
  }

  lemma WithoutNext(reg: map<int, Downtime>, order: seq<int>, n: nat, marked: set<Downtime>)
    requires n < |order| && ListsKeys(order, reg)
    ensures order[n] in Without(reg, order, n, marked)
    ensures Without(reg, order, n + 1, marked) ==
            if reg[order[n]] in marked then Without(reg, order, n, marked) - {order[n]} else Without(reg, order, n, marked)
  {
    assert order[..n + 1] == order[..n] + [order[n]];
    assert order[n] !in order[..n];
  }

  /** A pass of the start-and-stop loop from the state `start`, in the order of the
      dictionary. */
  datatype Pass = Pass(w: World, start: Statuses, reg: map<int, Downtime>, order: seq<int>, now: int) {
    ghost predicate Proper() {
      && start.Keys == w.all && ListsKeys(order, reg)
      && forall k :: k in reg ==> reg[k] in w.all && reg[k].id == k
    }

    /** The state `h[k + 1]` comes from the turn `k`. */
    ghost predicate Turn(h: seq<Statuses>, k: nat)
      requires Proper()
    {
      k < |order| && k + 1 < |h| && h[k].Keys == w.all && reg[order[k]] in h[k] && h[k + 1] == Turned(w, h[k], reg[order[k]], now)
    }

    /** The states `h` that the pass goes through turn by turn. */
    ghost predicate Run(h: seq<Statuses>)
      requires Proper()
    {
      && 0 < |h| <= |order| + 1 && h[0] == start && h[|h| - 1].Keys == w.all
      && forall k {:trigger Turn(h, k)} :: 0 <= k < |h| - 1 ==> Turn(h, k)
    }

    ghost predicate Registers(d: Downtime) {
      d.id in reg && reg[d.id] == d
    }

    /** The turn `k` starts a downtime that triggers `d`. */
    ghost predicate BeginsAt(k: nat, d: Downtime)
      requires Proper() && k < |order|
    {
      var r := reg[order[k]];
      r in start && r != d && Starts(r, start[r], now) && d in Below(w, r)
    }

    ghost predicate Begins(d: Downtime)
      requires Proper()
    {
      exists k :: 0 <= k < |order| && BeginsAt(k, d)
    }

    /** The downtime has its own turn before it is triggered. */
    ghost predicate TurnFirst(d: Downtime)
      requires Proper()
    {
      exists j, k :: 0 <= j < k < |order| && reg[order[j]] == d && BeginsAt(k, d)
    }

    /** What the pass makes of a downtime. */
    ghost function Outcome(d: Downtime): Status
      requires Proper() && d in w.all
    {
      var st := start[d];
      if !Registers(d) then if Begins(d) then Begun(d, st, now) else st
      else if !Begins(d) then OwnTurn(d, st, now)
      else if TurnFirst(d) then Begun(d, OwnTurn(d, st, now), now)
      else OwnTurn(d, Begun(d, st, now), now)
    }

    /** The pass does not leave the downtime in effect and drop it. */
    ghost predicate Endures(d: Downtime)
      requires Proper() && d in w.all
    {
      var st := start[d];
      if Begins(d) then Registers(d) && if TurnFirst(d) then !st.marked && st.end >= now else !st.marked || d.duration < 0
      else st.eff ==> Registers(d) && (!st.marked || st.end < now)
    }

    ghost predicate AllEndure()
      requires Proper()
    {
      forall d :: d in w.all ==> Endures(d)
    }
  }

  lemma RunMore(p: Pass, h: seq<Statuses>, s: Statuses)
    requires p.Proper() && p.Run(h) && |h| <= |p.order|
    requires p.reg[p.order[|h| - 1]] in h[|h| - 1] && s == Turned(p.w, h[|h| - 1], p.reg[p.order[|h| - 1]], p.now)
    ensures p.Run(h + [s])
  {
    forall k | 0 <= k < |h| ensures p.Turn(h + [s], k) {
      assert k < |h| - 1 ==> p.Turn(h, k);
    }
  }

  /** A downtime that nothing triggers changes only in its own turn. */
  lemma {:induction false} RootRun(p: Pass, h: seq<Statuses>, n: nat, d: Downtime)
    requires p.Proper() && p.Run(h) && n < |h| && d in p.w.all && d !in p.w.parent
    requires forall k :: 0 <= k < n ==> p.order[k] != d.id
    ensures d in h[n] && h[n][d] == p.start[d]
  {
    if n > 0 {
      RootRun(p, h, n - 1, d);
      assert p.Turn(h, n - 1);
    }
  }

  /** What a turn makes of one downtime, in terms of the state before the pass. */
  lemma NextTurn(p: Pass, h: seq<Statuses>, n: nat, d: Downtime)
    requires p.Proper() && p.Run(h) && n + 1 < |h| && d in p.w.all
    ensures d in h[n] && d in h[n + 1]
    ensures h[n + 1][d] ==
            if p.reg[p.order[n]] == d then OwnTurn(d, h[n][d], p.now)
            else if p.BeginsAt(n, d) then Begun(d, h[n][d], p.now)
            else h[n][d]
  {
    assert p.Turn(h, n);
    var r := p.reg[p.order[n]];
    if r.fixed {
      RootRun(p, h, n, r);
    }
    assert r in p.w.all && r in Below(p.w, r);
  }

  /** At most one downtime that starts triggers `d`. */
  lemma OneBeginning(p: Pass, j: nat, k: nat, d: Downtime)
    requires p.Proper() && j < |p.order| && k < |p.order| && p.BeginsAt(j, d) && p.BeginsAt(k, d)
    ensures j == k
  {
    var a, b := p.reg[p.order[j]], p.reg[p.order[k]];
    UnderChain(p.w.parent, d, a, b);
  }

  /** `b` is the turn that triggers `d` and `t` its own; the length of the list if none. */
  ghost predicate Turns(p: Pass, d: Downtime, b: nat, t: nat)
    requires p.Proper()
  {
    && b <= |p.order| && t <= |p.order|
    && (forall k :: 0 <= k < |p.order| ==> (p.BeginsAt(k, d) <==> k == b))
    && (forall k :: 0 <= k < |p.order| ==> (p.reg[p.order[k]] == d <==> k == t))
  }

  /** A downtime with the status `st` after `n` turns, triggered in turn `b` and with its own
      turn in `t`. */
  function Midway(d: Downtime, st: Status, now: int, n: nat, b: nat, t: nat): Status {
    if n <= b && n <= t then st
    else if n <= b then OwnTurn(d, st, now)
    else if n <= t then Begun(d, st, now)
    else if t < b then Begun(d, OwnTurn(d, st, now), now)
    else OwnTurn(d, Begun(d, st, now), now)
  }

  /** The statuses `h` that a downtime goes through turn by turn. */
  lemma {:induction false} Through(h: seq<Status>, n: nat, d: Downtime, now: int, b: nat, t: nat)
    requires n < |h| && (b == t ==> b >= |h| - 1)
    requires forall k :: 0 <= k < |h| - 1 ==>
               h[k + 1] == if k == t then OwnTurn(d, h[k], now) else if k == b then Begun(d, h[k], now) else h[k]
    ensures h[n] == Midway(d, h[0], now, n, b, t)
  {
    if n > 0 {
      Through(h, n - 1, d, now, b, t);
      assert h[n - 1 + 1] == h[n];
    }
  }

  lemma FindTurns(p: Pass, d: Downtime) returns (b: nat, t: nat)
    requires p.Proper()
    ensures Turns(p, d, b, t)
    ensures (p.Begins(d) <==> b < |p.order|) && (p.Registers(d) <==> t < |p.order|)
    ensures p.TurnFirst(d) <==> t < b < |p.order|
  {
    b, t := |p.order|, |p.order|;
    if p.Begins(d) {
      b :| 0 <= b < |p.order| && p.BeginsAt(b, d);
      forall k | 0 <= k < |p.order| && p.BeginsAt(k, d) ensures k == b {
        OneBeginning(p, k, b, d);
      }
    }
    if p.Registers(d) {
      assert d.id in p.order;
      t :| 0 <= t < |p.order| && p.order[t] == d.id;
    }
    forall k | 0 <= k < |p.order| ensures p.reg[p.order[k]] == d <==> k == t {
      assert p.order[k] in p.reg && p.reg[p.order[k]].id == p.order[k];
    }
  }

  lemma PassOutcome(p: Pass, h: seq<Statuses>, d: Downtime)
    requires p.Proper() && p.Run(h) && |h| == |p.order| + 1 && d in p.w.all
    ensures h[|p.order|][d] == p.Outcome(d)
  {
    var b, t := FindTurns(p, d);
    var own := OwnHistory(p, h, d);
    assert forall k :: 0 <= k < |p.order| ==> (p.BeginsAt(k, d) <==> k == b) && (p.reg[p.order[k]] == d <==> k == t);
    Through(own, |p.order|, d, p.now, b, t);
  }

  /** What one downtime goes through. */
  lemma OwnHistory(p: Pass, h: seq<Statuses>, d: Downtime) returns (own: seq<Status>)
    requires p.Proper() && p.Run(h) && |h| == |p.order| + 1 && d in p.w.all
    ensures |own| == |h| && own[0] == p.start[d] && own[|p.order|] == h[|p.order|][d]
    ensures forall k :: 0 <= k < |p.order| ==>
              own[k + 1] == if p.reg[p.order[k]] == d then OwnTurn(d, own[k], p.now)
                            else if p.BeginsAt(k, d) then Begun(d, own[k], p.now) else own[k]
  {
    own := seq(|h|, k requires 0 <= k < |h| => if d in h[k] then h[k][d] else p.start[d]);
    forall k | 0 <= k < |p.order|
      ensures own[k + 1] == if p.reg[p.order[k]] == d then OwnTurn(d, own[k], p.now)
                            else if p.BeginsAt(k, d) then Begun(d, own[k], p.now) else own[k]
    {
      NextTurn(p, h, k, d);
    }
  }

  /** A downtime stays in effect only if it is neither unknown nor dropped by the pass,
      exactly if it endures. */
  lemma EnduresExactly(p: Pass, d: Downtime)
    requires p.Proper() && d in p.w.all
    ensures p.Endures(d) <==> (p.Outcome(d).eff ==> p.Registers(d) && !p.Outcome(d).marked)
  {
    assert p.Begins(d) ==> d in p.w.parent;
  }

  // ----- What a pass comes to -----

  /** `r` is a registered fixed downtime, neither in effect nor marked, between its start and
      its end, and it is or triggers `d`. */
  ghost predicate StartsOver(p: Pass, r: Downtime, d: Downtime) {
    && p.Registers(r) && r in p.start && r.fixed && r.startTime <= p.now <= p.start[r].end
    && !p.start[r].eff && !p.start[r].marked && Under(p.w.parent, d, r)
  }

  lemma StartsOverTurn(p: Pass, r: Downtime, d: Downtime) returns (k: nat)
    requires p.Proper() && d in p.w.all && StartsOver(p, r, d)
    ensures k < |p.order| && p.reg[p.order[k]] == r && (r != d ==> p.BeginsAt(k, d))
  {
    assert r.id in p.order;
    k :| 0 <= k < |p.order| && p.order[k] == r.id;
  }

  lemma TurnStartsOver(p: Pass, k: nat, d: Downtime)
    requires p.Proper() && k < |p.order| && p.BeginsAt(k, d)
    ensures StartsOver(p, p.reg[p.order[k]], d)
  {
    var r := p.reg[p.order[k]];
    assert p.order[k] in p.reg && r.id == p.order[k] && p.reg[r.id] == r;
  }

  lemma RootBegins(p: Pass, d: Downtime)
    requires p.Proper() && d in p.w.all
    ensures p.Begins(d) ==> d in p.w.parent && !d.fixed
  {
  }

  /** A fixed downtime whose time it is runs. */
  lemma FixedRuns(p: Pass, d: Downtime)
    requires p.Proper() && d in p.w.all && p.Registers(d) && d.fixed && !p.start[d].marked
    requires d.startTime <= p.now <= p.start[d].end
    ensures p.Outcome(d).eff
  {
    RootBegins(p, d);
  }

  /** Whatever comes into effect is such a downtime or is triggered by one. */
  lemma NewlyBegun(p: Pass, d: Downtime) returns (r: Downtime)
    requires p.Proper() && d in p.w.all && p.Outcome(d).eff && !p.start[d].eff
    ensures StartsOver(p, r, d)
  {
    if p.Begins(d) {
      var k :| 0 <= k < |p.order| && p.BeginsAt(k, d);
      TurnStartsOver(p, k, d);
      r := p.reg[p.order[k]];
    } else {
      r := d;
    }
  }

  /** What an expired downtime comes to if nothing that starts triggers it, and what one that
      is triggered comes to. */
  lemma TriggeredOutcome(p: Pass, d: Downtime, r: Downtime)
    requires p.Proper() && d in p.w.all && StartsOver(p, r, d) && r != d
    ensures p.Outcome(d).end == p.now + d.duration && (p.Outcome(d).eff || d.duration < 0)
  {
    var k := StartsOverTurn(p, r, d);
    assert d in p.w.parent && p.Begins(d);
  }

  lemma UntriggeredOutcome(p: Pass, d: Downtime)
    requires p.Proper() && d in p.w.all && forall r :: r in p.w.all && r != d ==> !StartsOver(p, r, d)
    ensures p.Outcome(d).end == p.start[d].end
    ensures p.Registers(d) && p.start[d].end < p.now ==> !p.Outcome(d).eff && p.Outcome(d).marked
    ensures !p.Registers(d) || p.start[d].end >= p.now ==>
              (p.start[d].eff ==> p.Outcome(d).eff) && p.Outcome(d).marked == p.start[d].marked
  {
    forall k | 0 <= k < |p.order| ensures !p.BeginsAt(k, d) {
      if p.BeginsAt(k, d) {
        TurnStartsOver(p, k, d);
        assert false;
      }
    }
  }

  lemma OutcomeMeans(p: Pass, d: Downtime)
    requires p.Proper() && d in p.w.all
    ensures p.Registers(d) && d.fixed && !p.start[d].marked && d.startTime <= p.now <= p.start[d].end ==> p.Outcome(d).eff
    ensures p.Outcome(d).eff && !p.start[d].eff ==> exists r :: r in p.w.all && StartsOver(p, r, d)
    ensures p.Registers(d) && p.start[d].end < p.now ==>
              (!p.Outcome(d).eff && p.Outcome(d).marked) || exists r :: r in p.w.all && StartsOver(p, r, d)
  {
    if p.Registers(d) && d.fixed && !p.start[d].marked && d.startTime <= p.now <= p.start[d].end {
      FixedRuns(p, d);
    }
    if p.Outcome(d).eff && !p.start[d].eff {
      var r := NewlyBegun(p, d);
    }
    if forall r :: r in p.w.all && r != d ==> !StartsOver(p, r, d) {
      UntriggeredOutcome(p, d);
    }
  }

  /** In the words of the objects: what a registered downtime that starts does to the ones it
      triggers, and what the pass leaves alone. */
  lemma PassFacts(p: Pass, d: Downtime, r: Downtime)
    requires p.Proper() && d in p.w.all
    ensures p.Registers(r) && r in p.w.all && r.fixed && r.startTime <= p.now <= p.start[r].end && !p.start[r].eff && !p.start[r].marked
            && r != d && Under(p.w.parent, d, r) ==>
              p.Outcome(d).end == p.now + d.duration && (p.Outcome(d).eff || d.duration < 0)
    ensures p.start[d].eff && !p.Outcome(d).eff ==> p.Registers(d) && (p.start[d].end < p.now || d.duration < 0)
    ensures p.start[d].marked ==> p.Outcome(d).marked
    ensures p.Outcome(d).marked ==> p.start[d].marked || p.start[d].end < p.now || d.duration < 0
    ensures p.Outcome(d).end == p.start[d].end || p.Outcome(d).end == p.now + d.duration
  {
    if StartsOver(p, r, d) && r != d {
      TriggeredOutcome(p, d, r);
    }
    EndsOnlyExpired(p, d);
  }

  /** A pass ends and marks only what is registered and over, or was triggered for a negative
      time. */
  lemma EndsOnlyExpired(p: Pass, d: Downtime)
    requires p.Proper() && d in p.w.all
    ensures p.start[d].eff && !p.Outcome(d).eff ==> p.Registers(d) && (p.start[d].end < p.now || d.duration < 0)
    ensures p.start[d].marked ==> p.Outcome(d).marked
    ensures p.Outcome(d).marked ==> p.start[d].marked || p.start[d].end < p.now || d.duration < 0
  {
    RootBegins(p, d);
  }

  // ----- Depth against the items' own lists -----

  ghost function InEffectOf(i: Item): set<Downtime>
    reads i`downtimes, i.downtimes`isInEffect
  {
    set d | d in i.downtimes && d.isInEffect
  }

  /** The number of listed downtimes of the item that are in effect. */
  ghost function ListedDepth(i: Item): nat
    reads i`downtimes, i.downtimes`isInEffect
  {
    |InEffectOf(i)|
  }

  ghost function ListedOn(items: set<Item>): set<Downtime>
    reads items`downtimes
  {
    set i, d | i in items && d in i.downtimes :: d
  }

  /** Each depth is the number of downtimes in effect on the item's own list. */
  ghost predicate DepthListed(items: set<Item>)
    reads items`downtimes, items`scheduledDowntimeDepth, ListedOn(items)`isInEffect
  {
    forall i :: i in items ==>
      assert forall d :: d in i.downtimes ==> d in ListedOn(items);
      i.scheduledDowntimeDepth == ListedDepth(i)
  }

  lemma SubsetSize(a: set<Downtime>, b: set<Downtime>)
    requires a <= b
    ensures |a| <= |b| && (|a| == |b| <==> b <= a)
  {
    assert b == a + (b - a);
  }

  class Scheduler {
    var downtimes: map<int, Downtime>
    ghost var w: World

    ghost predicate Core()
      reads this, w.all, w.items
    {
      Reflects(w) && AllBalanced(w.all, w.items) && Registry(w.all, w.items, downtimes)
    }

    /** What every operation keeps: the depths match the downtimes in effect, and every
        registered downtime can still be entered without counting anything twice. */
    ghost predicate Valid()
      reads this, w.all, w.items
    {
      Core() && Quiet(w, Registered(w.all, downtimes), InEffect(w.all))
    }

    constructor (ghost items: set<Item>)
      requires forall i :: i in items ==>
                 i.scheduledDowntimeDepth == 0 && !i.inScheduledDowntime && i.downtimes == []
      ensures Valid() && w == Links({}, items, map[], map[], 0) && downtimes == map[]
    {
      downtimes := map[];
      w := Links({}, items, map[], map[], 0);
    }

    method Register(item: Item, dt: Downtime, ghost all: set<Downtime>, ghost items: set<Item>)
      requires Registry(all, items, downtimes) && item in items && dt.ref == item && dt.id !in downtimes
      modifies `downtimes, item`downtimes
      ensures Registry(all + {dt}, items, downtimes)
      ensures downtimes == old(downtimes)[dt.id := dt] && item.downtimes == old(item.downtimes) + [dt]
    {
      LedgerAdd(all, ListsOf(items), downtimes, dt);
      item.AddDowntime(dt);
      downtimes := downtimes[dt.id := dt];
      assert ListsOf(items) == old(ListsOf(items))[item := item.downtimes];
    }

    method CreateDowntime(item: Item, startTime: int, endTime: int, fixed: bool, triggerId: int,
                          duration: int, id: int) returns (dt: Downtime)
      requires Registry(w.all, w.items, downtimes) && item in w.items && id !in downtimes
      modifies `downtimes, item`downtimes
      ensures fresh(dt) && dt.id == id && dt.ref == item && dt.rank == w.top && dt.triggerId == triggerId
      ensures dt.Asked(startTime, endTime, fixed, duration) && !dt.isInEffect && !dt.canBeDeleted && dt.activateMe == []
      ensures downtimes == old(downtimes)[id := dt] && item.downtimes == old(item.downtimes) + [dt]
      ensures Registry(w.all + {dt}, w.items, downtimes)
      ensures Registered(w.all + {dt}, downtimes) == old(Registered(w.all, downtimes)) + {dt}
      ensures InEffect(w.all) == old(InEffect(w.all))
      ensures id != triggerId ==> TriggerOf(triggerId) == old(TriggerOf(triggerId))
    {
      dt := new Downtime(id, item, startTime, endTime, fixed, triggerId, duration, w.top);
      Register(item, dt, w.all, w.items);
      assert Registered(w.all + {dt}, downtimes) == old(Registered(w.all, downtimes)) + {dt};
    }

    /** Links a new downtime below its trigger, if it has a registered one. */
    method LinkTrigger(dt: Downtime, triggerId: int, ghost reg: set<Downtime>, ghost e: set<Downtime>) returns (ghost p: Downtime?)
      requires Placed(dt, reg, e) && Reflects(w) && dt.activateMe == [] && dt.triggerId == triggerId && triggerId != dt.id
      modifies w.all`activateMe
      ensures p == TriggerOf(triggerId) && Adoptable(dt, p, reg, e)
    {
      p := null;
      if triggerId != 0 && triggerId in downtimes {
        p := downtimes[triggerId];
        downtimes[triggerId].TriggerMe(dt);
      }
    }

    lemma AdoptFacts(dt: Downtime, p: Downtime?, reg: set<Downtime>, e: set<Downtime>) returns (v: World)
      requires Adoptable(dt, p, reg, e)
      ensures v == Created(w, dt, p) && Reflects(v) && AllBalanced(v.all, v.items)
      ensures Registry(v.all, v.items, downtimes) && Quiet(v, Registered(v.all, downtimes), InEffect(v.all))
      ensures InEffect(v.all) == e && Registered(v.all, downtimes) == reg + {dt}
    {
      CreatedBalance(w, dt);
      CreatedLinked(w, dt, p);
      v := Created(w, dt, p);
      CreatedStaysQuiet(w, dt, p, reg, e, Registered(v.all, downtimes));
    }

    ghost method SetWorld(v: World)
      requires Reflects(v) && AllBalanced(v.all, v.items)
      requires Registry(v.all, v.items, downtimes) && Quiet(v, Registered(v.all, downtimes), InEffect(v.all))
      modifies `w
      ensures Valid() && w == v
    {
      w := v;
    }

    /** The bookkeeping of a creation, once the objects are in place. */
    ghost method Adopt(dt: Downtime, p: Downtime?, reg: set<Downtime>, e: set<Downtime>)
      requires Adoptable(dt, p, reg, e)
      modifies `w
      ensures Valid() && w == Created(old(w), dt, p)
      ensures InEffect(w.all) == e && Registered(w.all, downtimes) == reg + {dt}
    {
      var v := AdoptFacts(dt, p, reg, e);
      SetWorld(v);
    }

    ghost function TriggerOf(triggerId: int): Downtime?
      reads this
    {
      if triggerId != 0 && triggerId in downtimes then downtimes[triggerId] else null
    }

    /** Schedules a downtime on an item, to be triggered by another one if `triggerId`
        names a registered downtime.  `id` is fresh. */
    method ScheduleDowntime(item: Item, startTime: int, endTime: int, fixed: bool, triggerId: int,
                            duration: int, id: int) returns (dt: Downtime)
      requires Valid() && item in w.items && id !in downtimes && id != triggerId
      modifies this, item`downtimes, w.all`activateMe
      ensures Valid() && fresh(dt) && dt.id == id && dt.ref == item && dt.triggerId == triggerId
      ensures dt.Asked(startTime, endTime, fixed, duration) && !dt.isInEffect && !dt.canBeDeleted
      ensures w == Created(old(w), dt, old(TriggerOf(triggerId)))
      ensures downtimes == old(downtimes)[id := dt] && item.downtimes == old(item.downtimes) + [dt]
      ensures DepthListed(w.items) <==> old(DepthListed(w.items))
    {
      ghost var reg, e := Registered(w.all, downtimes), InEffect(w.all);
      DepthAgrees();
      dt := Schedule(item, startTime, endTime, fixed, triggerId, duration, id);
      DepthAgrees();
    }

    method Schedule(item: Item, startTime: int, endTime: int, fixed: bool, triggerId: int,
                    duration: int, id: int) returns (dt: Downtime)
      requires Valid() && item in w.items && id !in downtimes && id != triggerId
      modifies this, item`downtimes, w.all`activateMe
      ensures Valid() && fresh(dt) && dt.id == id && dt.ref == item && dt.triggerId == triggerId
      ensures dt.Asked(startTime, endTime, fixed, duration) && !dt.isInEffect && !dt.canBeDeleted
      ensures w == Created(old(w), dt, old(TriggerOf(triggerId)))
      ensures downtimes == old(downtimes)[id := dt] && item.downtimes == old(item.downtimes) + [dt]
      ensures InEffect(w.all) == old(InEffect(w.all)) && Registered(w.all, downtimes) == old(Registered(w.all, downtimes)) + {dt}
    {
      ghost var p;
      ghost var reg, e := Registered(w.all, downtimes), InEffect(w.all);
      dt, p := CreateLinked(item, startTime, endTime, fixed, triggerId, duration, id);
      Adopt(dt, p, reg, e);
    }

    /** The objects of a creation. */
    method CreateLinked(item: Item, startTime: int, endTime: int, fixed: bool, triggerId: int, duration: int, id: int)
      returns (dt: Downtime, ghost p: Downtime?)
      requires Valid() && item in w.items && id !in downtimes && id != triggerId
      modifies `downtimes, item`downtimes, w.all`activateMe
      ensures fresh(dt) && dt.id == id && dt.ref == item && dt.triggerId == triggerId
      ensures dt.Asked(startTime, endTime, fixed, duration) && !dt.canBeDeleted
      ensures p == old(TriggerOf(triggerId)) && Adoptable(dt, p, old(Registered(w.all, downtimes)), old(InEffect(w.all)))
      ensures downtimes == old(downtimes)[id := dt] && item.downtimes == old(item.downtimes) + [dt]
    {
      ghost var reg, e := Registered(w.all, downtimes), InEffect(w.all);
      dt := CreatePlaced(item, startTime, endTime, fixed, triggerId, duration, id, reg, e);
      p := LinkTrigger(dt, triggerId, reg, e);
    }

    method CreatePlaced(item: Item, startTime: int, endTime: int, fixed: bool, triggerId: int, duration: int, id: int,
                        ghost reg: set<Downtime>, ghost e: set<Downtime>) returns (dt: Downtime)
      requires Valid() && item in w.items && id !in downtimes && reg == Registered(w.all, downtimes) && e == InEffect(w.all)
      modifies `downtimes, item`downtimes
      ensures fresh(dt) && dt.id == id && dt.ref == item && dt.triggerId == triggerId && dt.activateMe == [] && Reflects(w)
      ensures dt.Asked(startTime, endTime, fixed, duration) && !dt.canBeDeleted && Placed(dt, reg, e)
      ensures downtimes == old(downtimes)[id := dt] && item.downtimes == old(item.downtimes) + [dt]
    {
      dt := CreateDowntime(item, startTime, endTime, fixed, triggerId, duration, id);
    }

    /** Objects are in place for the creation of `dt`, which `p` triggers. */
    ghost predicate Adoptable(dt: Downtime, p: Downtime?, reg: set<Downtime>, e: set<Downtime>)
      reads this, w.all, w.items, dt
    {
      Placed(dt, reg, e) && Fits(w, dt, p) && Reflects(Created(w, dt, p))
    }

    /** The new downtime `dt` is registered; `reg` and `e` were registered and in effect. */
    ghost predicate Placed(dt: Downtime, reg: set<Downtime>, e: set<Downtime>)
      reads this`downtimes, this`w, w.items`downtimes, w.all`isInEffect, w.items`scheduledDowntimeDepth, w.items`inScheduledDowntime,
            dt`isInEffect
    {
      && dt !in w.all && Fits(w, dt, null)
      && !dt.isInEffect && AllBalanced(w.all, w.items) && InEffect(w.all) == e && Registry(w.all + {dt}, w.items, downtimes)
      && reg <= w.all && Quiet(w, reg, e) && Registered(w.all + {dt}, downtimes) == reg + {dt}
    }

    /** The registered downtimes not marked for deletion. */
    ghost function Live(): set<Downtime>
      reads this, w.all
    {
      Registered(w.all, downtimes) - Deletable(w.all)
    }

    /** One turn of the start-and-stop loop. */
    method StartOrStop(dt: Downtime, now: int)
      requires Core() && Quiet(w, Live(), InEffect(w.all)) && dt in Registered(w.all, downtimes)
      modifies w.all`isInEffect, Flexible(w.all)`realEndTime, w.all`canBeDeleted, w.items`scheduledDowntimeDepth,
               w.items`inScheduledDowntime, w.items`inScheduledDowntimeDuringLastCheck
      ensures Core() && Quiet(w, Live(), InEffect(w.all))
      ensures StatusesOf(w.all) == Turned(w, old(StatusesOf(w.all)), dt, now)
    {
      if dt.realEndTime < now {
        Stop(dt);
      } else if now >= dt.startTime && dt.fixed && !dt.isInEffect && !dt.canBeDeleted {
        Begin(dt, now);
      }
    }

    method Begin(dt: Downtime, now: int)
      requires Core() && Quiet(w, Live(), InEffect(w.all)) && dt in Live() && Starts(dt, StatusOf(dt), now)
      modifies w.all`isInEffect, Flexible(w.all)`realEndTime, w.items`scheduledDowntimeDepth, w.items`inScheduledDowntime
      ensures Core() && Quiet(w, Live(), InEffect(w.all))
      ensures StatusesOf(w.all) == Turned(w, old(StatusesOf(w.all)), dt, now)
    {
      TurnedStarts(w, StatusesOf(w.all), dt, now);
      Start(dt, now, Live());
      assert Deletable(w.all) == old(Deletable(w.all));
    }

    method Stop(dt: Downtime)
      requires Core() && Quiet(w, Live(), InEffect(w.all)) && dt in Registered(w.all, downtimes)
      modifies w.all`isInEffect, w.all`canBeDeleted, w.items`scheduledDowntimeDepth,
               w.items`inScheduledDowntime, w.items`inScheduledDowntimeDuringLastCheck
      ensures Core() && Quiet(w, Live(), InEffect(w.all))
      ensures StatusesOf(w.all) == old(StatusesOf(w.all))[dt := Status(false, true, dt.realEndTime)]
    {
      ghost var live := Live();
      QuietExit(w, live, InEffect(w.all), dt);
      dt.Exit(w.all, w.items);
      assert Live() == live - {dt};
    }

    /** Enters a root of the trigger forest that is out of effect. */
    method Start(dt: Downtime, now: int, ghost reg: set<Downtime>)
      requires Core() && reg <= w.all && Quiet(w, reg, InEffect(w.all)) && dt in reg
      requires !dt.isInEffect && dt.triggerId == 0
      modifies w.all`isInEffect, Flexible(w.all)`realEndTime, w.items`scheduledDowntimeDepth, w.items`inScheduledDowntime
      ensures Core() && Quiet(w, reg, InEffect(w.all)) && dt.isInEffect
      ensures InEffect(w.all) == old(InEffect(w.all)) + Below(w, dt)
      ensures StatusesOf(w.all) == Entering(old(StatusesOf(w.all)), Below(w, dt), now)
    {
      QuietEnter(w, reg, InEffect(w.all), dt);
      assert dt !in InEffect(w.all);
      EnterAll(dt, now);
      assert dt in Below(w, dt);
    }

    method EnterAll(dt: Downtime, now: int)
      requires dt in w.all && Reflects(w) && Below(w, dt) !! InEffect(w.all) && AllBalanced(w.all, w.items)
      modifies w.all`isInEffect, Flexible(w.all)`realEndTime, w.items`scheduledDowntimeDepth, w.items`inScheduledDowntime
      ensures InEffect(w.all) == old(InEffect(w.all)) + Below(w, dt) && AllBalanced(w.all, w.items)
      ensures StatusesOf(w.all) == Entering(old(StatusesOf(w.all)), Below(w, dt), now)
    {
      dt.Enter(now, w);
      forall d | d in w.all
        ensures StatusOf(d) == if d in Below(w, dt) then Begun(d, old(StatusOf(d)), now) else old(StatusOf(d))
      {
        assert d.isInEffect <==> d in InEffect(w.all);
        assert old(d.isInEffect) <==> d in old(InEffect(w.all));
      }
    }

    /** Takes a downtime out of the registry and out of its item's list. */
    method Unregister(id: int)
      requires Registry(w.all, w.items, downtimes) && id in downtimes && downtimes[id].ref in w.items
      modifies `downtimes, w.all`canBeDeleted, w.items`downtimes
      ensures Registry(w.all, w.items, downtimes) && downtimes == old(downtimes) - {id}
      ensures forall d :: d in w.all && d != old(downtimes[id]) ==> d.canBeDeleted == old(d.canBeDeleted)
      ensures old(downtimes[id].canBeDeleted) ==> old(downtimes[id]).canBeDeleted
    {
      var item := downtimes[id].ref;
      OnList(w.all, w.items, downtimes, item);
      forall d | d in item.downtimes ensures d in w.all {
        assert downtimes[d.id] == d;
      }
      item.DelDowntime(id);
      LedgerDrop(w.all, old(ListsOf(w.items)), downtimes, id, item.downtimes);
      downtimes := downtimes - {id};
      assert ListsOf(w.items) == old(ListsOf(w.items))[item := item.downtimes];
    }

    /** The pass that is about to be made. */
    ghost function Plan(order: seq<int>, now: int): Pass
      reads this, w.all
    {
      Pass(w, StatusesOf(w.all), downtimes, order, now)
    }

    /** The registered fixed downtimes that have to start: out of effect, not marked, between
        start and end. */
    ghost function Starting(now: int): (s: set<Downtime>)
      reads this, w.all
      ensures forall r :: r in s ==>
                && r.id in downtimes && downtimes[r.id] == r && r.fixed && r.startTime <= now <= r.realEndTime
                && !r.isInEffect && !r.canBeDeleted
    {
      StartingOf(w.all, StatusesOf(w.all), downtimes, now)
    }

    /** The pass has been made: each downtime has its outcome, those marked have been dropped,
        and depths agree with the items' lists exactly if all endured. */
    ghost predicate Passed(p: Pass)
      reads this, w.all, w.items, ListedOn(w.items)
    {
      && p.Proper() && p.w == w && (forall d :: d in w.all ==> StatusOf(d) == p.Outcome(d))
      && downtimes == Unmarked(p.reg, Deletable(w.all)) && (DepthListed(w.items) <==> p.AllEndure())
    }

    /** A pass over all downtimes in the order of the dictionary: the expired ones end, the
        fixed ones whose time has come start with all they trigger, and those marked for
        deletion are dropped. */
    method UpdateDowntimes(order: seq<int>, now: int)
      requires Valid() && ListsKeys(order, downtimes)
      modifies `downtimes, w.all, w.items
      ensures Valid() && w == old(w)
      ensures Passed(old(Plan(order, now)))
      ensures forall d :: d in old(w.all) && old(d.id in downtimes && downtimes[d.id] == d) ==>
                d.fixed && !old(d.canBeDeleted) && d.startTime <= now <= old(d.realEndTime) ==> d.isInEffect
      ensures forall d :: d in old(w.all) && d.isInEffect && !old(d.isInEffect) ==>
                exists r :: r in old(Starting(now)) && Under(w.parent, d, r)
      ensures forall d :: d in old(w.all) && old(d.id in downtimes && downtimes[d.id] == d) && old(d.realEndTime) < now ==>
                !(d.isInEffect || d.id in downtimes) || exists r :: r in old(Starting(now)) && Under(w.parent, d, r)
    {
      ghost var p, starting := Plan(order, now), Starting(now);
      PlanProper(order, now);
      UpdateAll(order, now);
      PassMeans(p, starting);
      forall d | d in w.all
        ensures p.start[d] == old(StatusOf(d)) && (p.Registers(d) <==> old(d.id in downtimes && downtimes[d.id] == d))
      {
      }
    }

    /** The same of the statuses before the pass. */
    lemma PassMeans(p: Pass, starting: set<Downtime>)
      requires Passed(p) && starting == StartingOf(p.w.all, p.start, p.reg, p.now)
      ensures forall d :: d in w.all && p.Registers(d) && d.fixed && !p.start[d].marked && d.startTime <= p.now <= p.start[d].end ==>
                            d.isInEffect
      ensures forall d :: d in w.all && d.isInEffect && !p.start[d].eff ==> exists r :: r in starting && Under(w.parent, d, r)
      ensures forall d :: d in w.all && p.Registers(d) && p.start[d].end < p.now ==>
                            !(d.isInEffect || d.id in downtimes) || exists r :: r in starting && Under(w.parent, d, r)
    {
      forall d | d in w.all
        ensures p.Registers(d) && d.fixed && !p.start[d].marked && d.startTime <= p.now <= p.start[d].end ==> d.isInEffect
        ensures d.isInEffect && !p.start[d].eff ==> exists r :: r in starting && Under(w.parent, d, r)
        ensures p.Registers(d) && p.start[d].end < p.now ==>
                  !(d.isInEffect || d.id in downtimes) || exists r :: r in starting && Under(w.parent, d, r)
      {
        assert StatusOf(d) == p.Outcome(d) && (d.canBeDeleted <==> d in Deletable(w.all));
        OutcomeMeans(p, d);
        if r :| r in w.all && StartsOver(p, r, d) {
          assert r in starting;
        }
      }
    }

    method UpdateAll(order: seq<int>, now: int)
      requires Valid() && ListsKeys(order, downtimes)
      modifies `downtimes, w.all, w.items
      ensures Valid() && w == old(w)
      ensures Passed(old(Plan(order, now)))
    {
      ghost var p := Plan(order, now);
      assert Live() <= Registered(w.all, downtimes);
      PlanProper(order, now);
      ghost var h := StartAndStopAll(order, now, p);
      DropMarked(order);
      PassDone(p, h);
    }

    lemma PlanProper(order: seq<int>, now: int)
      requires Registry(w.all, w.items, downtimes) && ListsKeys(order, downtimes)
      ensures Plan(order, now).Proper() && Plan(order, now).Run([StatusesOf(w.all)])
    {
    }

    lemma PassDone(p: Pass, h: seq<Statuses>)
      requires Core() && p.Proper() && p.w == w && p.Run(h) && |h| == |p.order| + 1 && StatusesOf(w.all) == h[|p.order|]
      requires downtimes == Without(p.reg, p.order, |p.order|, Deletable(w.all))
      ensures forall d :: d in w.all ==> StatusOf(d) == p.Outcome(d)
      ensures downtimes == Unmarked(p.reg, Deletable(w.all))
      ensures DepthListed(w.items) <==> p.AllEndure()
    {
      forall d | d in w.all ensures StatusOf(d) == p.Outcome(d) {
        PassOutcome(p, h, d);
        assert StatusesOf(w.all)[d] == StatusOf(d);
      }
      assert p.order[..|p.order|] == p.order;
      UnmarkedOf(p.reg, downtimes, Deletable(w.all));
      DepthAgrees();
      KeptExactly(p);
    }

    lemma KeptExactly(p: Pass)
      requires p.Proper() && p.w == w && forall d :: d in w.all ==> StatusOf(d) == p.Outcome(d)
      requires downtimes == Without(p.reg, p.order, |p.order|, Deletable(w.all))
      ensures Kept() <==> p.AllEndure()
    {
      forall d | d in w.all
        ensures p.Endures(d) <==> (d in InEffect(w.all) ==> d in Registered(w.all, downtimes))
      {
        EnduresExactly(p, d);
        assert StatusOf(d) == p.Outcome(d);
        assert p.order[..|p.order|] == p.order;
      }
    }

    /** The pass has come to turn `n`. */
    ghost predicate Reached(p: Pass, h: seq<Statuses>, n: nat)
      reads this, w.all, w.items
    {
      && p.Proper() && p.Run(h) && |h| == n + 1 && p.w == w && p.reg == downtimes
      && Core() && Quiet(w, Live(), InEffect(w.all)) && StatusesOf(w.all) == h[n]
    }

    method StartAndStopAll(order: seq<int>, now: int, ghost p: Pass) returns (ghost h: seq<Statuses>)
      requires p.order == order && p.now == now && Reached(p, [p.start], 0)
      modifies w.all`isInEffect, Flexible(w.all)`realEndTime, w.all`canBeDeleted, w.items`scheduledDowntimeDepth,
               w.items`inScheduledDowntime, w.items`inScheduledDowntimeDuringLastCheck
      ensures Reached(p, h, |order|)
    {
      h := [p.start];
      for i := 0 to |order|
        invariant Reached(p, h, i)
      {
        h := NextOf(order[i], now, p, h, i);
      }
    }

    method NextOf(id: int, now: int, ghost p: Pass, ghost h: seq<Statuses>, ghost i: nat) returns (ghost h': seq<Statuses>)
      requires i < |p.order| && id == p.order[i] && p.now == now && Reached(p, h, i)
      modifies w.all`isInEffect, Flexible(w.all)`realEndTime, w.all`canBeDeleted, w.items`scheduledDowntimeDepth,
               w.items`inScheduledDowntime, w.items`inScheduledDowntimeDuringLastCheck
      ensures Reached(p, h', i + 1)
    {
      assert downtimes[id] in Registered(w.all, downtimes);
      StartOrStop(downtimes[id], now);
      RunMore(p, h, StatusesOf(w.all));
      h' := h + [StatusesOf(w.all)];
    }

    method DropMarked(order: seq<int>)
      requires Core() && Quiet(w, Live(), InEffect(w.all)) && ListsKeys(order, downtimes)
      modifies `downtimes, w.all`canBeDeleted, w.items`downtimes
      ensures Valid() && StatusesOf(w.all) == old(StatusesOf(w.all))
      ensures downtimes == Without(old(downtimes), order, |order|, Deletable(w.all))
    {
      ghost var e := InEffect(w.all);
      DeleteMarked(order, Deletable(w.all));
      forall d | d in w.all ensures StatusOf(d) == old(StatusOf(d)) {
        assert d.canBeDeleted <==> d in Deletable(w.all);
      }
      assert InEffect(w.all) == e;
      OnlyLive(old(downtimes), order);
    }

    lemma OnlyLive(was: map<int, Downtime>, order: seq<int>)
      requires ListsKeys(order, was) && downtimes == Without(was, order, |order|, Deletable(w.all))
      ensures Registered(w.all, downtimes) == Registered(w.all, was) - Deletable(w.all)
    {
      assert order[..|order|] == order;
    }

    /** A loop over the same list that drops the downtimes `marked`. */
    method DeleteMarked(order: seq<int>, ghost marked: set<Downtime>)
      requires Registry(w.all, w.items, downtimes) && Deletable(w.all) == marked && ListsKeys(order, downtimes)
      modifies `downtimes, w.all`canBeDeleted, w.items`downtimes
      ensures Registry(w.all, w.items, downtimes) && Deletable(w.all) == marked
      ensures downtimes == Without(old(downtimes), order, |order|, marked)
    {
      for i := 0 to |order|
        invariant Registry(w.all, w.items, downtimes) && Deletable(w.all) == marked
        invariant downtimes == Without(old(downtimes), order, i, marked)
      {
        WithoutNext(old(downtimes), order, i, marked);
        DeleteIfMarked(order[i], marked);
      }
    }

    method DeleteIfMarked(id: int, ghost marked: set<Downtime>)
      requires Registry(w.all, w.items, downtimes) && Deletable(w.all) == marked && id in downtimes
      modifies `downtimes, w.all`canBeDeleted, w.items`downtimes
      ensures Registry(w.all, w.items, downtimes) && Deletable(w.all) == marked
      ensures downtimes == if old(downtimes[id]) in marked then old(downtimes) - {id} else old(downtimes)
    {
      if downtimes[id].canBeDeleted {
        Unregister(id);
      }
    }

    /** Nothing that is in effect has been dropped. */
    ghost predicate Kept()
      reads this, w.all
    {
      InEffect(w.all) <= Registered(w.all, downtimes)
    }

    /** What is in effect on an item's list is what is in effect and registered. */
    lemma ListedExactly(i: Item)
      requires Registry(w.all, w.items, downtimes) && i in w.items
      ensures InEffectOf(i) == OnItem(InEffect(w.all) * Registered(w.all, downtimes), i)
    {
      OnList(w.all, w.items, downtimes, i);
      forall d | d in i.downtimes ensures d in Registered(w.all, downtimes) {
        assert downtimes[d.id] == d;
      }
    }

    /** The depths agree with the items' own lists exactly if nothing in effect was dropped. */
    lemma DepthAgrees()
      requires Core()
      ensures DepthListed(w.items) <==> Kept()
    {
      var reg := Registered(w.all, downtimes);
      forall i | i in w.items
        ensures i.scheduledDowntimeDepth == ListedDepth(i) <==> OnItem(InEffect(w.all), i) <= reg
      {
        ListedExactly(i);
        assert Balanced(w.all, i);
        SubsetSize(InEffectOf(i), OnItem(InEffect(w.all), i));
      }
      forall d | d in InEffect(w.all) ensures d in OnItem(InEffect(w.all), d.ref) && d.ref in w.items {
      }
    }

    /** While nothing in effect has been dropped, depths agree with the lists exactly if no
        item has a surplus. */
    lemma KeptDepth()
      requires Registry(w.all, w.items, downtimes) && Kept()
      ensures DepthListed(w.items) <==> Surpluses(w.all, w.items) == map i | i in w.items :: 0
    {
      forall i | i in w.items ensures i.scheduledDowntimeDepth == ListedDepth(i) <==> Surplus(w.all, i) == 0 {
        ListedExactly(i);
        assert InEffect(w.all) * Registered(w.all, downtimes) == InEffect(w.all);
      }
      var none := map i | i in w.items :: 0;
      assert forall i :: i in w.items ==> Surpluses(w.all, w.items)[i] == Surplus(w.all, i) && none[i] == 0;
    }

    /** A non-ok state of an item starts exactly its flexible downtimes that are due and not
        triggered by others, with everything they trigger, from now on. The depths then agree
        with the lists exactly if they did and nothing dropped is started. */
    method CheckForFlexibleDowntime(item: Item, lastChk: int, stateId: int, now: int)
      requires Valid() && item in w.items
      modifies w.all`isInEffect, Flexible(w.all)`realEndTime, w.items`scheduledDowntimeDepth, w.items`inScheduledDowntime
      ensures Valid()
      ensures var woken := Woken(w, item.downtimes, |item.downtimes|, lastChk, stateId, old(InEffect(w.all)));
              && StatusesOf(w.all) == Entering(old(StatusesOf(w.all)), woken, now)
              && (DepthListed(w.items) <==> old(DepthListed(w.items)) && woken <= Registered(w.all, downtimes))
      ensures forall d :: d in w.all ==>
                (d.isInEffect <==> old(d.isInEffect) || exists k ::
                                     && 0 <= k < |item.downtimes| && !item.downtimes[k].fixed && item.downtimes[k].triggerId == 0
                                     && item.downtimes[k].startTime <= lastChk && stateId != 0 && !old(item.downtimes[k].isInEffect)
                                     && Under(w.parent, d, item.downtimes[k]))
      ensures forall d :: d in w.all && d.isInEffect && !old(d.isInEffect) && !d.fixed ==> d.realEndTime == now + d.duration
    {
      ghost var e, s := InEffect(w.all), StatusesOf(w.all);
      WakeListed(item, lastChk, stateId, now, e, s);
      WokenMeans(item.downtimes, lastChk, stateId, now, e, s);
      OnList(w.all, w.items, downtimes, item);
      forall k | 0 <= k < |item.downtimes| ensures item.downtimes[k] in e <==> old(item.downtimes[k].isInEffect) {
        assert item.downtimes[k] in item.downtimes && downtimes[item.downtimes[k].id] == item.downtimes[k];
      }
    }

    method WakeListed(item: Item, lastChk: int, stateId: int, now: int, ghost e: set<Downtime>, ghost s: Statuses)
      requires Valid() && item in w.items && e == InEffect(w.all) && s == StatusesOf(w.all)
      modifies w.all`isInEffect, Flexible(w.all)`realEndTime, w.items`scheduledDowntimeDepth, w.items`inScheduledDowntime
      ensures Valid() && Wakened(Woken(w, item.downtimes, |item.downtimes|, lastChk, stateId, e), now, e, s)
      ensures var woken := Woken(w, item.downtimes, |item.downtimes|, lastChk, stateId, e);
              DepthListed(w.items) <==> old(DepthListed(w.items)) && woken <= Registered(w.all, downtimes)
    {
      DepthAgrees();
      WakeAll(item, lastChk, stateId, now, e, s);
      DepthAgrees();
    }

    lemma WokenMeans(ds: seq<Downtime>, lastChk: int, stateId: int, now: int, e: set<Downtime>, s: Statuses)
      requires Wakened(Woken(w, ds, |ds|, lastChk, stateId, e), now, e, s)
      ensures forall d :: d in w.all ==> (d.isInEffect <==> d in e || IsWoken(w, ds, lastChk, stateId, e, d))
      ensures forall d :: d in w.all && !d.fixed && IsWoken(w, ds, lastChk, stateId, e, d) ==> d.realEndTime == now + d.duration
    {
      forall d | d in w.all
        ensures d.isInEffect <==> d in e || IsWoken(w, ds, lastChk, stateId, e, d)
        ensures !d.fixed && IsWoken(w, ds, lastChk, stateId, e, d) ==> d.realEndTime == now + d.duration
      {
        var woken := Woken(w, ds, |ds|, lastChk, stateId, e);
        WokenIff(w, ds, |ds|, lastChk, stateId, e, d);
        assert d.isInEffect <==> d in InEffect(w.all);
        assert d in StatusesOf(w.all) && d in Entering(s, woken, now) && StatusOf(d) == Entering(s, woken, now)[d];
        if !d.fixed && d in woken {
          assert StatusOf(d) == Begun(d, s[d], now);
        }
      }
    }

    method WakeAll(item: Item, lastChk: int, stateId: int, now: int, ghost e: set<Downtime>, ghost s: Statuses)
      requires Valid() && item in w.items && e == InEffect(w.all) && s == StatusesOf(w.all)
      modifies w.all`isInEffect, Flexible(w.all)`realEndTime, w.items`scheduledDowntimeDepth, w.items`inScheduledDowntime
      ensures Valid()
      ensures Wakened(Woken(w, item.downtimes, |item.downtimes|, lastChk, stateId, e), now, e, s)
    {
      for i := 0 to |item.downtimes|
        invariant Valid() && Wakened(Woken(w, item.downtimes, i, lastChk, stateId, e), now, e, s)
      {
        WakeNext(item, i, lastChk, stateId, now, e, s);
      }
    }

    method WakeNext(item: Item, i: nat, lastChk: int, stateId: int, now: int, ghost e: set<Downtime>, ghost s: Statuses)
      requires Valid() && item in w.items && i < |item.downtimes|
      requires Wakened(Woken(w, item.downtimes, i, lastChk, stateId, e), now, e, s)
      modifies w.all`isInEffect, Flexible(w.all)`realEndTime, w.items`scheduledDowntimeDepth, w.items`inScheduledDowntime
      ensures Valid() && Wakened(Woken(w, item.downtimes, i + 1, lastChk, stateId, e), now, e, s)
    {
      var dt := item.downtimes[i];
      OnList(w.all, w.items, downtimes, item);
      assert dt in item.downtimes && downtimes[dt.id] == dt;
      WokenApart(w, item.downtimes, i, lastChk, stateId, e, dt);
      Wake(dt, lastChk, stateId, now, Woken(w, item.downtimes, i, lastChk, stateId, e), e, s);
    }

    /** The downtimes `woken` have been entered since the state `s` with `e` in effect, and
        nothing else happened. */
    ghost predicate Wakened(woken: set<Downtime>, now: int, e: set<Downtime>, s: Statuses)
      reads this`w, w.all`isInEffect, w.all`canBeDeleted, w.all`realEndTime
    {
      InEffect(w.all) == e + woken && StatusesOf(w.all) == Entering(s, woken, now)
    }

    method Wake(dt: Downtime, lastChk: int, stateId: int, now: int, ghost woken: set<Downtime>, ghost e: set<Downtime>,
                ghost s: Statuses)
      requires Valid() && Wakened(woken, now, e, s) && dt in Registered(w.all, downtimes) && (dt.triggerId == 0 ==> dt !in woken)
      modifies w.all`isInEffect, Flexible(w.all)`realEndTime, w.items`scheduledDowntimeDepth, w.items`inScheduledDowntime
      ensures Valid()
      ensures Wakened(woken + (if Due(dt, lastChk, stateId) && dt !in e then Below(w, dt) else {}), now, e, s)
    {
      assert dt.isInEffect <==> dt in InEffect(w.all);
      if !dt.fixed && !dt.isInEffect && dt.startTime <= lastChk && stateId != 0 && dt.triggerId == 0 {
        StartMore(dt, now, woken, e, s);
      } else {
        assert woken + {} == woken;
      }
    }

    method StartMore(dt: Downtime, now: int, ghost woken: set<Downtime>, ghost e: set<Downtime>, ghost s: Statuses)
      requires Valid() && Wakened(woken, now, e, s) && dt in Registered(w.all, downtimes) && !dt.isInEffect && dt.triggerId == 0
      modifies w.all`isInEffect, Flexible(w.all)`realEndTime, w.items`scheduledDowntimeDepth, w.items`inScheduledDowntime
      ensures Valid() && Wakened(woken + Below(w, dt), now, e, s)
    {
      Start(dt, now, Registered(w.all, downtimes));
      EnteringMore(s, woken, Below(w, dt), now);
    }

    /** The external commands that delete a downtime: it is cancelled with everything it
        triggers.  Afterwards depths and downtimes in effect agree exactly when all of
        that was in effect; depths that agreed with the lists agree again exactly then. */
    method CancelDowntime(id: int)
      requires Valid()
      modifies w.all`isInEffect, w.all`canBeDeleted, w.items`scheduledDowntimeDepth, w.items`inScheduledDowntime,
               w.items`inScheduledDowntimeDuringLastCheck
      ensures id !in downtimes ==> Valid() && InEffect(w.all) == old(InEffect(w.all)) && Deletable(w.all) == old(Deletable(w.all))
      ensures id in downtimes ==> InEffect(w.all) == old(InEffect(w.all)) - Below(w, downtimes[id])
      ensures id in downtimes ==> Deletable(w.all) == old(Deletable(w.all)) + Below(w, downtimes[id])
      ensures id in downtimes ==> (AllBalanced(w.all, w.items) <==> Below(w, downtimes[id]) <= old(InEffect(w.all)))
      ensures id in downtimes ==> (Valid() <==> Below(w, downtimes[id]) <= old(InEffect(w.all)))
      ensures id in downtimes && old(DepthListed(w.items)) ==>
                (DepthListed(w.items) <==> Below(w, downtimes[id]) <= old(InEffect(w.all)))
    {
      if id in downtimes {
        DepthAgrees();
        CancelRegistered(downtimes[id]);
        if Kept() {
          KeptDepth();
        }
      }
    }

    method CancelRegistered(dt: Downtime)
      requires Valid() && dt in w.all
      modifies w.all`isInEffect, w.all`canBeDeleted, w.items`scheduledDowntimeDepth, w.items`inScheduledDowntime,
               w.items`inScheduledDowntimeDuringLastCheck
      ensures InEffect(w.all) == old(InEffect(w.all)) - Below(w, dt)
      ensures Deletable(w.all) == old(Deletable(w.all)) + Below(w, dt)
      ensures AllBalanced(w.all, w.items) <==> Below(w, dt) <= old(InEffect(w.all))
      ensures Surpluses(w.all, w.items) == (map i | i in w.items :: 0) <==> Below(w, dt) <= old(InEffect(w.all))
      ensures Valid() <==> Below(w, dt) <= old(InEffect(w.all))
      ensures Registry(w.all, w.items, downtimes)
    {
      NoSurplus(w.all, w.items);
      QuietCancel(w, Registered(w.all, downtimes), InEffect(w.all), dt);
      dt.Cancel(w);
      if AllBalanced(w.all, w.items) {
        NoSurplus(w.all, w.items);
      }
    }
  }

  // ----- Depths that nothing will lower again -----

  /** A scheduler that knows one item with one flexible downtime, due from `now` on. */
  ghost predicate Alone(sched: Scheduler, item: Item, dt: Downtime, now: int, st: Status)
    reads sched, item, dt, sched.w.all, sched.w.items
  {
    && sched.Valid() && sched.w.all == {dt} && sched.w.parent == map[] && sched.w.items == {item}
    && item.downtimes == [dt] && sched.downtimes == map[dt.id := dt] && StatusOf(dt) == st
    && !dt.fixed && dt.triggerId == 0 && dt.startTime == now && dt.ref == item
  }

  lemma BelowAlone(w: World, dt: Downtime)
    requires w.all == {dt} && w.parent == map[]
    ensures Below(w, dt) == {dt}
  {
  }

  method NewScheduler() returns (sched: Scheduler, item: Item)
    ensures fresh(sched) && fresh(item) && sched.Valid() && sched.w == Links({}, {item}, map[], map[], 0)
    ensures sched.downtimes == map[] && item.downtimes == []
  {
    item := new Item();
    sched := new Scheduler({item});
  }

  method ScheduleAlone(id: int, duration: int, now: int) returns (sched: Scheduler, item: Item, dt: Downtime)
    requires id != 0
    ensures fresh(sched) && fresh(item) && fresh(dt) && dt.id == id && dt.duration == duration
    ensures Alone(sched, item, dt, now, Status(false, false, now))
  {
    sched, item := NewScheduler();
    dt := sched.Schedule(item, now, now, false, 0, duration, id);
  }

  method WakeAlone(sched: Scheduler, item: Item, dt: Downtime, now: int, ghost st: Status)
    requires Alone(sched, item, dt, now, st) && !st.eff
    modifies dt, item
    ensures Alone(sched, item, dt, now, Status(true, st.marked, now + dt.duration))
  {
    BelowAlone(sched.w, dt);
    ghost var s := StatusesOf(sched.w.all);
    assert s[dt] == st && dt !in InEffect(sched.w.all);
    assert Woken(sched.w, [dt], 0, now, 2, InEffect(sched.w.all)) == {};
    assert Woken(sched.w, [dt], 1, now, 2, InEffect(sched.w.all)) == {dt};
    sched.CheckForFlexibleDowntime(item, now, 2, now);
    assert StatusesOf(sched.w.all)[dt] == Begun(dt, st, now);
  }

  method CancelAlone(sched: Scheduler, item: Item, dt: Downtime, now: int, ghost st: Status)
    requires Alone(sched, item, dt, now, st) && st.eff
    modifies dt, item
    ensures Alone(sched, item, dt, now, Status(false, true, st.end))
  {
    BelowAlone(sched.w, dt);
    assert dt in InEffect(sched.w.all);
    sched.CancelDowntime(dt.id);
    assert dt !in InEffect(sched.w.all) && dt in Deletable(sched.w.all);
  }

  method PassAlone(sched: Scheduler, item: Item, dt: Downtime, now: int, ghost st: Status)
    requires Alone(sched, item, dt, now, st) && st.eff && st.marked && now <= st.end
    modifies sched, dt, item
    ensures sched.Valid() && sched.w == old(sched.w) && sched.downtimes == map[] && item.downtimes == []
    ensures item.scheduledDowntimeDepth == 1 && !DepthListed({item})
  {
    ghost var p := sched.Plan([dt.id], now);
    sched.PlanProper([dt.id], now);
    FlexibleOutcome(p, dt);
    sched.UpdateDowntimes([dt.id], now);
    assert StatusOf(dt) == st;
    UnmarkedOf(map[dt.id := dt], map[], Deletable(sched.w.all));
    OnList(sched.w.all, sched.w.items, sched.downtimes, item);
    NothingListed(item.downtimes, item);
    assert Balanced(sched.w.all, item);
    assert OnItem(InEffect(sched.w.all), item) == {dt};
  }

  lemma NothingListed(ds: seq<Downtime>, i: Item)
    requires RegisteredOn(ds, i, map[])
    ensures ds == []
  {
    if ds != [] {
      IsListed(ds, 0);
      assert false;
    }
  }

  lemma IsListed(ds: seq<Downtime>, k: nat)
    requires k < |ds|
    ensures ds[k] in ds
  {
  }

  /** Where all downtimes are flexible, a pass starts none. */
  lemma FlexibleOutcome(p: Pass, d: Downtime)
    requires p.Proper() && d in p.w.all && forall r :: r in p.w.all ==> !r.fixed
    ensures p.Outcome(d) == if p.Registers(d) then OwnTurn(d, p.start[d], p.now) else p.start[d]
  {
    forall k | 0 <= k < |p.order| ensures !p.BeginsAt(k, d) {
      assert p.order[k] in p.reg;
    }
  }

  method CancelAndReenter(sched: Scheduler, item: Item, dt: Downtime, duration: nat, now: int)
    requires Alone(sched, item, dt, now, Status(false, false, now)) && dt.duration == duration
    modifies sched, item, dt
    ensures item.downtimes == [] && item.scheduledDowntimeDepth == 1 && sched.downtimes == map[]
  {
    WakeAlone(sched, item, dt, now, Status(false, false, now));
    CancelAlone(sched, item, dt, now, Status(true, false, now + duration));
    WakeAlone(sched, item, dt, now, Status(false, true, now + duration));
    PassAlone(sched, item, dt, now, Status(true, true, now + duration));
  }

  /** A flexible downtime that is cancelled can be entered again before it is dropped; then
      its item stays in downtime though it lists none. */
  method ReenteredAfterCancel(id: int, duration: nat, now: int) returns (depth: int, listed: nat, known: nat)
    requires id != 0
    ensures depth == 1 && listed == 0 && known == 0
  {
    var sched, item, dt := ScheduleAlone(id, duration, now);
    CancelAndReenter(sched, item, dt, duration, now);
    depth, listed, known := item.scheduledDowntimeDepth, |item.downtimes|, |sched.downtimes|;
  }

  /** A scheduler that knows one item with two flexible downtimes out of effect; `dt`, due
      from `now` on, triggers `more`. */
  ghost predicate Paired(sched: Scheduler, item: Item, dt: Downtime, more: Downtime, now: int)
    reads sched, item, dt, more, sched.w.all, sched.w.items
  {
    && sched.Valid() && sched.w.all == {dt, more} && sched.w.parent == map[more := dt] && sched.w.items == {item}
    && !dt.fixed && dt.triggerId == 0 && dt.startTime == now && dt.ref == item
    && !more.fixed && more.triggerId == dt.id && more.id != dt.id && more.ref == item
    && !dt.isInEffect && !more.isInEffect && !dt.canBeDeleted && dt.realEndTime == now
  }

  lemma BelowPaired(w: World, dt: Downtime, more: Downtime)
    requires w.all == {dt, more} && w.parent == map[more := dt]
    ensures Below(w, dt) == {dt, more}
  {
    assert Under(w.parent, dt, dt) && Under(w.parent, more, dt);
  }

  /** The triggered downtime ends just before the other is due. */
  method ScheduleMore(sched: Scheduler, item: Item, dt: Downtime, other: int, duration: int, now: int) returns (more: Downtime)
    requires Alone(sched, item, dt, now, Status(false, false, now)) && dt.id != 0 && other != dt.id
    modifies sched, item, dt
    ensures fresh(more) && more.id == other && !more.canBeDeleted && more.realEndTime == now - 1
    ensures Paired(sched, item, dt, more, now) && sched.downtimes == map[dt.id := dt, other := more]
  {
    more := sched.Schedule(item, now - 1, now - 1, false, dt.id, duration, other);
    assert sched.w.all == {dt, more} && sched.w.parent == map[more := dt];
  }

  /** The triggered downtime is over before its trigger starts, and dropped. */
  method PassPaired(sched: Scheduler, item: Item, dt: Downtime, more: Downtime, now: int)
    requires Paired(sched, item, dt, more, now) && !more.canBeDeleted && more.realEndTime == now - 1
    requires sched.downtimes == map[dt.id := dt, more.id := more]
    modifies sched, dt, more, item
    ensures Paired(sched, item, dt, more, now) && sched.downtimes == map[dt.id := dt]
  {
    PairedOutcome(sched, item, dt, more, now);
    sched.UpdateDowntimes([dt.id, more.id], now);
    assert StatusOf(dt) == Status(false, false, now) && StatusOf(more) == Status(false, true, now - 1);
    UnmarkedOf(map[dt.id := dt, more.id := more], map[dt.id := dt], Deletable(sched.w.all));
  }

  lemma PairedOutcome(sched: Scheduler, item: Item, dt: Downtime, more: Downtime, now: int)
    requires Paired(sched, item, dt, more, now) && !more.canBeDeleted && more.realEndTime == now - 1
    requires sched.downtimes == map[dt.id := dt, more.id := more]
    ensures ListsKeys([dt.id, more.id], sched.downtimes)
    ensures var p := sched.Plan([dt.id, more.id], now);
            p.Proper() && p.Outcome(dt) == Status(false, false, now) && p.Outcome(more) == Status(false, true, now - 1)
  {
    var p := sched.Plan([dt.id, more.id], now);
    sched.PlanProper([dt.id, more.id], now);
    FlexibleOutcome(p, dt);
    FlexibleOutcome(p, more);
  }

  method WakePaired(sched: Scheduler, item: Item, dt: Downtime, more: Downtime, now: int)
    requires Paired(sched, item, dt, more, now) && sched.downtimes == map[dt.id := dt]
    modifies dt, more, item
    ensures sched.Valid() && item.downtimes == [dt] && item.scheduledDowntimeDepth == 2 && !DepthListed({item})
  {
    OnList(sched.w.all, sched.w.items, sched.downtimes, item);
    assert sched.downtimes[dt.id] == dt;
    OnlyOne(item.downtimes, dt);
    BelowPaired(sched.w, dt, more);
    assert InEffect(sched.w.all) == {};
    assert Woken(sched.w, [dt], 0, now, 2, {}) == {};
    assert Woken(sched.w, [dt], 1, now, 2, {}) == {dt, more};
    sched.CheckForFlexibleDowntime(item, now, 2, now);
    assert StatusesOf(sched.w.all)[dt].eff && StatusesOf(sched.w.all)[more].eff;
    TwoOnItem(sched.w.all, item, dt, more);
    assert Balanced(sched.w.all, item) && more !in Registered(sched.w.all, sched.downtimes);
  }

  lemma TwoOnItem(all: set<Downtime>, item: Item, dt: Downtime, more: Downtime)
    requires all == {dt, more} && dt != more && dt.ref == item && more.ref == item && dt.isInEffect && more.isInEffect
    ensures CountOn(InEffect(all), item) == 2
  {
    assert OnItem(InEffect(all), item) == {dt, more};
  }

  lemma OnlyOne(ds: seq<Downtime>, d: Downtime)
    requires Distinct(ds) && d in ds && forall c :: c in ds ==> c == d
    ensures ds == [d]
  {
    if |ds| > 1 {
      IsListed(ds, 0);
      IsListed(ds, 1);
      assert false;
    }
  }

  method DropAndEnter(sched: Scheduler, item: Item, dt: Downtime, other: int, duration: int, now: int)
    requires Alone(sched, item, dt, now, Status(false, false, now)) && dt.id != 0 && other != dt.id
    modifies sched, item, dt
    ensures item.downtimes == [dt] && item.scheduledDowntimeDepth == 2 && sched.downtimes == map[dt.id := dt]
  {
    var more := ScheduleMore(sched, item, dt, other, duration, now);
    PassPaired(sched, item, dt, more, now);
    WakePaired(sched, item, dt, more, now);
  }

  /** A triggered downtime that is over before its trigger starts is dropped, but its trigger
      still enters it; then its item is one deeper in downtime than its list says. */
  method EnteredAfterDrop(id: int, other: int, duration: int, now: int) returns (depth: int, listed: nat, known: nat)
    requires id != 0 && other != id
    ensures depth == 2 && listed == 1 && known == 1
  {
    var sched, item, dt := ScheduleAlone(id, duration, now);
    DropAndEnter(sched, item, dt, other, duration, now);
    depth, listed, known := item.scheduledDowntimeDepth, |item.downtimes|, |sched.downtimes|;
  }
}
