/** The rounds of `shinken/dispatcher.py`: look who is alive, check what is dispatched,
    dispatch what is not. */
module Dispatchers {
  import opened Options
  import opened Lists
  import opened DispatchOrder
  import opened DispatchLinks
  import opened DispatchSlots

  /** The new knowledge about a satellite, which is the old one if it was not asked. */
  function Heard(report: Option<Report>, before: Report): Report {
    if report.Some? then report.value else before
  }

  // ----- The books of all configurations -----

  /** The books of one configuration, with what they must agree with. */
  datatype Entry = Entry(page: Option<Page>, realm: Realm, id: nat, flavor: nat, holder: Link?) {
    /** Never dispatched. */
    predicate Blank() {
      holder == null && page.None?
    }

    predicate Unflagged() {
      page.Some? ==> forall kind :: !page.value.Of(kind).need
    }

    /** Satellites are told about the scheduler that holds the configuration, and unless
        flagged all that must be were. */
    predicate ToHolder() {
      page.Some? && (holder != null ==> forall kind :: page.value.Of(kind).to == holder && Full(page.value.Of(kind), realm, kind))
    }
  }

  /** A configuration that was never dispatched has no books; otherwise all are in order. */
  ghost predicate EntryBooked(e: Entry, l: Log) {
    e.Blank() || (e.ToHolder() && forall kind :: Booked(e.page.value.Of(kind), e.realm, kind, e.id, e.flavor, l))
  }

  /** No manager of a held configuration is in trouble. */
  ghost predicate EntryHealthy(e: Entry, told: Told) {
    e.page.Some? && (e.holder != null ==> forall kind :: Healthy(e.page.value.Of(kind), e.id, e.flavor, told))
  }

  /** What holds before satellites are sent a configuration. */
  ghost predicate EntryCleared(e: Entry, l: Log, told: Told) {
    || e.Blank()
    || (e.ToHolder() && EntryHealthy(e, told) && forall kind :: Cleared(e.page.value.Of(kind), e.realm, kind, e.id, e.flavor, l))
  }

  /** What holds afterwards. */
  ghost predicate EntrySent(e: Entry, l: Log, told: Told, accepts: Accepts) {
    && e.ToHolder() && EntryHealthy(e, told)
    && (forall kind :: Booked(e.page.value.Of(kind), e.realm, kind, e.id, e.flavor, l))
    && (forall kind :: Asked(e.page.value.Of(kind), e.realm, kind, e.id, told, accepts))
  }

  /** An unassigned configuration, or flavor 0, asks less of the books. */
  predicate Weaker(e: Entry, f: Entry) {
    && f.page == e.page && f.realm == e.realm && f.id == e.id
    && (f.flavor == 0 || f.flavor == e.flavor) && (f.holder == null || f.holder == e.holder)
  }

  lemma BookedWeaker(e: Entry, f: Entry, l: Log)
    requires EntryBooked(e, l) && Weaker(e, f)
    ensures EntryBooked(f, l)
  {
    if !e.Blank() {
      forall kind ensures Booked(f.page.value.Of(kind), f.realm, kind, f.id, f.flavor, l) {
        assert Booked(e.page.value.Of(kind), e.realm, kind, e.id, e.flavor, l);
      }
    }
  }

  /** Enough satellites manage the configuration, and none of them is in trouble. */
  ghost predicate Served(row: Row, r: Realm, kind: Kind, id: nat, flavor: nat, told: Told) {
    !row.need && |row.managers| == r.MustHave(kind) && Healthy(row, id, flavor, told)
  }

  ghost predicate RowChecked(row: Row, r: Realm, kind: Kind, id: nat, flavor: nat, ok: bool, l: Log, told: Told) {
    && Booked(row, r, kind, id, flavor, l) && Cleared(row, r, kind, id, flavor, l) && Full(row, r, kind)
    && Healthy(row, id, flavor, told) && (ok ==> Served(row, r, kind, id, flavor, told))
  }

  /** The books of a configuration have been checked; if the dispatch is still right, they
      are complete. */
  ghost predicate EntryChecked(e: Entry, ok: bool, l: Log, told: Told) {
    || e.Blank()
    || (e.ToHolder() && forall kind :: RowChecked(e.page.value.Of(kind), e.realm, kind, e.id, e.flavor, ok, l, told))
  }

  predicate PageFine(p: Page, r: Realm, id: nat, flavor: nat, told: Told) {
    forall kind :: FineIn(p.Of(kind).managers, r.MustHave(kind), id, flavor, told)
  }

  /** The books of a configuration, if it has any, are complete and without trouble. */
  predicate EntryFine(e: Entry, told: Told) {
    e.page.Some? ==> PageFine(e.page.value, e.realm, e.id, e.flavor, told)
  }

  predicate EntriesFine(es: map<Conf, Entry>, told: Told) {
    forall c {:trigger es[c]} :: c in es ==> EntryFine(es[c], told)
  }

  /** So are those of the first `n` kinds. */
  predicate PartFine(p: Page, n: nat, r: Realm, id: nat, flavor: nat, told: Told) {
    forall j :: 0 <= j < n && j < |KINDS| ==> FineIn(p.Of(KINDS[j]).managers, r.MustHave(KINDS[j]), id, flavor, told)
  }

  lemma PartFineNext(p: Page, n: nat, r: Realm, id: nat, flavor: nat, told: Told)
    requires n < |KINDS|
    ensures PartFine(p, n + 1, r, id, flavor, told) <==>
            PartFine(p, n, r, id, flavor, told) && FineIn(p.Of(KINDS[n]).managers, r.MustHave(KINDS[n]), id, flavor, told)
  {
  }

  lemma PartFineAll(p: Page, r: Realm, id: nat, flavor: nat, told: Told)
    ensures PartFine(p, |KINDS|, r, id, flavor, told) <==> PageFine(p, r, id, flavor, told)
  {
    if PartFine(p, |KINDS|, r, id, flavor, told) {
      forall kind ensures FineIn(p.Of(kind).managers, r.MustHave(kind), id, flavor, told) {
        var j := KindsCover(kind);
      }
    }
  }

  lemma SamePage(p: Page, kind: Kind, row: Row)
    requires row == p.Of(kind)
    ensures p.With(kind, row) == p
  {
  }

  lemma CheckedBooked(e: Entry, ok: bool, l: Log, told: Told)
    requires EntryChecked(e, ok, l, told)
    ensures EntryBooked(e, l) && EntryCleared(e, l, told) && EntryChecked(e, false, l, told)
  {
    if !e.Blank() {
      forall kind ensures RowChecked(e.page.value.Of(kind), e.realm, kind, e.id, e.flavor, false, l, told) {
        assert RowChecked(e.page.value.Of(kind), e.realm, kind, e.id, e.flavor, ok, l, told);
      }
    }
  }

  /** A dispatch that is right and needs no send leaves nobody to ask. */
  lemma CheckedSent(e: Entry, l: Log, told: Told, accepts: Accepts)
    requires EntryChecked(e, true, l, told) && e.holder != null
    ensures EntrySent(e, l, told, accepts)
  {
    forall kind
      ensures Booked(e.page.value.Of(kind), e.realm, kind, e.id, e.flavor, l)
      ensures Asked(e.page.value.Of(kind), e.realm, kind, e.id, told, accepts)
      ensures Healthy(e.page.value.Of(kind), e.id, e.flavor, told)
    {
      assert RowChecked(e.page.value.Of(kind), e.realm, kind, e.id, e.flavor, true, l, told);
    }
  }

  /** The configurations `lost` of a realm. */
  ghost function LostIn(w: World, r: Realm, lost: set<Conf>): set<Conf> {
    set c | c in w.confs && w.home[c] == r && c in lost
  }

  /** Each candidate of the realm that is alive, and no spare if `regular`, asks for no
      configuration or refuses one that was lost. */
  ghost predicate AllTried(w: World, r: Realm, lost: set<Conf>, accepts: Accepts, regular: bool)
    reads w.scheds`alive, w.scheds`needConf
  {
    forall s :: s in w.scheds && Usable(r, s) && s.alive && (regular ==> !s.spare) ==>
                  !s.needConf || Refuses(s, LostIn(w, r, lost), accepts)
  }

  /** A configuration is left unassigned only after all candidates were tried, and given to
      a spare only after all that are none. `lost` were unassigned before. */
  ghost predicate Exhausted(w: World, r: Realm, lost: set<Conf>, accepts: Accepts)
    reads w.confs`assignedTo, w.scheds`alive, w.scheds`needConf
  {
    && (AllTried(w, r, lost, accepts, false) || forall c :: c in w.confs && w.home[c] == r ==> c.assignedTo != null)
    && (AllTried(w, r, lost, accepts, true) ||
        forall c :: c in LostIn(w, r, lost) && c.assignedTo != null ==> !c.assignedTo.spare)
  }

  ghost predicate AllAssigned(w: World)
    reads w.confs`assignedTo
  {
    forall c :: c in w.confs ==> c.assignedTo != null
  }

  ghost predicate AllExhausted(w: World, lost: set<Conf>, accepts: Accepts)
    reads w.confs`assignedTo, w.scheds`alive, w.scheds`needConf
  {
    forall r {:trigger Exhausted(w, r, lost, accepts)} :: r in w.realms ==> Exhausted(w, r, lost, accepts)
  }

  /** Who holds a configuration, in which flavor. */
  datatype Lease = Lease(holder: Link?, flavor: nat)

  function LeaseOf(c: Conf): Lease
    reads c`assignedTo, c`pushFlavor
  {
    Lease(c.assignedTo, c.pushFlavor)
  }

  /** Who holds a configuration, its flavor and whether it is held rightly. */
  datatype Hold = Hold(holder: Link?, flavor: nat, fit: bool)

  /** What is rightly held stays so; the rest stays as it is or is released. */
  predicate Released(was: Hold, h: Hold) {
    || h == was
    || (!was.fit && h.holder == null && (h.flavor == 0 || h.flavor == was.flavor))
  }

  class Dispatcher {
    const realms: seq<Realm>
    const schedulers: seq<Link>
    const satellites: seq<Link>
    ghost const w: World
    var dispatchOk: bool
    /** All sends of configurations to satellites. */
    ghost var log: Log

    ghost predicate Covers() {
      && realms == w.realms && Distinct(schedulers) && Distinct(satellites)
      && (forall s :: s in schedulers ==> s in w.scheds) && (forall s :: s in w.scheds ==> s in schedulers)
      && (forall s :: s in satellites ==> s in w.sats) && (forall s :: s in w.sats ==> s in satellites)
      && (forall r :: r in realms ==> Staffed(w, r))
    }

    ghost function EntryOf(c: Conf): Entry
      reads c`pushFlavor, c`assignedTo, w.realms`books
      requires c in w.confs
    {
      var r := w.home[c];
      Entry(if c.id in r.books then Some(r.books[c.id]) else None, r, c.id, c.pushFlavor, c.assignedTo)
    }

    ghost predicate AllBooked()
      reads this`log, w.confs`pushFlavor, w.confs`assignedTo, w.realms`books
    {
      forall c {:trigger EntryBooked(EntryOf(c), log)} :: c in w.confs ==> EntryBooked(EntryOf(c), log)
    }

    /** What every round keeps. */
    ghost predicate Steady()
      reads this`log, w.confs, w.scheds`conf, w.scheds`alive, w.scheds`needConf, w.scheds`pushFlavor, w.realms`books
    {
      Linked(w) && Held(w) && AllBooked()
    }

    /** No configuration is assigned and every scheduler asks for one. */
    constructor (ghost w: World, realms: seq<Realm>, schedulers: seq<Link>, satellites: seq<Link>)
      requires realms == w.realms && Distinct(schedulers) && Distinct(satellites) && forall r :: r in realms ==> Staffed(w, r)
      requires (forall s :: s in schedulers ==> s in w.scheds) && (forall s :: s in w.scheds ==> s in schedulers)
      requires (forall s :: s in satellites ==> s in w.sats) && (forall s :: s in w.sats ==> s in satellites)
      requires (forall s :: s in w.scheds ==> s.conf == null) && (forall r :: r in w.realms ==> r.books == map[])
      modifies w.confs`isAssigned, w.confs`assignedTo, w.confs`pushFlavor, w.scheds`needConf
      ensures this.w == w && Covers() && Steady() && !dispatchOk
      ensures forall s :: s in w.scheds ==> s.needConf
    {
      this.w, this.realms, this.schedulers, this.satellites := w, realms, schedulers, satellites;
      dispatchOk, log := false, [];
      new;
      Reset();
    }

    method Reset()
      requires Covers()
      modifies w.confs`isAssigned, w.confs`assignedTo, w.confs`pushFlavor, w.scheds`needConf
      ensures forall c :: c in w.confs ==> c.assignedTo == null && !c.isAssigned
      ensures forall s :: s in w.scheds ==> s.needConf
    {
      for i := 0 to |realms|
        invariant forall c :: c in w.confs && w.home[c] in realms[..i] ==> c.assignedTo == null && !c.isAssigned
      {
        assert realms[..i + 1] == realms[..i] + [realms[i]];
        ResetConfs(realms[i]);
      }
      assert realms[..|realms|] == realms;
      ResetSchedulers();
    }

    method ResetSchedulers()
      requires Covers()
      modifies w.scheds`needConf
      ensures forall s :: s in w.scheds ==> s.needConf
    {
      for i := 0 to |schedulers|
        invariant forall k :: 0 <= k < i ==> schedulers[k].needConf
      {
        schedulers[i].needConf := true;
      }
    }

    method ResetConfs(r: Realm)
      requires r in w.realms
      modifies w.confs`isAssigned, w.confs`assignedTo, w.confs`pushFlavor
      ensures forall c :: c in r.confs ==> !c.isAssigned && c.assignedTo == null && c.pushFlavor == 0
      ensures forall c :: c in w.confs && old(!c.isAssigned && c.assignedTo == null) ==> !c.isAssigned && c.assignedTo == null
    {
      assert HomeOf(w, r);
      for i := 0 to |r.confs|
        invariant forall k :: 0 <= k < i ==> !r.confs[k].isAssigned && r.confs[k].assignedTo == null && r.confs[k].pushFlavor == 0
        invariant forall c :: c in w.confs && old(!c.isAssigned && c.assignedTo == null) ==> !c.isAssigned && c.assignedTo == null
      {
        r.confs[i].isAssigned := false;
        r.confs[i].assignedTo := null;
        r.confs[i].pushFlavor := 0;
      }
    }

    // ----- check_alive -----

    /** update_infos; nothing changes if it is too early to ask. Only schedulers have a
        configuration to lack. */
    method UpdateInfos(elt: Link, report: Option<Report>, isScheduler: bool)
      modifies elt`alive, elt`reachable, elt`managedConfs, elt`needConf
      ensures Known(elt) == Heard(report, old(Known(elt)))
      ensures elt.needConf == (old(elt.needConf) || !elt.alive || (isScheduler && elt.conf == null))
    {
      if report.Some? {
        elt.alive, elt.reachable := report.value.alive, report.value.reachable;
        elt.managedConfs := report.value.managedConfs;
      }
      if !elt.alive || (isScheduler && elt.conf == null) {
        elt.needConf := true;
      }
    }

    method CheckAliveSchedulers(report: Link -> Option<Report>)
      requires Covers()
      modifies w.scheds`alive, w.scheds`reachable, w.scheds`managedConfs, w.scheds`needConf
      ensures forall s :: s in w.scheds ==> (s.needConf <==> old(s.needConf) || !s.alive || s.conf == null)
      ensures forall s :: s in w.scheds ==> Known(s) == Heard(report(s), old(Known(s)))
    {
      for i := 0 to |schedulers|
        invariant forall k :: i <= k < |schedulers| ==>
                    schedulers[k].needConf == old(schedulers[k].needConf) && Known(schedulers[k]) == old(Known(schedulers[k]))
        invariant forall k :: 0 <= k < i ==> Known(schedulers[k]) == Heard(report(schedulers[k]), old(Known(schedulers[k])))
        invariant forall k :: 0 <= k < i ==>
                    (schedulers[k].needConf <==> old(schedulers[k].needConf) || !schedulers[k].alive || schedulers[k].conf == null)
      {
        UpdateInfos(schedulers[i], report(schedulers[i]), true);
      }
    }

    method CheckAliveSatellites(report: Link -> Option<Report>)
      requires Covers()
      modifies w.sats`alive, w.sats`reachable, w.sats`managedConfs, w.sats`needConf
      ensures forall s :: s in satellites ==> Known(s) == Heard(report(s), old(Known(s)))
    {
      for i := 0 to |satellites|
        invariant forall k :: i <= k < |satellites| ==> Known(satellites[k]) == old(Known(satellites[k]))
        invariant forall k :: 0 <= k < i ==> Known(satellites[k]) == Heard(report(satellites[k]), old(Known(satellites[k])))
      {
        UpdateInfos(satellites[i], report(satellites[i]), false);
      }
    }

    method AskAll(report: Link -> Option<Report>)
      requires Covers() && Linked(w) && Held(w)
      modifies w.scheds`alive, w.scheds`reachable, w.scheds`managedConfs, w.scheds`needConf
      modifies w.sats`alive, w.sats`reachable, w.sats`managedConfs, w.sats`needConf
      ensures Linked(w)
      ensures forall s :: s in w.scheds ==> (s.needConf <==> old(s.needConf) || !s.alive || s.conf == null)
      ensures forall s :: s in schedulers || s in satellites ==> Known(s) == Heard(report(s), old(Known(s)))
    {
      CheckAliveSchedulers(report);
      CheckAliveSatellites(report);
      forall c | c in w.confs ensures ConfLinked(w, c) {
        assert old(ConfLinked(w, c));
      }
      forall s | s in w.scheds ensures SchedLinked(w, s) {
        assert old(SchedLinked(w, s));
      }
    }

    /** Afterwards a scheduler that holds a configuration asks for one only if it is dead. */
    method CheckAlive(report: Link -> Option<Report>)
      requires Covers() && Steady()
      modifies w.scheds`alive, w.scheds`reachable, w.scheds`managedConfs, w.scheds`needConf
      modifies w.sats`alive, w.sats`reachable, w.sats`managedConfs, w.sats`needConf
      ensures Linked(w) && AllBooked() && Entries() == old(Entries())
      ensures forall s :: s in w.scheds ==> (s.needConf <==> old(s.needConf) || !s.alive || s.conf == null)
      ensures forall s :: s in schedulers || s in satellites ==> Known(s) == Heard(report(s), old(Known(s)))
    {
      AskAll(report);
    }

    // ----- Configurations in the order of the loops over them -----

    /** The configurations of a realm's list up to a position, with those of `done`. */
    ghost function ListedUpto(done: set<Conf>, confs: seq<Conf>, n: nat): set<Conf>
      requires n <= |confs|
    {
      done + set i | 0 <= i < n :: confs[i]
    }

    lemma ListedNext(done: set<Conf>, confs: seq<Conf>, i: nat)
      requires i < |confs|
      ensures ListedUpto(done, confs, i + 1) == ListedUpto(done, confs, i) + {confs[i]}
    {
    }

    /** The configurations of the first `n` realms. */
    ghost function InFirst(n: nat): set<Conf>
      requires n <= |w.realms|
    {
      set c | c in w.confs && w.home[c] in w.realms[..n]
    }

    lemma NextRealm(n: nat)
      requires n < |w.realms|
      ensures InFirst(n + 1) == ListedUpto(InFirst(n), w.realms[n].confs, |w.realms[n].confs|)
      ensures forall c :: c in w.realms[n].confs ==> c !in InFirst(n)
    {
      var r := w.realms[n];
      assert HomeOf(w, r) && Apart(w);
      assert w.realms[..n + 1] == w.realms[..n] + [r];
      forall c | c in w.confs && w.home[c] == r ensures c in ListedUpto(InFirst(n), r.confs, |r.confs|) {
        assert c in r.confs;
        var i :| 0 <= i < |r.confs| && r.confs[i] == c;
      }
    }

    // ----- check_dispatch: schedulers -----

    /** The configuration is held rightly or not at all, and a dispatch that is still right
        has it held. */
    ghost predicate Passed(c: Conf)
      reads this`dispatchOk, c`assignedTo, c`pushFlavor, w.scheds`alive, w.scheds`managedConfs
    {
      Settled(c, w) && (dispatchOk ==> c.assignedTo != null)
    }

    ghost function HoldOf(c: Conf): Hold
      reads c`assignedTo, c`pushFlavor, w.scheds`alive, w.scheds`managedConfs
    {
      Hold(c.assignedTo, c.pushFlavor, Fit(c, w))
    }

    ghost function Holds(): map<Conf, Hold>
      reads w.confs`assignedTo, w.confs`pushFlavor, w.scheds`alive, w.scheds`managedConfs
    {
      map c | c in w.confs :: HoldOf(c)
    }

    ghost predicate AllFit(was: map<Conf, Hold>) {
      forall c :: c in was ==> was[c].fit
    }

    /** Of what was rightly held nothing changes; the rest stays as it is or is released. */
    ghost predicate AllReleased(was: map<Conf, Hold>)
      reads w.confs`assignedTo, w.confs`pushFlavor, w.scheds`alive, w.scheds`managedConfs
    {
      was.Keys == w.confs && forall c {:trigger HoldOf(c)} :: c in w.confs ==> Released(was[c], HoldOf(c))
    }

    method CheckOne(c: Conf, ghost was: map<Conf, Hold>)
      requires Linked(w) && c in w.confs && AllReleased(was)
      modifies w.confs`isAssigned, w.confs`assignedTo, w.confs`pushFlavor
      modifies w.scheds`conf, w.scheds`pushFlavor, w.scheds`needConf, this`dispatchOk
      ensures Linked(w) && Passed(c) && (dispatchOk ==> old(dispatchOk)) && AllReleased(was)
      ensures AllFit(was) && old(dispatchOk) ==> dispatchOk
      ensures forall d {:trigger Passed(d)} :: d in w.confs && old(Passed(d)) ==> Passed(d)
    {
      var ok := CheckConf(w, c);
      if !ok {
        dispatchOk := false;
      }
      forall d | d in w.confs ensures Released(was[d], HoldOf(d)) && (old(Passed(d)) ==> Passed(d)) {
        assert old(ConfLinked(w, d)) && old(ConfLinked(w, c)) && Released(was[d], old(HoldOf(d)));
      }
    }

    /** The configurations `done` have been checked. */
    ghost predicate AllPassed(done: set<Conf>)
      reads this`dispatchOk, done`assignedTo, done`pushFlavor, w.scheds`alive, w.scheds`managedConfs
    {
      forall d {:trigger Passed(d)} :: d in done ==> Passed(d)
    }

    method CheckNext(c: Conf, ghost done: set<Conf>, ghost was: map<Conf, Hold>)
      requires Linked(w) && c in w.confs && done <= w.confs && AllPassed(done) && AllReleased(was)
      modifies w.confs`isAssigned, w.confs`assignedTo, w.confs`pushFlavor
      modifies w.scheds`conf, w.scheds`pushFlavor, w.scheds`needConf, this`dispatchOk
      ensures Linked(w) && AllPassed(done + {c}) && AllReleased(was) && (dispatchOk ==> old(dispatchOk))
      ensures AllFit(was) && old(dispatchOk) ==> dispatchOk
    {
      CheckOne(c, was);
    }

    method CheckRealm(r: Realm, ghost done: set<Conf>, ghost was: map<Conf, Hold>)
      requires Linked(w) && r in w.realms && done <= w.confs && AllPassed(done) && AllReleased(was)
      modifies w.confs`isAssigned, w.confs`assignedTo, w.confs`pushFlavor
      modifies w.scheds`conf, w.scheds`pushFlavor, w.scheds`needConf, this`dispatchOk
      ensures Linked(w) && (dispatchOk ==> old(dispatchOk)) && AllPassed(ListedUpto(done, r.confs, |r.confs|)) && AllReleased(was)
      ensures AllFit(was) && old(dispatchOk) ==> dispatchOk
    {
      assert HomeOf(w, r);
      assert ListedUpto(done, r.confs, 0) == done;
      for i := 0 to |r.confs|
        invariant Linked(w) && (dispatchOk ==> old(dispatchOk)) && AllPassed(ListedUpto(done, r.confs, i)) && AllReleased(was)
        invariant AllFit(was) && old(dispatchOk) ==> dispatchOk
      {
        ListedNext(done, r.confs, i);
        CheckNext(r.confs[i], ListedUpto(done, r.confs, i), was);
      }
    }

    method CheckRealms(ghost was: map<Conf, Hold>)
      requires Covers() && Linked(w) && AllReleased(was)
      modifies w.confs`isAssigned, w.confs`assignedTo, w.confs`pushFlavor
      modifies w.scheds`conf, w.scheds`pushFlavor, w.scheds`needConf, this`dispatchOk
      ensures Linked(w) && AllPassed(w.confs) && AllReleased(was) && (dispatchOk ==> old(dispatchOk))
      ensures AllFit(was) && old(dispatchOk) ==> dispatchOk
    {
      for i := 0 to |realms|
        invariant Linked(w) && (dispatchOk ==> old(dispatchOk)) && AllPassed(InFirst(i)) && AllReleased(was)
        invariant AllFit(was) && old(dispatchOk) ==> dispatchOk
      {
        NextRealm(i);
        CheckRealm(realms[i], InFirst(i), was);
      }
      assert realms[..|realms|] == realms && InFirst(|realms|) == w.confs;
    }

    /** Every configuration has a scheduler that is alive and said to manage it. */
    ghost predicate HeldRightly()
      reads w.confs`assignedTo, w.confs`pushFlavor, w.scheds`alive, w.scheds`managedConfs
    {
      forall c {:trigger Fit(c, w)} :: c in w.confs ==> Fit(c, w)
    }

    method CheckSchedulers()
      requires Covers() && Linked(w) && AllBooked()
      modifies w.confs`isAssigned, w.confs`assignedTo, w.confs`pushFlavor
      modifies w.scheds`conf, w.scheds`pushFlavor, w.scheds`needConf, this`dispatchOk
      ensures Linked(w) && Held(w) && AllSettled(w) && AllBooked()
      ensures dispatchOk ==> AllAssigned(w)
      ensures dispatchOk <==> old(dispatchOk && HeldRightly())
      ensures dispatchOk ==> Entries() == old(Entries())
      ensures forall c :: c in w.confs ==> if old(Fit(c, w)) then LeaseOf(c) == old(LeaseOf(c)) else c.assignedTo == null
    {
      ghost var was, es := Holds(), Entries();
      FitAll(was);
      CheckHolders(was, es);
      AllRight();
      ReleasedExactly(was);
      ReleasedBooked(was, es);
    }

    method CheckHolders(ghost was: map<Conf, Hold>, ghost es: map<Conf, Entry>)
      requires Covers() && Linked(w) && was == Holds() && es == Entries()
      modifies w.confs`isAssigned, w.confs`assignedTo, w.confs`pushFlavor
      modifies w.scheds`conf, w.scheds`pushFlavor, w.scheds`needConf, this`dispatchOk
      ensures Linked(w) && AllPassed(w.confs) && AllReleased(was) && (dispatchOk ==> old(dispatchOk))
      ensures AllFit(was) && old(dispatchOk) ==> dispatchOk
      ensures forall c {:trigger es[c]} :: c in w.confs ==> es[c] == EntryOf(c).(flavor := was[c].flavor, holder := was[c].holder)
    {
      CheckRealms(was);
      forall c | c in w.confs ensures es[c] == EntryOf(c).(flavor := was[c].flavor, holder := was[c].holder) {
        assert es[c] == old(EntryOf(c)) && was[c] == old(HoldOf(c));
      }
    }

    lemma FitAll(was: map<Conf, Hold>)
      requires was == Holds()
      ensures AllFit(was) <==> HeldRightly()
    {
      assert forall c :: c in w.confs ==> was[c] == HoldOf(c);
    }

    /** Releasing configurations asks less of the books; releasing none changes nothing. */
    lemma ReleasedBooked(was: map<Conf, Hold>, es: map<Conf, Entry>)
      requires AllReleased(was) && es.Keys == w.confs && forall c {:trigger es[c]} :: c in w.confs ==> EntryBooked(es[c], log)
      requires forall c {:trigger es[c]} :: c in w.confs ==> es[c] == EntryOf(c).(flavor := was[c].flavor, holder := was[c].holder)
      ensures AllBooked() && (AllFit(was) ==> Entries() == es)
    {
      forall c | c in w.confs ensures EntryBooked(EntryOf(c), log) && (was[c].fit ==> EntryOf(c) == es[c]) {
        assert Released(was[c], HoldOf(c));
        BookedWeaker(es[c], EntryOf(c), log);
      }
    }

    lemma AllRight()
      requires Linked(w) && AllPassed(w.confs)
      ensures Held(w) && AllSettled(w) && (dispatchOk ==> AllAssigned(w))
    {
      forall s | s in w.scheds && s.conf != null ensures s.alive && !s.needConf {
        assert SchedLinked(w, s) && Passed(s.conf);
      }
      forall c | c in w.confs ensures Settled(c, w) && (dispatchOk ==> c.assignedTo != null) {
        assert Passed(c);
      }
    }

    lemma ReleasedExactly(was: map<Conf, Hold>)
      requires AllPassed(w.confs) && AllReleased(was)
      ensures forall c :: c in w.confs ==> if was[c].fit then LeaseOf(c) == Lease(was[c].holder, was[c].flavor) else c.assignedTo == null
    {
      forall c | c in w.confs ensures if was[c].fit then LeaseOf(c) == Lease(was[c].holder, was[c].flavor) else c.assignedTo == null {
        assert Passed(c) && Released(was[c], HoldOf(c));
      }
    }

    // ----- check_dispatch: satellites -----

    method CheckKind(row: Row, r: Realm, kind: Kind, id: nat, flavor: nat, ghost told: Told) returns (row': Row)
      requires Staffed(w, r) && told == Tell(w.sats) && Booked(row, r, kind, id, flavor, log)
      modifies this`dispatchOk
      ensures RowChecked(row', r, kind, id, flavor, dispatchOk, log, told) && row'.to == row.to
      ensures dispatchOk <==> old(dispatchOk) && FineIn(row.managers, r.MustHave(kind), id, flavor, told)
      ensures dispatchOk ==> row' == row
    {
      var ok;
      row', ok := CheckRow(row, r.MustHave(kind), id, flavor);
      CheckedRow(row, row', ok, r, kind, id, flavor, log);
      assert ok <==> FineIn(row.managers, r.MustHave(kind), id, flavor, told);
      if !ok {
        dispatchOk := false;
      }
    }

    /** All kinds of one configuration. */
    method CheckPage(page: Page, r: Realm, id: nat, flavor: nat, ghost told: Told) returns (p: Page)
      requires Staffed(w, r) && told == Tell(w.sats) && forall kind :: Booked(page.Of(kind), r, kind, id, flavor, log)
      modifies this`dispatchOk
      ensures forall kind :: RowChecked(p.Of(kind), r, kind, id, flavor, dispatchOk, log, told) && p.Of(kind).to == page.Of(kind).to
      ensures dispatchOk <==> old(dispatchOk) && PageFine(page, r, id, flavor, told)
      ensures dispatchOk ==> p == page
    {
      p := page;
      for i := 0 to |KINDS|
        invariant forall kind :: p.Of(kind).to == page.Of(kind).to
        invariant forall kind :: Booked(p.Of(kind), r, kind, id, flavor, log)
        invariant forall j :: 0 <= j < i ==> RowChecked(p.Of(KINDS[j]), r, KINDS[j], id, flavor, dispatchOk, log, told)
        invariant forall j :: i <= j < |KINDS| ==> p.Of(KINDS[j]) == page.Of(KINDS[j])
        invariant dispatchOk <==> old(dispatchOk) && PartFine(page, i, r, id, flavor, told)
        invariant dispatchOk ==> p == page
      {
        KindsApart(i);
        PartFineNext(page, i, r, id, flavor, told);
        var row := CheckKind(p.Of(KINDS[i]), r, KINDS[i], id, flavor, told);
        if dispatchOk {
          SamePage(p, KINDS[i], row);
        }
        p := p.With(KINDS[i], row);
      }
      PartFineAll(page, r, id, flavor, told);
      forall kind ensures RowChecked(p.Of(kind), r, kind, id, flavor, dispatchOk, log, told) {
        var j := KindsCover(kind);
      }
    }

    /** One configuration; one that was never dispatched has no books yet. */
    method CheckBooksOf(r: Realm, c: Conf, ghost told: Told)
      requires c in w.confs && w.home[c] == r && Staffed(w, r) && EntryBooked(EntryOf(c), log) && told == Tell(w.sats)
      modifies r`books, this`dispatchOk
      ensures EntryChecked(EntryOf(c), dispatchOk, log, told) && told == Tell(w.sats)
      ensures dispatchOk <==> old(dispatchOk) && EntryFine(old(EntryOf(c)), told)
      ensures forall d {:trigger EntryOf(d)} :: d in w.confs && (d != c || dispatchOk) ==> EntryOf(d) == old(EntryOf(d))
    {
      if c.id in r.books {
        var page := CheckPage(r.books[c.id], r, c.id, c.pushFlavor, told);
        r.books := r.books[c.id := page];
      }
    }

    /** Of the configurations, `done` have been checked and the others are in order. */
    ghost predicate Halfway(done: set<Conf>, told: Told)
      reads this`log, this`dispatchOk, w.confs`pushFlavor, w.confs`assignedTo, w.realms`books
    {
      forall d {:trigger EntryOf(d)} :: d in w.confs ==> if d in done then EntryChecked(EntryOf(d), dispatchOk, log, told)
                                                         else EntryBooked(EntryOf(d), log)
    }

    ghost function Entries(): map<Conf, Entry>
      reads w.confs`pushFlavor, w.confs`assignedTo, w.realms`books
    {
      map c | c in w.confs :: EntryOf(c)
    }

    /** The entries `was` of `done` have been checked; while the dispatch is right none has
        changed, and it is right exactly if it was and all of those are fine. */
    ghost predicate Tracked(done: set<Conf>, was: map<Conf, Entry>, start: bool, told: Told)
      reads this`dispatchOk, w.confs`pushFlavor, w.confs`assignedTo, w.realms`books
    {
      && was.Keys == w.confs && (dispatchOk <==> start && forall d {:trigger was[d]} :: d in done && d in was ==> EntryFine(was[d], told))
      && forall d {:trigger EntryOf(d)} :: d in w.confs && (dispatchOk || d !in done) ==> EntryOf(d) == was[d]
    }

    /** The check of the books has come through `done`. */
    ghost predicate Checking(done: set<Conf>, was: map<Conf, Entry>, start: bool, told: Told)
      reads this`log, this`dispatchOk, w.confs`pushFlavor, w.confs`assignedTo, w.realms`books
      reads w.sats`alive, w.sats`reachable, w.sats`managedConfs
    {
      told == Tell(w.sats) && Halfway(done, told) && Tracked(done, was, start, told)
    }

    method CheckBooks(r: Realm, c: Conf, ghost done: set<Conf>, ghost was: map<Conf, Entry>, ghost start: bool, ghost told: Told)
      requires c in w.confs && w.home[c] == r && Staffed(w, r)
      requires c !in done && Checking(done, was, start, told)
      modifies r`books, this`dispatchOk
      ensures Checking(done + {c}, was, start, told)
    {
      ghost var es, ok := Entries(), dispatchOk;
      assert HalfwayOf(es, ok, done, log, told) && TrackedOf(es, ok, done, was, start, told);
      CheckBooksOf(r, c, told);
      HalfwayNext(es, ok, c, done, told);
      TrackedNext(es, ok, c, done, was, start, told);
    }

    lemma HalfwayNext(es: map<Conf, Entry>, ok: bool, c: Conf, done: set<Conf>, told: Told)
      requires es.Keys == w.confs && c in w.confs && HalfwayOf(es, ok, done, log, told) && (dispatchOk ==> ok)
      requires forall d {:trigger EntryOf(d)} :: d in w.confs && d != c ==> EntryOf(d) == es[d]
      requires EntryChecked(EntryOf(c), dispatchOk, log, told)
      ensures Halfway(done + {c}, told)
    {
      forall d | d in w.confs && d in done && d != c ensures EntryChecked(EntryOf(d), dispatchOk, log, told) {
        CheckedBooked(es[d], ok, log, told);
      }
    }

    lemma TrackedNext(es: map<Conf, Entry>, ok: bool, c: Conf, done: set<Conf>, was: map<Conf, Entry>, start: bool, told: Told)
      requires es.Keys == w.confs && c in w.confs && c !in done && TrackedOf(es, ok, done, was, start, told)
      requires forall d {:trigger EntryOf(d)} :: d in w.confs && (d != c || dispatchOk) ==> EntryOf(d) == es[d]
      requires dispatchOk <==> ok && EntryFine(es[c], told)
      ensures Tracked(done + {c}, was, start, told)
    {
    }

    method CheckRealmBooks(r: Realm, ghost done: set<Conf>, ghost was: map<Conf, Entry>, ghost start: bool, ghost told: Told)
      requires r in w.realms && Staffed(w, r) && (forall c :: c in r.confs ==> c !in done) && Checking(done, was, start, told)
      modifies r`books, this`dispatchOk
      ensures Checking(ListedUpto(done, r.confs, |r.confs|), was, start, told)
    {
      assert HomeOf(w, r);
      assert ListedUpto(done, r.confs, 0) == done;
      for i := 0 to |r.confs|
        invariant Checking(ListedUpto(done, r.confs, i), was, start, told)
      {
        ListedNext(done, r.confs, i);
        assert r.confs[i] in r.confs;
        CheckBooks(r, r.confs[i], ListedUpto(done, r.confs, i), was, start, told);
      }
    }

    method CheckRealmAt(i: nat, ghost was: map<Conf, Entry>, ghost start: bool, ghost told: Told)
      requires Covers() && i < |realms| && Checking(InFirst(i), was, start, told)
      modifies {realms[i]}`books, this`dispatchOk
      ensures Checking(InFirst(i + 1), was, start, told)
    {
      NextRealm(i);
      CheckRealmBooks(realms[i], InFirst(i), was, start, told);
    }

    method CheckSatellites(ghost was: map<Conf, Entry>, ghost start: bool, ghost told: Told)
      requires Covers() && AllBooked() && told == Tell(w.sats) && was == Entries() && start == dispatchOk
      modifies w.realms`books, this`dispatchOk
      ensures Checking(w.confs, was, start, told)
    {
      for i := 0 to |realms|
        invariant Checking(InFirst(i), was, start, told)
      {
        CheckRealmAt(i, was, start, told);
      }
      assert realms[..|realms|] == realms && InFirst(|realms|) == w.confs;
    }

    /** Every configuration with books has, per kind, enough managers and none in trouble. */
    ghost predicate AllFine(told: Told)
      reads w.confs`pushFlavor, w.confs`assignedTo, w.realms`books
    {
      EntriesFine(Entries(), told)
    }

    ghost predicate AllCleared(told: Told)
      reads this`log, w.confs`pushFlavor, w.confs`assignedTo, w.realms`books
    {
      forall c {:trigger EntryCleared(EntryOf(c), log, told)} :: c in w.confs ==> EntryCleared(EntryOf(c), log, told)
    }

    /** Exactly the configurations rightly held stay so. The dispatch is still right exactly
        if all are, and managed by enough satellites of each kind; then nothing changes, and
        otherwise a set dispatch flag means that there is no manager. No manager is in
        trouble. */
    method CheckDispatch()
      requires Covers() && Linked(w) && AllBooked()
      modifies w.confs`isAssigned, w.confs`assignedTo, w.confs`pushFlavor
      modifies w.scheds`conf, w.scheds`pushFlavor, w.scheds`needConf, this`dispatchOk, w.realms`books
      ensures Steady() && AllSettled(w) && AllCleared(Tell(w.sats))
      ensures Halfway(w.confs, Tell(w.sats)) && (dispatchOk ==> AllAssigned(w))
      ensures dispatchOk <==> old(dispatchOk && HeldRightly() && AllFine(Tell(w.sats)))
      ensures dispatchOk ==> Entries() == old(Entries())
      ensures forall c :: c in w.confs ==> if old(Fit(c, w)) then LeaseOf(c) == old(LeaseOf(c)) else c.assignedTo == null
    {
      ghost var told := Tell(w.sats);
      CheckSchedulers();
      CheckAllBooks(told);
    }

    method CheckAllBooks(ghost told: Told)
      requires Covers() && Linked(w) && Held(w) && AllSettled(w) && AllBooked() && (dispatchOk ==> AllAssigned(w)) && told == Tell(w.sats)
      modifies w.realms`books, this`dispatchOk
      ensures Steady() && AllSettled(w) && AllCleared(told) && told == Tell(w.sats)
      ensures Halfway(w.confs, told) && (dispatchOk ==> AllAssigned(w))
      ensures dispatchOk <==> old(dispatchOk && AllFine(told))
      ensures dispatchOk ==> Entries() == old(Entries())
    {
      CheckEveryBook(told);
    }

    method CheckEveryBook(ghost told: Told)
      requires Covers() && AllBooked() && told == Tell(w.sats)
      modifies w.realms`books, this`dispatchOk
      ensures AllBooked() && AllCleared(told)
      ensures Halfway(w.confs, told) && told == Tell(w.sats)
      ensures dispatchOk <==> old(dispatchOk && AllFine(told))
      ensures dispatchOk ==> Entries() == old(Entries())
    {
      ghost var was, start := Entries(), dispatchOk;
      CheckSatellites(was, start, told);
      AllChecked(told);
      TrackedAll(was, start, told);
    }

    lemma TrackedAll(was: map<Conf, Entry>, start: bool, told: Told)
      requires Tracked(w.confs, was, start, told)
      ensures (dispatchOk <==> start && EntriesFine(was, told)) && (dispatchOk ==> Entries() == was)
    {
    }

    lemma AllChecked(told: Told)
      requires Halfway(w.confs, told)
      ensures AllBooked() && AllCleared(told)
    {
      forall c | c in w.confs ensures EntryBooked(EntryOf(c), log) && EntryCleared(EntryOf(c), log, told) {
        CheckedBooked(EntryOf(c), dispatchOk, log, told);
      }
    }

    // ----- dispatch: schedulers -----

    /** The configuration has books, and satellites wait to be told only about one that a
        scheduler holds. */
    ghost predicate Listed(c: Conf)
      reads c`pushFlavor, c`assignedTo, w.realms`books
      requires c in w.confs
    {
      var e := EntryOf(c);
      e.page.Some? && (e.holder == null ==> forall kind :: !e.page.value.Of(kind).need)
    }

    /** Opens the books of a configuration for all kinds. */
    method OpenBooks(r: Realm, c: Conf, sched: Link?, need: bool, ghost told: Told)
      requires c in w.confs && w.home[c] == r
      requires forall d {:trigger EntryOf(d)} :: d in w.confs && d != c ==> EntryCleared(EntryOf(d), log, told)
      requires sched == c.assignedTo && (need <==> sched != null)
      modifies r`books
      ensures AllCleared(told) && Listed(c) && forall kind :: EntryOf(c).page.value.Of(kind) == Row(sched, need, [])
      ensures forall d {:trigger EntryOf(d)} :: d in w.confs && d != c ==> EntryOf(d) == old(EntryOf(d))
    {
      var row := Row(sched, need, []);
      r.books := r.books[c.id := Page(row, row, row, row)];
      forall d | d in w.confs && d != c ensures EntryCleared(EntryOf(d), log, told) {
        assert EntryOf(d) == old(EntryOf(d));
      }
    }

    /** Gives a configuration to the first scheduler that asks for one and accepts it. */
    method Place(c: Conf, scheds: seq<Link>, accepts: Accepts) returns (sched: Link?, rest: seq<Link>)
      requires Linked(w) && Held(w) && AllSettled(w) && c in w.confs && c.assignedTo == null
      requires forall s :: s in scheds ==> s in w.scheds && s.alive
      modifies c`isAssigned, c`assignedTo, c`pushFlavor
      modifies w.scheds`conf, w.scheds`pushFlavor, w.scheds`needConf, w.scheds`managedConfs
      ensures Linked(w) && Held(w) && AllSettled(w) && c.assignedTo == sched
      ensures sched != null ==> sched in scheds && old(sched.needConf) && accepts(sched, c.id)
      ensures rest <= scheds && TriedFrom(scheds, |rest|, {c}, accepts) && (sched == null ==> rest == [])
      ensures sched != null && sched.spare && SparesFirst(scheds) ==> forall s :: s in rest ==> s.spare
      ensures forall s :: s in w.scheds ==> (s.needConf ==> old(s.needConf))
    {
      assert ConfLinked(w, c);
      sched, rest := FindScheduler(c, scheds, accepts);
      forall d | d in w.confs ensures ConfLinked(w, d) {
        assert old(ConfLinked(w, d));
      }
      forall s | s in w.scheds ensures SchedLinked(w, s) {
        assert old(SchedLinked(w, s));
      }
      forall d | d in w.confs ensures Settled(d, w) {
        assert old(Settled(d, w));
      }
      if sched != null {
        Assign(w, c, sched);
      }
    }

    method TryConf(r: Realm, c: Conf, scheds: seq<Link>, accepts: Accepts, ghost told: Told) returns (rest: seq<Link>)
      requires Consistent(told) && c in w.confs && w.home[c] == r && c.assignedTo == null
      requires forall s :: s in scheds ==> s in w.scheds && s.alive
      modifies r`books, c`isAssigned, c`assignedTo, c`pushFlavor
      modifies w.scheds`conf, w.scheds`pushFlavor, w.scheds`needConf, w.scheds`managedConfs
      ensures Consistent(told) && Listed(c)
      ensures forall kind :: EntryOf(c).page.value.Of(kind) == Row(c.assignedTo, c.assignedTo != null, [])
      ensures c.assignedTo != null ==> c.assignedTo in scheds && accepts(c.assignedTo, c.id)
      ensures rest <= scheds && TriedFrom(scheds, |rest|, {c}, accepts) && (c.assignedTo == null ==> rest == [])
      ensures c.assignedTo != null && c.assignedTo.spare && SparesFirst(scheds) ==> forall s :: s in rest ==> s.spare
      ensures forall d {:trigger EntryOf(d)} :: d in w.confs && d != c ==> EntryOf(d) == old(EntryOf(d))
      ensures forall s :: s in w.scheds ==> (s.needConf ==> old(s.needConf))
    {
      var sched;
      sched, rest := Place(c, scheds, accepts);
      forall d | d in w.confs && d != c ensures EntryCleared(EntryOf(d), log, told) {
        assert old(EntryCleared(EntryOf(d), log, told)) && EntryOf(d) == old(EntryOf(d));
      }
      OpenBooks(r, c, sched, sched != null, told);
    }

    method Unassigned(confs: seq<Conf>) returns (todo: seq<Conf>)
      requires Distinct(confs)
      ensures forall c :: c in todo <==> c in confs && !c.isAssigned
      ensures Distinct(todo)
    {
      todo := [];
      for i := 0 to |confs|
        invariant forall c :: c in todo <==> c in confs[..i] && !c.isAssigned
        invariant Distinct(todo)
      {
        if !confs[i].isAssigned {
          todo := todo + [confs[i]];
        }
      }
    }

    /** All schedulers have been tried that had to be; satellites can be told. */
    ghost predicate Ready(lost: set<Conf>, accepts: Accepts, told: Told)
      reads this`log, w.confs, w.scheds, w.realms`books
    {
      Consistent(told) && AllListed() && AllExhausted(w, lost, accepts)
    }

    ghost predicate AllListed()
      reads w.confs`pushFlavor, w.confs`assignedTo, w.realms`books
    {
      forall c {:trigger Listed(c)} :: c in w.confs ==> Listed(c)
    }

    ghost predicate Consistent(told: Told)
      reads this`log, w.confs, w.scheds, w.realms`books
    {
      Linked(w) && Held(w) && AllSettled(w) && AllCleared(told)
    }

    /** The holders of the configurations handled so far acknowledged them. */
    ghost predicate Granted(todo: seq<Conf>, i: nat, all: seq<Link>, accepts: Accepts)
      reads todo`assignedTo
    {
      forall k :: 0 <= k < i && k < |todo| && todo[k].assignedTo != null ==>
                    todo[k].assignedTo in all && accepts(todo[k].assignedTo, todo[k].id)
    }

    /** The pass over the configurations `todo` of a realm has come to position `i`. */
    ghost predicate Midway(todo: seq<Conf>, i: nat, all: seq<Link>, rest: seq<Link>, lost: set<Conf>, accepts: Accepts)
      reads w.confs`assignedTo, w.confs`pushFlavor, w.realms`books, all`needConf, todo`assignedTo
    {
      && (forall k :: 0 <= k < |todo| ==> todo[k] in w.confs && (k < i ==> Listed(todo[k])))
      && (forall k :: 0 <= k < |todo| ==> if k < i then todo[k].assignedTo == null ==> rest == [] else todo[k].assignedTo == null)
      && (forall k :: 0 <= k < i && k < |todo| && todo[k].assignedTo != null && todo[k].assignedTo.spare ==>
                        forall s :: s in rest ==> s.spare)
      && rest <= all && TriedFrom(all, |rest|, lost, accepts) && Granted(todo, i, all, accepts)
    }

    method NextConf(r: Realm, todo: seq<Conf>, i: nat, ghost all: seq<Link>, scheds: seq<Link>, ghost lost: set<Conf>, accepts: Accepts,
                    ghost told: Told)
      returns (rest: seq<Link>)
      requires Consistent(told) && i < |todo| && Midway(todo, i, all, scheds, lost, accepts)
      requires Distinct(todo) && todo[i] in lost && SparesFirst(all)
      requires (forall c :: c in todo ==> c in w.confs && w.home[c] == r) && forall s :: s in all ==> s in w.scheds && s.alive
      modifies r`books, w.confs`isAssigned, w.confs`assignedTo, w.confs`pushFlavor
      modifies w.scheds`conf, w.scheds`pushFlavor, w.scheds`needConf, w.scheds`managedConfs
      ensures Consistent(told) && Midway(todo, i + 1, all, rest, lost, accepts)
      ensures forall d {:trigger EntryOf(d)} :: d in w.confs && d != todo[i] ==> EntryOf(d) == old(EntryOf(d))
      ensures forall s :: s in w.scheds ==> (s.needConf ==> old(s.needConf))
    {
      rest := TryConf(r, todo[i], scheds, accepts, told);
      forall k | |rest| <= k < |all| ensures !all[k].needConf || Refuses(all[k], lost, accepts) {
        assert k < |scheds| ==> all[k] == scheds[k];
      }
      forall k | 0 <= k < |todo| && k != i ensures todo[k] != todo[i] && EntryOf(todo[k]) == old(EntryOf(todo[k])) {
        assert todo[k] in w.confs;
      }
    }

    method DispatchAll(r: Realm, todo: seq<Conf>, all: seq<Link>, ghost lost: set<Conf>, accepts: Accepts, ghost told: Told)
      requires Consistent(told) && Midway(todo, 0, all, all, lost, accepts) && Distinct(todo) && SparesFirst(all)
      requires forall c :: c in todo ==> c in w.confs && w.home[c] == r && c in lost
      requires forall s :: s in all ==> s in w.scheds && s.alive
      modifies r`books, w.confs`isAssigned, w.confs`assignedTo, w.confs`pushFlavor
      modifies w.scheds`conf, w.scheds`pushFlavor, w.scheds`needConf, w.scheds`managedConfs
      ensures Consistent(told) && (forall c :: c in todo ==> Listed(c)) && Granted(todo, |todo|, all, accepts)
      ensures (forall c :: c in todo ==> c.assignedTo != null) || TriedFrom(all, 0, lost, accepts)
      ensures (forall c :: c in todo && c.assignedTo != null ==> !c.assignedTo.spare) ||
              forall s :: s in all && !s.spare ==> !s.needConf || Refuses(s, lost, accepts)
      ensures forall d {:trigger EntryOf(d)} :: d in w.confs && d !in todo ==> EntryOf(d) == old(EntryOf(d))
      ensures forall s :: s in w.scheds ==> (s.needConf ==> old(s.needConf))
    {
      var scheds := all;
      for i := 0 to |todo|
        invariant Consistent(told) && Midway(todo, i, all, scheds, lost, accepts)
        invariant forall d {:trigger EntryOf(d)} :: d in w.confs && d !in todo ==> EntryOf(d) == old(EntryOf(d))
        invariant forall s :: s in w.scheds ==> (s.needConf ==> old(s.needConf))
      {
        scheds := NextConf(r, todo, i, all, scheds, lost, accepts, told);
      }
      SpareMeansTried(todo, all, scheds, lost, accepts);
    }

    /** What is popped last is a spare, so all others were tried. */
    lemma SpareMeansTried(todo: seq<Conf>, all: seq<Link>, rest: seq<Link>, lost: set<Conf>, accepts: Accepts)
      requires Midway(todo, |todo|, all, rest, lost, accepts)
      ensures (forall c :: c in todo && c.assignedTo != null ==> !c.assignedTo.spare) ||
              forall s :: s in all && !s.spare ==> !s.needConf || Refuses(s, lost, accepts)
    {
      if c :| c in todo && c.assignedTo != null && c.assignedTo.spare {
        var k :| 0 <= k < |todo| && todo[k] == c;
        assert forall j :: 0 <= j < |rest| ==> all[j] == rest[j] && rest[j] in rest;
        forall s | s in all && !s.spare ensures !s.needConf || Refuses(s, lost, accepts) {
          var j :| 0 <= j < |all| && all[j] == s;
        }
      }
    }

    /** Whoever newly holds a configuration asked for one, is alive and acknowledged it. */
    ghost predicate NewHolder(c: Conf, r: Realm, accepts: Accepts)
      reads c`assignedTo, w.scheds`alive
    {
      c.assignedTo != null && c.assignedTo in w.scheds && Usable(r, c.assignedTo) && c.assignedTo.alive && accepts(c.assignedTo, c.id)
    }

    method DispatchRealm(r: Realm, ghost lost: set<Conf>, accepts: Accepts, ghost told: Told)
      requires Consistent(told) && r in w.realms && Staffed(w, r)
      requires forall c :: c in w.confs && w.home[c] == r ==> (c in lost <==> c.assignedTo == null)
      modifies r`books, w.confs`isAssigned, w.confs`assignedTo, w.confs`pushFlavor
      modifies w.scheds`conf, w.scheds`pushFlavor, w.scheds`needConf, w.scheds`managedConfs
      ensures Consistent(told) && Exhausted(w, r, lost, accepts)
      ensures forall c :: c in w.confs && (w.home[c] == r || old(Listed(c))) ==> Listed(c)
      ensures forall c :: c in w.confs && (w.home[c] != r || c !in lost) ==> LeaseOf(c) == old(LeaseOf(c))
      ensures forall c :: c in w.confs && w.home[c] == r && c in lost ==> c.assignedTo == null || NewHolder(c, r, accepts)
      ensures forall s :: s in w.scheds ==> (s.needConf ==> old(s.needConf))
    {
      assert HomeOf(w, r);
      var todo := Unassigned(r.confs);
      var scheds := Candidates(r);
      forall c | c in w.confs ensures c in todo <==> c in LostIn(w, r, lost) {
        assert ConfLinked(w, c);
      }
      DispatchTodo(r, todo, scheds, lost, accepts, told);
    }

    method DispatchTodo(r: Realm, todo: seq<Conf>, scheds: seq<Link>, ghost lost: set<Conf>, accepts: Accepts, ghost told: Told)
      requires Consistent(told) && r in w.realms && Distinct(todo) && SparesFirst(scheds)
      requires forall c :: c in w.confs && w.home[c] == r ==> (c in lost <==> c.assignedTo == null)
      requires (forall c :: c in todo ==> c in w.confs) && forall c :: c in w.confs ==> (c in todo <==> c in LostIn(w, r, lost))
      requires forall s :: s in scheds <==> s in w.scheds && Usable(r, s) && s.alive
      modifies r`books, w.confs`isAssigned, w.confs`assignedTo, w.confs`pushFlavor
      modifies w.scheds`conf, w.scheds`pushFlavor, w.scheds`needConf, w.scheds`managedConfs
      ensures Consistent(told) && Exhausted(w, r, lost, accepts)
      ensures forall c :: c in w.confs && (w.home[c] == r || old(Listed(c))) ==> Listed(c)
      ensures forall c :: c in w.confs && (w.home[c] != r || c !in lost) ==> LeaseOf(c) == old(LeaseOf(c))
      ensures forall c :: c in w.confs && w.home[c] == r && c in lost ==> c.assignedTo == null || NewHolder(c, r, accepts)
      ensures forall s :: s in w.scheds ==> (s.needConf ==> old(s.needConf))
    {
      DispatchAll(r, todo, scheds, LostIn(w, r, lost), accepts, told);
      forall c | c in w.confs && c !in todo
        ensures LeaseOf(c) == old(LeaseOf(c)) && (w.home[c] == r || old(Listed(c)) ==> Listed(c))
      {
        assert EntryOf(c) == old(EntryOf(c)) && old(EntryCleared(EntryOf(c), log, told));
      }
      TriedAll(r, todo, scheds, lost, accepts);
    }

    lemma TriedAll(r: Realm, todo: seq<Conf>, scheds: seq<Link>, lost: set<Conf>, accepts: Accepts)
      requires r in w.realms && (forall c :: c in w.confs ==> (c in todo <==> c in LostIn(w, r, lost)))
      requires forall s :: s in w.scheds && Usable(r, s) && s.alive ==> s in scheds
      requires forall c :: c in w.confs && w.home[c] == r && c !in lost ==> c.assignedTo != null
      requires (forall c :: c in todo ==> c.assignedTo != null) || TriedFrom(scheds, 0, LostIn(w, r, lost), accepts)
      requires (forall c :: c in todo && c.assignedTo != null ==> !c.assignedTo.spare) ||
               forall s :: s in scheds && !s.spare ==> !s.needConf || Refuses(s, LostIn(w, r, lost), accepts)
      ensures Exhausted(w, r, lost, accepts)
    {
    }

    method DispatchSchedulers(ghost lost: set<Conf>, accepts: Accepts, ghost told: Told)
      requires Covers() && Consistent(told) && forall c :: c in w.confs ==> (c in lost <==> c.assignedTo == null)
      modifies w.realms`books, w.confs`isAssigned, w.confs`assignedTo, w.confs`pushFlavor
      modifies w.scheds`conf, w.scheds`pushFlavor, w.scheds`needConf, w.scheds`managedConfs
      ensures Ready(lost, accepts, told) && AllGranted(lost, accepts)
      ensures forall c :: c in w.confs && c !in lost ==> LeaseOf(c) == old(LeaseOf(c))
    {
      for i := 0 to |realms|
        invariant Consistent(told) && Progress(i, lost, accepts)
        invariant forall k :: i <= k < |realms| ==> forall c :: c in w.confs && w.home[c] == realms[k] ==> LeaseOf(c) == old(LeaseOf(c))
        invariant forall c :: c in w.confs && c !in lost ==> LeaseOf(c) == old(LeaseOf(c))
      {
        DispatchNext(i, lost, accepts, told);
      }
      forall c | c in w.confs ensures Handled(c, lost, accepts) {
        assert w.home[c] in realms;
        var k :| 0 <= k < |realms| && realms[k] == w.home[c];
        assert RealmDone(realms[k], lost, accepts);
      }
      assert forall r :: r in w.realms ==> Exhausted(w, r, lost, accepts);
    }

    ghost predicate AllGranted(lost: set<Conf>, accepts: Accepts)
      reads w.confs`assignedTo, w.scheds`alive
    {
      forall c {:trigger NewHolder(c, w.home[c], accepts)} :: c in w.confs && c in lost ==> c.assignedTo == null || NewHolder(c, w.home[c], accepts)
    }

    /** The configuration has been dispatched. */
    ghost predicate Handled(c: Conf, lost: set<Conf>, accepts: Accepts)
      reads c`assignedTo, c`pushFlavor, w.scheds`alive, w.realms`books
      requires c in w.confs
    {
      Listed(c) && (c in lost ==> c.assignedTo == null || NewHolder(c, w.home[c], accepts))
    }

    ghost predicate RealmDone(r: Realm, lost: set<Conf>, accepts: Accepts)
      reads w.confs`assignedTo, w.confs`pushFlavor, w.scheds`alive, w.scheds`needConf, w.realms`books
    {
      && Exhausted(w, r, lost, accepts)
      && forall c {:trigger Handled(c, lost, accepts)} :: c in w.confs && w.home[c] == r ==> Handled(c, lost, accepts)
    }

    /** The first `n` realms have been dispatched. */
    ghost predicate Progress(n: nat, lost: set<Conf>, accepts: Accepts)
      reads w.confs`assignedTo, w.confs`pushFlavor, w.scheds`alive, w.scheds`needConf, w.realms`books
    {
      forall k :: 0 <= k < n && k < |w.realms| ==> RealmDone(w.realms[k], lost, accepts)
    }

    method DispatchNext(i: nat, ghost lost: set<Conf>, accepts: Accepts, ghost told: Told)
      requires Covers() && Consistent(told) && i < |realms| && Progress(i, lost, accepts)
      requires forall c :: c in w.confs && w.home[c] == realms[i] ==> (c in lost <==> c.assignedTo == null)
      modifies w.realms`books, w.confs`isAssigned, w.confs`assignedTo, w.confs`pushFlavor
      modifies w.scheds`conf, w.scheds`pushFlavor, w.scheds`needConf, w.scheds`managedConfs
      ensures Consistent(told) && Progress(i + 1, lost, accepts)
      ensures forall c :: c in w.confs && (w.home[c] != realms[i] || c !in lost) ==> LeaseOf(c) == old(LeaseOf(c))
    {
      DispatchOne(realms[i], lost, accepts, told);
      forall k | 0 <= k <= i ensures RealmDone(realms[k], lost, accepts) {
        assert Apart(w) && (k < i ==> realms[k] != realms[i]);
        assert k < i ==> old(RealmDone(realms[k], lost, accepts));
      }
    }

    /** Dispatching a realm does not undo another one. */
    method DispatchOne(r: Realm, ghost lost: set<Conf>, accepts: Accepts, ghost told: Told)
      requires Consistent(told) && r in w.realms && Staffed(w, r)
      requires forall c :: c in w.confs && w.home[c] == r ==> (c in lost <==> c.assignedTo == null)
      modifies r`books, w.confs`isAssigned, w.confs`assignedTo, w.confs`pushFlavor
      modifies w.scheds`conf, w.scheds`pushFlavor, w.scheds`needConf, w.scheds`managedConfs
      ensures Consistent(told) && RealmDone(r, lost, accepts)
      ensures forall q {:trigger RealmDone(q, lost, accepts)} :: q in w.realms && q != r && old(RealmDone(q, lost, accepts)) ==> RealmDone(q, lost, accepts)
      ensures forall c :: c in w.confs && (w.home[c] != r || c !in lost) ==> LeaseOf(c) == old(LeaseOf(c))
    {
      DispatchRealm(r, lost, accepts, told);
      forall q | q in w.realms && q != r && old(RealmDone(q, lost, accepts)) ensures RealmDone(q, lost, accepts) {
        assert old(Exhausted(w, q, lost, accepts));
        assert AllTried(w, q, lost, accepts, true) || !old(AllTried(w, q, lost, accepts, true));
        assert AllTried(w, q, lost, accepts, false) || !old(AllTried(w, q, lost, accepts, false));
        forall c | c in w.confs && w.home[c] == q ensures Handled(c, lost, accepts) {
          assert old(Handled(c, lost, accepts));
        }
      }
    }

    // ----- dispatch: conclusions -----

    /** Schedulers without configuration stop asking once everything is dispatched. */
    method TagIdle(ghost lost: set<Conf>, accepts: Accepts, ghost told: Told)
      requires Covers() && Ready(lost, accepts, told)
      modifies w.scheds`needConf, this`dispatchOk
      ensures Ready(lost, accepts, told) && dispatchOk && forall s :: s in w.scheds ==> !s.needConf
    {
      StopAskingLinked();
      forall r | r in w.realms ensures Exhausted(w, r, lost, accepts) {
        assert old(Exhausted(w, r, lost, accepts));
      }
    }

    method StopAskingLinked()
      requires Covers() && Linked(w) && Held(w)
      modifies w.scheds`needConf, this`dispatchOk
      ensures Linked(w) && Held(w)
      ensures dispatchOk && forall s :: s in w.scheds ==> !s.needConf
    {
      StopAsking();
      forall s | s in w.scheds ensures SchedLinked(w, s) {
        assert old(SchedLinked(w, s));
      }
    }

    method StopAsking()
      requires Covers()
      modifies w.scheds`needConf, this`dispatchOk
      ensures dispatchOk && forall s :: s in w.scheds ==> s.needConf == (old(s.needConf) && s.conf != null)
    {
      dispatchOk := true;
      for i := 0 to |schedulers|
        invariant dispatchOk
        invariant forall k :: 0 <= k < |schedulers| ==>
                    schedulers[k].needConf == (old(schedulers[k].needConf) && (k < i ==> schedulers[k].conf != null))
      {
        if schedulers[i].conf == null {
          schedulers[i].needConf := false;
        }
      }
    }

    method CountMissing() returns (missed: nat)
      requires Covers() && Linked(w)
      ensures missed == 0 <==> AllAssigned(w)
    {
      missed := 0;
      for i := 0 to |realms|
        invariant missed == 0 <==> forall k :: 0 <= k < i ==> forall c :: c in realms[k].confs ==> c.isAssigned
      {
        assert Staffed(w, realms[i]);
        var todo := Unassigned(realms[i].confs);
        assert todo != [] ==> todo[0] in todo;
        missed := missed + |todo|;
      }
      if missed == 0 {
        forall c | c in w.confs ensures c.assignedTo != null {
          assert ConfLinked(w, c) && w.home[c] in realms && c in w.home[c].confs;
        }
      } else {
        var k :| 0 <= k < |realms| && !forall c :: c in realms[k].confs ==> c.isAssigned;
        assert HomeOf(w, realms[k]);
        var c :| c in realms[k].confs && !c.isAssigned;
        assert ConfLinked(w, c);
      }
    }

    // ----- dispatch: satellites -----

    /** Sends one configuration to satellites of all kinds. */
    method SendPage(page: Page, r: Realm, c: Conf, accepts: Accepts, ghost l: Log, ghost first: Told) returns (p: Page, ghost l': Log)
      requires Staffed(w, r) && Grounded(first, Tell(w.sats), accepts)
      requires PartSent(page, 0, r, c.id, c.pushFlavor, accepts, l, Tell(w.sats))
      modifies w.sats`active, w.sats`managedConfs
      ensures PartSent(p, |KINDS|, r, c.id, c.pushFlavor, accepts, l', Tell(w.sats))
      ensures Extends(l, l', c.id, c.pushFlavor) && Truthful(l, l', accepts, first)
      ensures Moved(old(Tell(w.sats)), Tell(w.sats), c.id, c.pushFlavor) && Grounded(first, Tell(w.sats), accepts)
      ensures PageGrown(page, p, r, c.id, c.pushFlavor, old(Tell(w.sats)), Tell(w.sats))
    {
      p, l' := page, l;
      for i := 0 to |KINDS|
        invariant PartSent(p, i, r, c.id, c.pushFlavor, accepts, l', Tell(w.sats))
        invariant Extends(l, l', c.id, c.pushFlavor) && Truthful(l, l', accepts, first)
        invariant Moved(old(Tell(w.sats)), Tell(w.sats), c.id, c.pushFlavor) && Grounded(first, Tell(w.sats), accepts)
        invariant PageGrown(page, p, r, c.id, c.pushFlavor, old(Tell(w.sats)), Tell(w.sats))
      {
        ghost var mid, told, q := l', Tell(w.sats), p;
        p, l' := SendKind(p, r, c, i, accepts, l', first);
        SendThen(l, mid, l', c.id, c.pushFlavor, accepts, first);
        MovedThen(old(Tell(w.sats)), told, Tell(w.sats), c.id, c.pushFlavor);
        GrownThen(page, q, p, r, c.id, c.pushFlavor, old(Tell(w.sats)), told, Tell(w.sats));
      }
    }

    method SendKind(page: Page, r: Realm, c: Conf, i: nat, accepts: Accepts, ghost l: Log, ghost first: Told) returns (p: Page, ghost l': Log)
      requires Staffed(w, r) && i < |KINDS| && Grounded(first, Tell(w.sats), accepts)
      requires PartSent(page, i, r, c.id, c.pushFlavor, accepts, l, Tell(w.sats))
      modifies w.sats`active, w.sats`managedConfs
      ensures PartSent(p, i + 1, r, c.id, c.pushFlavor, accepts, l', Tell(w.sats))
      ensures Extends(l, l', c.id, c.pushFlavor) && Truthful(l, l', accepts, first)
      ensures Moved(old(Tell(w.sats)), Tell(w.sats), c.id, c.pushFlavor) && Grounded(first, Tell(w.sats), accepts)
      ensures PageGrown(page, p, r, c.id, c.pushFlavor, old(Tell(w.sats)), Tell(w.sats))
    {
      var row;
      ghost var before := Tell(w.sats);
      assert Cleared(page.Of(KINDS[i]), r, KINDS[i], c.id, c.pushFlavor, l);
      row, l' := DispatchRow(page.Of(KINDS[i]), r, c, KINDS[i], accepts, w.sats, l, first);
      p := page.With(KINDS[i], row);
      KindSent(page, row, i, r, c.id, c.pushFlavor, accepts, l, l', before, Tell(w.sats));
    }

    /** Of the configurations, `done` have been sent and the others are ready to be. */
    ghost predicate Sent(done: set<Conf>, told: Told, accepts: Accepts)
      reads this`log, w.confs`pushFlavor, w.confs`assignedTo, w.realms`books
    {
      forall d {:trigger EntryOf(d)} :: d in w.confs ==>
        Listed(d) && if d in done then EntrySent(EntryOf(d), log, told, accepts) else EntryCleared(EntryOf(d), log, told)
    }

    method SendConf(r: Realm, c: Conf, ghost done: set<Conf>, accepts: Accepts, ghost first: Told)
      requires c in w.confs && c !in done && w.home[c] == r && Staffed(w, r)
      requires Sent(done, Tell(w.sats), accepts) && Grounded(first, Tell(w.sats), accepts)
      modifies r`books, this`log, w.sats`active, w.sats`managedConfs
      ensures Sent(done + {c}, Tell(w.sats), accepts) && Grounded(first, Tell(w.sats), accepts)
      ensures Truthful(old(log), log, accepts, first)
    {
      SendOwn(r, c, accepts, first);
      forall d | d in w.confs && d != c
        ensures Listed(d) && if d in done then EntrySent(EntryOf(d), log, Tell(w.sats), accepts) else EntryCleared(EntryOf(d), log, Tell(w.sats))
      {
        assert EntryOf(d) == old(EntryOf(d)) && old(Listed(d));
        EntryExtends(EntryOf(d), old(log), log, old(Tell(w.sats)), Tell(w.sats), accepts, c.id, c.pushFlavor);
      }
    }

    /** The configuration's own books. */
    method SendOwn(r: Realm, c: Conf, accepts: Accepts, ghost first: Told)
      requires c in w.confs && w.home[c] == r && Staffed(w, r) && Listed(c)
      requires EntryCleared(EntryOf(c), log, Tell(w.sats)) && Grounded(first, Tell(w.sats), accepts)
      modifies r`books, this`log, w.sats`active, w.sats`managedConfs
      ensures Listed(c) && EntrySent(EntryOf(c), log, Tell(w.sats), accepts) && Grounded(first, Tell(w.sats), accepts)
      ensures Extends(old(log), log, c.id, c.pushFlavor) && Truthful(old(log), log, accepts, first)
      ensures Moved(old(Tell(w.sats)), Tell(w.sats), c.id, c.pushFlavor)
      ensures forall d {:trigger EntryOf(d)} :: d in w.confs && d != c ==> EntryOf(d) == old(EntryOf(d))
    {
      ghost var e, before := EntryOf(c), Tell(w.sats);
      ghost var l;
      var page;
      ClearedStart(e, log, before, accepts);
      page, l := SendPage(r.books[c.id], r, c, accepts, log, first);
      ghost var after := Tell(w.sats);
      SentEnd(e, page, l, before, after, accepts);
      Write(r, c, page, accepts, l, after);
    }

    method Write(r: Realm, c: Conf, page: Page, ghost accepts: Accepts, ghost l: Log, ghost told: Told)
      requires c in w.confs && w.home[c] == r && told == Tell(w.sats) && EntrySent(EntryOf(c).(page := Some(page)), l, told, accepts)
      requires c.assignedTo == null ==> forall kind :: !page.Of(kind).need
      modifies r`books, this`log
      ensures log == l && EntrySent(EntryOf(c), l, told, accepts) && Listed(c) && told == Tell(w.sats)
      ensures forall d {:trigger EntryOf(d)} :: d in w.confs && d != c ==> EntryOf(d) == old(EntryOf(d))
    {
      r.books := r.books[c.id := page];
      log := l;
    }

    method SendRealm(r: Realm, ghost done: set<Conf>, accepts: Accepts, ghost first: Told)
      requires r in w.realms && Staffed(w, r) && forall c :: c in r.confs ==> c !in done
      requires Sent(done, Tell(w.sats), accepts) && Grounded(first, Tell(w.sats), accepts)
      modifies r`books, this`log, w.sats`active, w.sats`managedConfs
      ensures Sent(ListedUpto(done, r.confs, |r.confs|), Tell(w.sats), accepts) && Grounded(first, Tell(w.sats), accepts)
      ensures Truthful(old(log), log, accepts, first)
    {
      assert HomeOf(w, r);
      assert ListedUpto(done, r.confs, 0) == done;
      for i := 0 to |r.confs|
        invariant Sent(ListedUpto(done, r.confs, i), Tell(w.sats), accepts) && Grounded(first, Tell(w.sats), accepts)
        invariant Truthful(old(log), log, accepts, first)
      {
        SendNext(r, i, done, accepts, old(log), first);
      }
    }

    method SendNext(r: Realm, i: nat, ghost done: set<Conf>, accepts: Accepts, ghost l: Log, ghost first: Told)
      requires i < |r.confs| && Staffed(w, r) && r.confs[i] in w.confs && w.home[r.confs[i]] == r && r.confs[i] !in done
      requires Sent(ListedUpto(done, r.confs, i), Tell(w.sats), accepts) && Grounded(first, Tell(w.sats), accepts)
      requires Truthful(l, log, accepts, first)
      modifies r`books, this`log, w.sats`active, w.sats`managedConfs
      ensures Sent(ListedUpto(done, r.confs, i + 1), Tell(w.sats), accepts) && Grounded(first, Tell(w.sats), accepts)
      ensures Truthful(l, log, accepts, first)
    {
      ghost var mid := log;
      SendConf(r, r.confs[i], ListedUpto(done, r.confs, i), accepts, first);
      TruthfulThen(l, mid, log, accepts, first);
      ListedNext(done, r.confs, i);
    }

    method DispatchSatellites(accepts: Accepts, ghost first: Told)
      requires Covers() && AllCleared(first) && AllListed() && first == Tell(w.sats)
      modifies w.realms`books, this`log, w.sats`active, w.sats`managedConfs
      ensures Sent(w.confs, Tell(w.sats), accepts) && Truthful(old(log), log, accepts, first)
    {
      forall d | d in w.confs ensures Listed(d) && EntryCleared(EntryOf(d), log, first) {
      }
      for i := 0 to |realms|
        invariant Sent(InFirst(i), Tell(w.sats), accepts) && Grounded(first, Tell(w.sats), accepts)
        invariant Truthful(old(log), log, accepts, first)
      {
        ghost var mid := log;
        NextRealm(i);
        SendRealm(realms[i], InFirst(i), accepts, first);
        TruthfulThen(old(log), mid, log, accepts, first);
      }
      assert realms[..|realms|] == realms && InFirst(|realms|) == w.confs;
    }

    // ----- dispatch -----

    method Conclude(ghost lost: set<Conf>, accepts: Accepts, ghost told: Told)
      requires Covers() && Ready(lost, accepts, told) && !dispatchOk
      modifies w.scheds`needConf, this`dispatchOk
      ensures Ready(lost, accepts, told) && (dispatchOk <==> AllAssigned(w)) && (dispatchOk ==> forall s :: s in w.scheds ==> !s.needConf)
    {
      var missed := CountMissing();
      if missed == 0 {
        TagIdle(lost, accepts, told);
      }
    }

    /** Each configuration's books after the dispatch. */
    ghost predicate AllSent(told: Told, accepts: Accepts)
      reads this`log, w.confs`pushFlavor, w.confs`assignedTo, w.realms`books
    {
      forall c {:trigger EntrySent(EntryOf(c), log, told, accepts)} :: c in w.confs ==> EntrySent(EntryOf(c), log, told, accepts)
    }

    lemma SentBooked(told: Told, accepts: Accepts)
      requires AllSent(told, accepts)
      ensures AllBooked()
    {
      forall c | c in w.confs ensures EntryBooked(EntryOf(c), log) {
        assert EntrySent(EntryOf(c), log, told, accepts);
      }
    }

    method TellSatellites(ghost lost: set<Conf>, accepts: Accepts, ghost first: Told)
      requires Covers() && Ready(lost, accepts, first) && first == Tell(w.sats)
      modifies w.realms`books, this`log, w.sats`active, w.sats`managedConfs
      ensures Steady() && AllSent(Tell(w.sats), accepts)
      ensures Truthful(old(log), log, accepts, first)
    {
      DispatchSatellites(accepts, first);
      forall c | c in w.confs ensures EntrySent(EntryOf(c), log, Tell(w.sats), accepts) {
      }
      SentBooked(Tell(w.sats), accepts);
    }

    method DispatchAndConclude(ghost lost: set<Conf>, accepts: Accepts, ghost told: Told)
      requires Covers() && Consistent(told) && !dispatchOk
      requires forall c :: c in w.confs ==> (c in lost <==> c.assignedTo == null)
      modifies w.realms`books, w.confs`isAssigned, w.confs`assignedTo, w.confs`pushFlavor
      modifies w.scheds`conf, w.scheds`pushFlavor, w.scheds`needConf, w.scheds`managedConfs, this`dispatchOk
      ensures Ready(lost, accepts, told) && AllGranted(lost, accepts)
      ensures forall c :: c in w.confs && c !in lost ==> LeaseOf(c) == old(LeaseOf(c))
      ensures dispatchOk <==> AllAssigned(w)
    {
      ghost var was := Leases();
      DispatchSchedulers(lost, accepts, told);
      ConcludeKeeping(lost, accepts, told, was);
    }

    ghost function Leases(): map<Conf, Lease>
      reads w.confs`assignedTo, w.confs`pushFlavor
    {
      map c | c in w.confs :: LeaseOf(c)
    }

    ghost predicate Unmoved(lost: set<Conf>, was: map<Conf, Lease>)
      reads w.confs`assignedTo, w.confs`pushFlavor
    {
      forall c {:trigger LeaseOf(c)} :: c in w.confs && c !in lost ==> c in was && LeaseOf(c) == was[c]
    }

    method ConcludeKeeping(ghost lost: set<Conf>, accepts: Accepts, ghost told: Told, ghost was: map<Conf, Lease>)
      requires Covers() && Ready(lost, accepts, told) && !dispatchOk && AllGranted(lost, accepts) && Unmoved(lost, was)
      modifies w.scheds`needConf, this`dispatchOk
      ensures Ready(lost, accepts, told) && AllGranted(lost, accepts) && Unmoved(lost, was) && (dispatchOk <==> AllAssigned(w))
    {
      Conclude(lost, accepts, told);
    }

    /** What is known of satellites does not change while schedulers are served. */
    method ServeSchedulers(ghost lost: set<Conf>, accepts: Accepts, ghost told: Told)
      requires Covers() && Consistent(told) && !dispatchOk && told == Tell(w.sats)
      requires forall c :: c in w.confs ==> (c in lost <==> c.assignedTo == null)
      modifies w.realms`books, w.confs`isAssigned, w.confs`assignedTo, w.confs`pushFlavor
      modifies w.scheds`conf, w.scheds`pushFlavor, w.scheds`needConf, w.scheds`managedConfs, this`dispatchOk
      ensures Ready(lost, accepts, told) && AllGranted(lost, accepts) && told == Tell(w.sats)
      ensures forall c :: c in w.confs && c !in lost ==> LeaseOf(c) == old(LeaseOf(c))
      ensures dispatchOk <==> AllAssigned(w)
    {
      DispatchAndConclude(lost, accepts, told);
      forall s | s in w.sats ensures Known(s) == told[s] {
        assert s !in w.scheds && told[s] == old(Known(s));
      }
    }

    /** Nobody who holds a configuration loses it; whoever newly holds one acknowledged it;
        one is left unassigned, or flagged for satellites, only if everyone was asked. Every
        send is noted truly. `lost` are the configurations unassigned before. */
    method Dispatch(accepts: Accepts, ghost lost: set<Conf>)
      requires Covers() && Steady() && AllSettled(w) && AllCleared(Tell(w.sats)) && Halfway(w.confs, Tell(w.sats))
      requires dispatchOk ==> AllAssigned(w)
      requires forall c :: c in w.confs ==> (c in lost <==> c.assignedTo == null)
      modifies w.realms`books, w.confs`isAssigned, w.confs`assignedTo, w.confs`pushFlavor
      modifies w.scheds`conf, w.scheds`pushFlavor, w.scheds`needConf, w.scheds`managedConfs
      modifies this`log, this`dispatchOk, w.sats`active, w.sats`managedConfs
      ensures Steady() && AllSettled(w) && AllSent(Tell(w.sats), accepts) && AllExhausted(w, lost, accepts) && AllGranted(lost, accepts)
      ensures forall c :: c in w.confs && c !in lost ==> LeaseOf(c) == old(LeaseOf(c))
      ensures Truthful(old(log), log, accepts, old(Tell(w.sats)))
      ensures dispatchOk <==> AllAssigned(w)
      ensures old(dispatchOk) ==> log == old(log) && Entries() == old(Entries()) && Tell(w.sats) == old(Tell(w.sats))
    {
      if !dispatchOk {
        DispatchAnew(accepts, lost, Tell(w.sats));
      } else {
        NothingToDo(lost, accepts);
      }
    }

    method DispatchAnew(accepts: Accepts, ghost lost: set<Conf>, ghost told: Told)
      requires Covers() && Consistent(told) && !dispatchOk && told == Tell(w.sats)
      requires forall c :: c in w.confs ==> (c in lost <==> c.assignedTo == null)
      modifies w.realms`books, w.confs`isAssigned, w.confs`assignedTo, w.confs`pushFlavor
      modifies w.scheds`conf, w.scheds`pushFlavor, w.scheds`needConf, w.scheds`managedConfs
      modifies this`log, this`dispatchOk, w.sats`active, w.sats`managedConfs
      ensures Steady() && AllSettled(w) && AllSent(Tell(w.sats), accepts) && AllExhausted(w, lost, accepts) && AllGranted(lost, accepts)
      ensures forall c :: c in w.confs && c !in lost ==> LeaseOf(c) == old(LeaseOf(c))
      ensures Truthful(old(log), log, accepts, told)
      ensures dispatchOk <==> AllAssigned(w)
    {
      ServeSchedulers(lost, accepts, told);
      TellKeeping(lost, accepts, told);
    }

    /** Telling satellites does not touch what schedulers were given. */
    method TellKeeping(ghost lost: set<Conf>, accepts: Accepts, ghost first: Told)
      requires Covers() && Ready(lost, accepts, first) && first == Tell(w.sats)
      requires AllGranted(lost, accepts) && (dispatchOk <==> AllAssigned(w))
      modifies w.realms`books, this`log, w.sats`active, w.sats`managedConfs
      ensures Steady() && AllSettled(w) && AllSent(Tell(w.sats), accepts) && AllExhausted(w, lost, accepts)
      ensures AllGranted(lost, accepts) && (dispatchOk <==> AllAssigned(w))
      ensures Truthful(old(log), log, accepts, first)
    {
      TellSettled(lost, accepts, first);
    }

    method TellSettled(ghost lost: set<Conf>, accepts: Accepts, ghost first: Told)
      requires Covers() && Ready(lost, accepts, first) && first == Tell(w.sats)
      modifies w.realms`books, this`log, w.sats`active, w.sats`managedConfs
      ensures Steady() && AllSettled(w) && AllSent(Tell(w.sats), accepts) && Truthful(old(log), log, accepts, first)
    {
      TellSatellites(lost, accepts, first);
      forall c | c in w.confs ensures Settled(c, w) {
        assert old(Settled(c, w)) && (c.assignedTo in w.scheds ==> c.assignedTo !in w.sats);
      }
    }

    lemma NothingToDo(lost: set<Conf>, accepts: Accepts)
      requires dispatchOk && AllAssigned(w) && Halfway(w.confs, Tell(w.sats))
      requires forall c :: c in w.confs ==> (c in lost <==> c.assignedTo == null)
      ensures AllSent(Tell(w.sats), accepts) && AllExhausted(w, lost, accepts) && AllGranted(lost, accepts)
    {
      forall c | c in w.confs ensures EntrySent(EntryOf(c), log, Tell(w.sats), accepts) {
        CheckedSent(EntryOf(c), log, Tell(w.sats), accepts);
      }
    }

    // ----- Rounds -----

    /** The scheduler of the configuration will be found alive and managing it. */
    ghost predicate StaysFit(c: Conf, report: Link -> Option<Report>)
      reads c`assignedTo, c`pushFlavor, w.scheds`alive, w.scheds`reachable, w.scheds`managedConfs
    {
      && c.assignedTo != null && c.assignedTo in w.scheds
      && var k := Heard(report(c.assignedTo), Known(c.assignedTo));
         k.alive && k.Manages(c.id, c.pushFlavor)
    }

    ghost function LostBy(report: Link -> Option<Report>): set<Conf>
      reads w.confs`assignedTo, w.confs`pushFlavor, w.scheds`alive, w.scheds`reachable, w.scheds`managedConfs
    {
      set c | c in w.confs && !StaysFit(c, report)
    }

    /** What is known of the satellites once they have been asked. */
    ghost function HeardOf(report: Link -> Option<Report>): Told
      reads w.sats`alive, w.sats`reachable, w.sats`managedConfs
    {
      map s | s in w.sats :: Heard(report(s), Known(s))
    }

    /** The check after this report will find the dispatch still right. */
    ghost predicate StaysRight(report: Link -> Option<Report>)
      reads this`dispatchOk, w.confs`assignedTo, w.confs`pushFlavor, w.scheds`alive, w.scheds`reachable, w.scheds`managedConfs
      reads w.sats`alive, w.sats`reachable, w.sats`managedConfs, w.realms`books
    {
      dispatchOk && LostBy(report) == {} && AllFine(HeardOf(report))
    }

    /** Look and check. The dispatch is still right exactly if no configuration is lost and
        the books of all are fine by what satellites tell; then the books stay. */
    method Inspect(report: Link -> Option<Report>)
      requires Covers() && Steady()
      modifies w.scheds`alive, w.scheds`reachable, w.scheds`managedConfs, w.scheds`needConf, w.scheds`conf, w.scheds`pushFlavor
      modifies w.sats`alive, w.sats`reachable, w.sats`managedConfs, w.sats`needConf
      modifies w.confs`isAssigned, w.confs`assignedTo, w.confs`pushFlavor, this`dispatchOk, w.realms`books
      ensures Steady() && AllSettled(w) && AllCleared(Tell(w.sats)) && Halfway(w.confs, Tell(w.sats))
      ensures dispatchOk ==> AllAssigned(w)
      ensures forall c :: c in w.confs ==> if c in old(LostBy(report)) then c.assignedTo == null else LeaseOf(c) == old(LeaseOf(c))
      ensures Tell(w.sats) == old(HeardOf(report))
      ensures dispatchOk <==> old(StaysRight(report))
      ensures dispatchOk ==> Entries() == old(Entries())
    {
      Ask(report);
      CheckDispatch();
    }

    method Ask(report: Link -> Option<Report>)
      requires Covers() && Steady()
      modifies w.scheds`alive, w.scheds`reachable, w.scheds`managedConfs, w.scheds`needConf
      modifies w.sats`alive, w.sats`reachable, w.sats`managedConfs, w.sats`needConf
      ensures Linked(w) && AllBooked() && Tell(w.sats) == old(HeardOf(report)) && Entries() == old(Entries())
      ensures forall c :: c in w.confs ==> (Fit(c, w) <==> c !in old(LostBy(report)))
      ensures dispatchOk && HeldRightly() && AllFine(Tell(w.sats)) <==> old(StaysRight(report))
    {
      ghost var lost := LostBy(report);
      Listen(report);
      HeldIff(lost);
    }

    method Listen(report: Link -> Option<Report>)
      requires Covers() && Steady()
      modifies w.scheds`alive, w.scheds`reachable, w.scheds`managedConfs, w.scheds`needConf
      modifies w.sats`alive, w.sats`reachable, w.sats`managedConfs, w.sats`needConf
      ensures Linked(w) && AllBooked() && Tell(w.sats) == old(HeardOf(report)) && Entries() == old(Entries())
      ensures forall c :: c in w.confs ==> (Fit(c, w) <==> c !in old(LostBy(report)))
    {
      CheckAlive(report);
      forall c | c in w.confs ensures Fit(c, w) <==> c !in old(LostBy(report)) {
      }
      assert Tell(w.sats) == old(HeardOf(report));
    }

    lemma HeldIff(lost: set<Conf>)
      requires lost <= w.confs && forall c :: c in w.confs ==> (Fit(c, w) <==> c !in lost)
      ensures HeldRightly() <==> lost == {}
    {
    }

    /** Exactly the configurations whose scheduler is found dead, or not managing them, are
        lost. Of these, each is given to a scheduler that acknowledged it, or all candidates
        were tried; all others stay where they are. No manager of a held configuration is in
        trouble, and each was last sent its flavor, by a log that notes sends truly. */
    method Round(report: Link -> Option<Report>, accepts: Accepts)
      requires Covers() && Steady()
      modifies this, w.realms`books, w.confs, w.scheds, w.sats
      ensures Covers() && Steady() && AllSettled(w) && (dispatchOk <==> AllAssigned(w))
      ensures forall c :: c in w.confs && c !in old(LostBy(report)) ==>
                c.assignedTo == old(c.assignedTo) && c.pushFlavor == old(c.pushFlavor)
      ensures AllGranted(old(LostBy(report)), accepts) && AllExhausted(w, old(LostBy(report)), accepts)
      ensures AllSent(Tell(w.sats), accepts) && Truthful(old(log), log, accepts, old(HeardOf(report)))
      ensures old(StaysRight(report)) ==> log == old(log) && Entries() == old(Entries()) && Tell(w.sats) == old(HeardOf(report))
    {
      ghost var lost := LostBy(report);
      Inspect(report);
      assert forall c :: c in w.confs ==> (c in lost <==> c.assignedTo == null);
      Dispatch(accepts, lost);
    }

    /** What a round leaves: rightful holders, books of all configurations, and the dispatch
        right exactly if all is assigned. */
    ghost predicate Concluded(accepts: Accepts)
      reads this, w.confs, w.scheds, w.realms`books, w.sats
    {
      AllSettled(w) && AllSent(Tell(w.sats), accepts) && (dispatchOk <==> AllAssigned(w))
    }

    method NextRound(report: Link -> Option<Report>, accepts: Accepts, ghost l: Log)
      requires Covers() && Steady() && l <= log
      modifies this, w.realms`books, w.confs, w.scheds, w.sats
      ensures Steady() && Concluded(accepts) && l <= log
    {
      Round(report, accepts);
    }

    /** Any number of rounds, whatever the satellites tell and whatever they acknowledge. */
    method Run(reports: seq<Link -> Option<Report>>, acks: seq<Accepts>)
      requires Covers() && Steady() && |reports| == |acks|
      modifies this, w.realms`books, w.confs, w.scheds, w.sats
      ensures Steady() && old(log) <= log
      ensures reports != [] ==> Concluded(acks[|acks| - 1])
    {
      for i := 0 to |reports|
        invariant Steady() && old(log) <= log
        invariant i > 0 ==> Concluded(acks[i - 1])
      {
        NextRound(reports[i], acks[i], old(log));
      }
    }

    /** Everybody is found as known. */
    ghost predicate AsKnown(report: Link -> Option<Report>)
      reads w.scheds`alive, w.scheds`reachable, w.scheds`managedConfs, w.sats`alive, w.sats`reachable, w.sats`managedConfs
    {
      && (forall s :: s in w.scheds ==> Heard(report(s), Known(s)) == Known(s))
      && (forall s :: s in w.sats ==> Heard(report(s), Known(s)) == Known(s))
    }

    /** No entry is flagged for satellites. */
    ghost predicate NoneFlagged()
      reads w.confs`pushFlavor, w.confs`assignedTo, w.realms`books
    {
      forall c {:trigger EntryOf(c)} :: c in w.confs ==> EntryOf(c).Unflagged()
    }

    /** After a round that assigned everything, a round in which everybody is as known loses
        nothing, and the dispatch stays right exactly if no entry was flagged. */
    lemma QuietStaysRight(report: Link -> Option<Report>, accepts: Accepts)
      requires AllSettled(w) && AllSent(Tell(w.sats), accepts) && dispatchOk && AllAssigned(w) && AsKnown(report)
      ensures LostBy(report) == {} && (StaysRight(report) <==> NoneFlagged())
    {
      forall c | c in w.confs ensures StaysFit(c, report) {
        assert Settled(c, w);
      }
      assert HeardOf(report) == Tell(w.sats);
      forall c | c in w.confs
        ensures EntryFine(EntryOf(c), Tell(w.sats)) <==> EntryOf(c).Unflagged()
      {
        assert EntrySent(EntryOf(c), log, Tell(w.sats), accepts);
        SentFine(EntryOf(c), log, Tell(w.sats), accepts);
      }
      assert forall c :: c in w.confs ==> Entries()[c] == EntryOf(c);
    }

    /** In a classic realm that needs two brokers or more a configuration with books is never
        found right. */
    lemma ClassicNeverRight(report: Link -> Option<Report>, c: Conf)
      requires AllBooked() && c in w.confs && EntryOf(c).page.Some?
      requires !w.home[c].brokerCompleteLinks && w.home[c].MustHave(Broker) >= 2
      ensures !StaysRight(report)
    {
      var e := EntryOf(c);
      assert EntryBooked(e, log) && Booked(e.page.value.Of(Broker), e.realm, Broker, e.id, e.flavor, log);
      assert !FineIn(e.page.value.Of(Broker).managers, e.realm.MustHave(Broker), e.id, e.flavor, HeardOf(report));
      assert !EntryFine(Entries()[c], HeardOf(report));
    }

    /** What a dispatch that passes the check amounts to. */
    lemma RightDispatch(told: Told, c: Conf, kind: Kind)
      requires c in w.confs && AllSettled(w) && AllAssigned(w) && dispatchOk && Halfway(w.confs, told)
      ensures c.assignedTo in w.scheds && c.assignedTo.alive && c.assignedTo.Manages(c.id, c.pushFlavor)
      ensures EntryOf(c).page.Some? && Served(EntryOf(c).page.value.Of(kind), w.home[c], kind, c.id, c.pushFlavor, told)
    {
      assert Settled(c, w);
      assert EntryChecked(EntryOf(c), dispatchOk, log, told);
    }
  }

  /** Of the entries, those of `done` have been checked and the others are in order. */
  ghost predicate HalfwayOf(es: map<Conf, Entry>, ok: bool, done: set<Conf>, l: Log, told: Told) {
    forall d {:trigger es[d]} :: d in es ==> if d in done then EntryChecked(es[d], ok, l, told) else EntryBooked(es[d], l)
  }

  ghost predicate TrackedOf(es: map<Conf, Entry>, ok: bool, done: set<Conf>, was: map<Conf, Entry>, start: bool, told: Told) {
    && es.Keys == was.Keys && (ok <==> start && forall d {:trigger was[d]} :: d in done && d in was ==> EntryFine(was[d], told))
    && forall d {:trigger es[d]} {:trigger was[d]} :: d in was && (ok || d !in done) ==> es[d] == was[d]
  }

  /** What was sent is fine exactly if nothing is flagged. */
  lemma SentFine(e: Entry, l: Log, told: Told, accepts: Accepts)
    requires EntrySent(e, l, told, accepts) && e.holder != null
    ensures EntryFine(e, told) <==> e.Unflagged()
  {
    forall kind
      ensures FineIn(e.page.value.Of(kind).managers, e.realm.MustHave(kind), e.id, e.flavor, told) <==> !e.page.value.Of(kind).need
    {
      assert Booked(e.page.value.Of(kind), e.realm, kind, e.id, e.flavor, l);
      assert Full(e.page.value.Of(kind), e.realm, kind) && Healthy(e.page.value.Of(kind), e.id, e.flavor, told);
    }
  }

  // ----- Sending one configuration, as values -----

  /** What holds of the entries of a configuration once those of the first `n` kinds have
      been sent: `told` is what is known of satellites. */
  ghost predicate PartSent(p: Page, n: nat, r: Realm, id: nat, flavor: nat, accepts: Accepts, l: Log, told: Told) {
    && (forall j :: 0 <= j < n && j < |KINDS| ==>
          Booked(p.Of(KINDS[j]), r, KINDS[j], id, flavor, l) && Asked(p.Of(KINDS[j]), r, KINDS[j], id, told, accepts))
    && (forall j :: n <= j < |KINDS| ==> Cleared(p.Of(KINDS[j]), r, KINDS[j], id, flavor, l))
  }

  /** An entry keeps whom it is about and gets no flag, stays complete and in health. */
  ghost predicate Grown(before: Row, after: Row, r: Realm, kind: Kind, id: nat, flavor: nat, told: Told, told': Told) {
    && after.to == before.to && (after.need ==> before.need)
    && (Full(before, r, kind) ==> Full(after, r, kind))
    && (Healthy(before, id, flavor, told) ==> Healthy(after, id, flavor, told'))
  }

  ghost predicate PageGrown(before: Page, after: Page, r: Realm, id: nat, flavor: nat, told: Told, told': Told) {
    forall kind :: Grown(before.Of(kind), after.Of(kind), r, kind, id, flavor, told, told')
  }

  lemma GrownThen(a: Page, b: Page, c: Page, r: Realm, id: nat, flavor: nat, told: Told, told': Told, told'': Told)
    requires PageGrown(a, b, r, id, flavor, told, told') && PageGrown(b, c, r, id, flavor, told', told'')
    ensures PageGrown(a, c, r, id, flavor, told, told'')
  {
    forall kind ensures Grown(a.Of(kind), c.Of(kind), r, kind, id, flavor, told, told'') {
      assert Grown(a.Of(kind), b.Of(kind), r, kind, id, flavor, told, told');
      assert Grown(b.Of(kind), c.Of(kind), r, kind, id, flavor, told', told'');
    }
  }

  lemma SendThen(l: Log, mid: Log, l': Log, id: nat, flavor: nat, accepts: Accepts, first: Told)
    requires Extends(l, mid, id, flavor) && Truthful(l, mid, accepts, first)
    requires Extends(mid, l', id, flavor) && Truthful(mid, l', accepts, first)
    ensures Extends(l, l', id, flavor) && Truthful(l, l', accepts, first)
  {
    TruthfulThen(l, mid, l', accepts, first);
    forall k | |l| <= k < |l'| ensures l'[k].id == id && l'[k].flavor == flavor {
      if k < |mid| {
        assert l'[k] == mid[k];
      }
    }
  }

  lemma AskedMoved(row: Row, r: Realm, kind: Kind, id: nat, before: Told, after: Told, accepts: Accepts, sent: nat, f: nat)
    requires Asked(row, r, kind, id, before, accepts) && Moved(before, after, sent, f)
    ensures Asked(row, r, kind, id, after, accepts)
  {
    SendListMoved(r, id, kind, before, after, sent, f);
  }

  /** One kind more has been sent; the others do not notice. */
  lemma KindSent(page: Page, row: Row, i: nat, r: Realm, id: nat, flavor: nat, accepts: Accepts, l: Log, l': Log, told: Told, told': Told)
    requires i < |KINDS| && PartSent(page, i, r, id, flavor, accepts, l, told)
    requires Extends(l, l', id, flavor) && Moved(told, told', id, flavor)
    requires Booked(row, r, KINDS[i], id, flavor, l') && Asked(row, r, KINDS[i], id, told', accepts)
    requires row.to == page.Of(KINDS[i]).to
    requires if page.Of(KINDS[i]).need then Full(row, r, KINDS[i]) && Healthy(row, id, flavor, told') else row == page.Of(KINDS[i])
    ensures PartSent(page.With(KINDS[i], row), i + 1, r, id, flavor, accepts, l', told')
    ensures PageGrown(page, page.With(KINDS[i], row), r, id, flavor, told, told')
  {
    var p := page.With(KINDS[i], row);
    forall j | 0 <= j < |KINDS| && j != i
      ensures p.Of(KINDS[j]) == page.Of(KINDS[j]) && Sound(page.Of(KINDS[j]), r, KINDS[j], id, flavor, l')
      ensures j < i ==> Asked(page.Of(KINDS[j]), r, KINDS[j], id, told', accepts)
    {
      KindsDistinct(i, j);
      SoundExtends(page.Of(KINDS[j]), r, KINDS[j], id, flavor, l, l', id, flavor);
      if j < i {
        AskedMoved(page.Of(KINDS[j]), r, KINDS[j], id, told, told', accepts, id, flavor);
      }
    }
    forall kind ensures Grown(page.Of(kind), p.Of(kind), r, kind, id, flavor, told, told') {
      if Healthy(page.Of(kind), id, flavor, told) {
        HealthyMoved(page.Of(kind), id, flavor, told, told', id, flavor);
      }
    }
  }

  lemma KindsApart(i: nat)
    requires i < |KINDS|
    ensures forall j :: 0 <= j < |KINDS| && j != i ==> KINDS[j] != KINDS[i]
  {
  }

  lemma KindsDistinct(i: nat, j: nat)
    requires i < |KINDS| && j < |KINDS| && i != j
    ensures KINDS[i] != KINDS[j]
  {
  }

  lemma SoundExtends(row: Row, r: Realm, kind: Kind, id: nat, flavor: nat, l: Log, l': Log, sent: nat, f: nat)
    requires Sound(row, r, kind, id, flavor, l) && Extends(l, l', sent, f) && (id == sent ==> flavor == f)
    ensures Sound(row, r, kind, id, flavor, l')
  {
    if flavor != 0 {
      forall s | s in row.managers ensures Confirmed(l', s, id, flavor) {
        ConfirmedExtends(l, l', sent, f, s, id, flavor);
      }
    }
  }

  /** Sending one configuration does not disturb the books of others. */
  lemma EntryExtends(e: Entry, l: Log, l': Log, told: Told, told': Told, accepts: Accepts, sent: nat, f: nat)
    requires Extends(l, l', sent, f) && Moved(told, told', sent, f) && e.id != sent && !e.Blank()
    ensures EntrySent(e, l, told, accepts) ==> EntrySent(e, l', told', accepts)
    ensures EntryCleared(e, l, told) ==> EntryCleared(e, l', told')
  {
    if EntrySent(e, l, told, accepts) || EntryCleared(e, l, told) {
      forall kind
        ensures Sound(e.page.value.Of(kind), e.realm, kind, e.id, e.flavor, l')
        ensures e.holder != null ==> Healthy(e.page.value.Of(kind), e.id, e.flavor, told')
        ensures EntrySent(e, l, told, accepts) ==> Asked(e.page.value.Of(kind), e.realm, kind, e.id, told', accepts)
      {
        var row := e.page.value.Of(kind);
        SoundExtends(row, e.realm, kind, e.id, e.flavor, l, l', sent, f);
        if e.holder != null {
          HealthyMoved(row, e.id, e.flavor, told, told', sent, f);
        }
        if EntrySent(e, l, told, accepts) {
          AskedMoved(row, e.realm, kind, e.id, told, told', accepts, sent, f);
        }
      }
    }
  }

  lemma ClearedStart(e: Entry, l: Log, told: Told, accepts: Accepts)
    requires EntryCleared(e, l, told) && e.page.Some?
    ensures PartSent(e.page.value, 0, e.realm, e.id, e.flavor, accepts, l, told)
  {
  }

  /** The entry of a configuration after it has been sent. */
  lemma SentEnd(e: Entry, p: Page, l: Log, told: Told, told': Told, accepts: Accepts)
    requires e.ToHolder() && EntryHealthy(e, told)
    requires PartSent(p, |KINDS|, e.realm, e.id, e.flavor, accepts, l, told')
    requires PageGrown(e.page.value, p, e.realm, e.id, e.flavor, told, told')
    ensures EntrySent(e.(page := Some(p)), l, told', accepts)
    ensures (forall kind :: !e.page.value.Of(kind).need) ==> forall kind :: !p.Of(kind).need
  {
    forall kind
      ensures Booked(p.Of(kind), e.realm, kind, e.id, e.flavor, l) && Asked(p.Of(kind), e.realm, kind, e.id, told', accepts)
      ensures Grown(e.page.value.Of(kind), p.Of(kind), e.realm, kind, e.id, e.flavor, told, told')
    {
      var j := KindsCover(kind);
    }
  }
}
