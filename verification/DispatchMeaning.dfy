/** What the invariants and results of `shinken/dispatcher.py` say of the fields of links,
    configurations and realms. */
module DispatchMeaning {
  import opened Lists
  import opened Options
  import opened DispatchOrder
  import opened DispatchLinks
  import opened DispatchSlots
  import opened Dispatchers

  // ----- Schedulers -----

  /** A configuration left over after a round: every living scheduler of its realm, and every
      living spare of a realm above, that still asks refuses a configuration of the realm. */
  lemma LeftOver(d: Dispatcher, r: Realm, lost: set<Conf>, accepts: Accepts, c: Conf, s: Link)
    requires AllExhausted(d.w, lost, accepts) && r in d.w.realms && c in d.w.confs && d.w.home[c] == r && c.assignedTo == null
    requires s in d.w.scheds && s.alive && s.needConf
    requires s in r.schedulers || (s.spare && exists h :: h in r.higherRealms && s in h.schedulers)
    ensures exists k :: k in d.w.confs && d.w.home[k] == r && k in lost && !accepts(s, k.id)
  {
    assert Exhausted(d.w, r, lost, accepts);
  }

  /** If a configuration was newly given to a spare, so does every regular scheduler of the
      realm that is alive and still asks. */
  lemma GivenToSpare(d: Dispatcher, r: Realm, lost: set<Conf>, accepts: Accepts, c: Conf, s: Link)
    requires AllExhausted(d.w, lost, accepts) && r in d.w.realms && c in d.w.confs && d.w.home[c] == r && c in lost
    requires c.assignedTo != null && c.assignedTo.spare
    requires s in d.w.scheds && s in r.schedulers && !s.spare && s.alive && s.needConf
    ensures exists k :: k in d.w.confs && d.w.home[k] == r && k in lost && !accepts(s, k.id)
  {
    assert Exhausted(d.w, r, lost, accepts);
  }

  /** Whoever newly holds a configuration may be used by its realm, is alive and acknowledged
      it. */
  lemma NewlyGiven(d: Dispatcher, lost: set<Conf>, accepts: Accepts, c: Conf)
    requires d.AllGranted(lost, accepts) && c in d.w.confs && c in lost && c.assignedTo != null
    ensures var s, r := c.assignedTo, d.w.home[c];
            && s.alive && accepts(s, c.id)
            && (s in r.schedulers || (s.spare && exists h :: h in r.higherRealms && s in h.schedulers))
  {
    assert d.NewHolder(c, d.w.home[c], accepts);
  }

  /** Whoever holds a configuration points back at it, is alive, asks for nothing and is known
      to manage it in its flavor. */
  lemma HolderIs(d: Dispatcher, c: Conf)
    requires d.Steady() && AllSettled(d.w) && c in d.w.confs && c.assignedTo != null
    ensures var s := c.assignedTo;
            && c.isAssigned && s in d.w.scheds && s.conf == c && s.pushFlavor == c.pushFlavor > 0
            && s.alive && !s.needConf && c.id in s.managedConfs && s.managedConfs[c.id] == c.pushFlavor
  {
    assert ConfLinked(d.w, c) && Settled(c, d.w);
  }

  /** A configuration is lost exactly if it has no scheduler, or its scheduler is found, or if
      not asked was known to be, dead or not managing it in its flavor. */
  lemma LostIs(d: Dispatcher, report: Link -> Option<Report>, c: Conf)
    requires d.Steady() && c in d.w.confs
    ensures c in d.LostBy(report) <==>
            || c.assignedTo == null
            || match report(c.assignedTo)
               case Some(k) => !k.alive || c.id !in k.managedConfs || k.managedConfs[c.id] != c.pushFlavor
               case None =>
                 !c.assignedTo.alive || c.id !in c.assignedTo.managedConfs || c.assignedTo.managedConfs[c.id] != c.pushFlavor
  {
    assert ConfLinked(d.w, c);
  }

  /** After the ping each element is as it told, or as before if it was not asked. */
  lemma KnownIs(s: Link, report: Option<Report>, before: Report)
    requires Known(s) == Heard(report, before)
    ensures s.alive == (if report.Some? then report.value else before).alive
    ensures s.reachable == (if report.Some? then report.value else before).reachable
    ensures s.managedConfs == (if report.Some? then report.value else before).managedConfs
  {
  }

  // ----- Satellites -----

  /** For each kind the books of a held configuration name its holder and distinct satellites
      of the realm, each alive, managing the configuration unless it cannot be reached, and
      last confirmed in its flavor. A flag means that some are missing, and then whoever else
      is alive and reachable refuses. */
  lemma BooksAre(d: Dispatcher, accepts: Accepts, c: Conf, kind: Kind)
    requires d.Steady() && d.AllSent(Tell(d.w.sats), accepts) && c in d.w.confs && c.assignedTo != null
    ensures var r := d.w.home[c];
            && c.id in r.books
            && var row := r.books[c.id].Of(kind);
               && row.to == c.assignedTo && Distinct(row.managers)
               && (kind !in r.mustHave ==> row.managers == [])
               && (kind in r.mustHave ==>
                     && |row.managers| <= r.mustHave[kind] && (row.need <==> |row.managers| < r.mustHave[kind]))
               && (kind == Broker && !r.brokerCompleteLinks ==> |row.managers| <= 1)
               && forall s :: s in row.managers ==>
                    && kind in r.potential && s in r.potential[kind] && s.alive
                    && (!s.reachable || (c.id in s.managedConfs && s.managedConfs[c.id] == c.pushFlavor))
                    && LastFlavor(d.log, s, c.id) == Some(c.pushFlavor)
  {
    var e := d.EntryOf(c);
    assert EntrySent(e, d.log, Tell(d.w.sats), accepts) && ConfLinked(d.w, c);
    var row := e.page.value.Of(kind);
    assert Booked(row, e.realm, kind, e.id, e.flavor, d.log) && Healthy(row, e.id, e.flavor, Tell(d.w.sats));
    assert Full(row, e.realm, kind);
    forall s | s in row.managers ensures Known(s) == Tell(d.w.sats)[s] && Confirmed(d.log, s, e.id, e.flavor) {
    }
  }

  lemma FlagMeansAsked(d: Dispatcher, accepts: Accepts, c: Conf, kind: Kind, s: Link)
    requires d.AllSent(Tell(d.w.sats), accepts) && c in d.w.confs && c.assignedTo != null
    requires c.id in d.w.home[c].books && d.w.home[c].books[c.id].Of(kind).need
    requires !(kind == Broker && !d.w.home[c].brokerCompleteLinks)
    requires kind in d.w.home[c].potential && s in d.w.home[c].potential[kind] && s in d.w.sats && s.alive && s.reachable
    ensures s in d.w.home[c].books[c.id].Of(kind).managers || !accepts(s, c.id)
  {
    var e := d.EntryOf(c);
    assert EntrySent(e, d.log, Tell(d.w.sats), accepts);
    assert Asked(e.page.value.Of(kind), e.realm, kind, e.id, Tell(d.w.sats), accepts);
    assert Tell(d.w.sats)[s] == Known(s);
  }

  /** What was last confirmed of a satellite is the flavor of its last acknowledged event. */
  lemma {:induction false} LastFlavorIs(log: Log, s: Link, id: nat, flavor: nat)
    requires LastFlavor(log, s, id) == Some(flavor)
    ensures exists k ::
              && 0 <= k < |log| && log[k] == Event(s, id, flavor, true)
              && forall j :: k < j < |log| && log[j].link == s && log[j].id == id ==> !log[j].ok
    decreases |log|
  {
    var e := log[|log| - 1];
    if e.ok && e.link == s && e.id == id {
      assert log[|log| - 1] == Event(s, id, flavor, true);
    } else {
      var init := log[..|log| - 1];
      LastFlavorIs(init, s, id, flavor);
      var k :| 0 <= k < |init| && init[k] == Event(s, id, flavor, true)
               && forall j :: k < j < |init| && init[j].link == s && init[j].id == id ==> !init[j].ok;
      assert log[k] == init[k];
      assert forall j :: k < j < |init| ==> log[j] == init[j];
    }
  }

  /** The books are fine exactly if no kind has too few managers and none of them is, by what
      was told, dead or reachable without managing the configuration. */
  lemma FineIs(d: Dispatcher, told: Told)
    ensures d.AllFine(told) <==>
            forall c, kind {:trigger d.EntryOf(c), d.w.home[c].MustHave(kind)} :: c in d.w.confs && c.id in d.w.home[c].books ==>
              var m := d.w.home[c].books[c.id].Of(kind).managers;
              && |m| >= d.w.home[c].MustHave(kind)
              && forall s :: s in m ==>
                   && s in told && told[s].alive
                   && (c.pushFlavor == 0 || !told[s].reachable
                       || (c.id in told[s].managedConfs && told[s].managedConfs[c.id] == c.pushFlavor))
  {
    forall c | c in d.w.confs ensures d.Entries()[c] == d.EntryOf(c) {
    }
  }

  // ----- The choice of satellites -----

  /** Nobody who is willing is passed over for one further behind. */
  lemma PickedFirst(r: Realm, id: nat, flavor: nat, kind: Kind, told: Told, accepts: Accepts, i: nat, j: nat)
    requires Distinct(r.Potential(kind)) && i < j < |SendList(r, id, kind, told)|
    requires SendList(r, id, kind, told)[j] in Picked(r, id, flavor, kind, told, accepts)
    requires SendList(r, id, kind, told)[i] !in Picked(r, id, flavor, kind, told, accepts)
    ensures var s := SendList(r, id, kind, told)[i];
            !accepts(s, id) && !(s in told && id in told[s].managedConfs && told[s].managedConfs[id] == flavor)
  {
    var list := SendList(r, id, kind, told);
    var willing := WillingIn(list, id, flavor, told, accepts);
    SendListFacts(r, id, kind, told);
    assert list[i] in list;
    if list[i] in willing {
      FirstOfFilter(list, willing, Quota(r, kind), i, j);
    }
  }

  lemma UptoAppend(s: seq<Link>, x: Link, q: nat)
    ensures Upto(s + [x], q) == if |s| < q then s + [x] else Upto(s, q)
  {
  }

  lemma {:induction false} FirstOfFilter(list: seq<Link>, willing: set<Link>, q: nat, i: nat, j: nat)
    requires Distinct(list) && i < j < |list| && list[i] in willing
    requires list[j] in Upto(Filter(list, Among(willing)), q)
    ensures list[i] in Upto(Filter(list, Among(willing)), q)
    decreases |list|
  {
    var init, last := list[..|list| - 1], list[|list| - 1];
    var f := Filter(init, Among(willing));
    UptoAppend(f, last, q);
    assert init[i] == list[i];
    if j < |init| {
      assert init[j] == list[j] && list[j] != last;
      InFront(f, list[j], last, q);
      FirstOfFilter(init, willing, q, i, j);
    } else {
      assert last !in init;
      LastInFront(f, last, q);
    }
  }

  lemma InFront(f: seq<Link>, x: Link, last: Link, q: nat)
    requires x != last && (x in Upto(f, q) || x in Upto(f + [last], q))
    ensures x in Upto(f, q) && x in Upto(f + [last], q)
  {
    UptoAppend(f, last, q);
  }

  lemma LastInFront(f: seq<Link>, last: Link, q: nat)
    requires last !in f
    ensures last in Upto(f, q) ==> false
    ensures last in Upto(f + [last], q) ==> Upto(f + [last], q) == f + [last]
  {
    UptoAppend(f, last, q);
  }
}
