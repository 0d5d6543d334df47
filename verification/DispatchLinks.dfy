/** Which scheduler holds which configuration: the links between them that
    `shinken/dispatcher.py` keeps, and the steps that change them. */
module DispatchLinks {
  import opened Lists
  import opened DispatchOrder

  // ----- The parts of an installation -----

  /** `home` gives the realm of each configuration. */
  datatype Net = Net(realms: seq<Realm>, confs: set<Conf>, scheds: set<Link>, sats: set<Link>, home: map<Conf, Realm>)

  ghost predicate HomeOf(n: Net, r: Realm) {
    forall c :: c in r.confs ==> c in n.home && n.home[c] == r
  }

  /** The realm uses known schedulers and satellites, and lists nothing twice. */
  ghost predicate Staffed(n: Net, r: Realm) {
    && Distinct(r.confs)
    && (forall s :: s in r.schedulers ==> s in n.scheds)
    && (forall h, s :: h in r.higherRealms && s in h.schedulers && s.spare ==> s in n.scheds)
    && (forall kind :: Distinct(r.Potential(kind)) && forall s :: s in r.Potential(kind) ==> s in n.sats)
  }

  ghost predicate Apart(n: Net) {
    Distinct(n.realms)
  }

  ghost predicate Unique(n: Net) {
    forall c, d :: c in n.confs && d in n.confs && c.id == d.id ==> c == d
  }

  /** Every configuration is in exactly one realm and has its own id. */
  ghost predicate Setup(n: Net) {
    && n.home.Keys == n.confs && n.scheds !! n.sats && Apart(n) && Unique(n)
    && (forall c :: c in n.confs ==> n.home[c] in n.realms && c in n.home[c].confs)
    && (forall r :: r in n.realms ==> HomeOf(n, r))
  }

  type World = n: Net | Setup(n) ghost witness Net([], {}, {}, {}, map[])

  // ----- Links -----

  ghost predicate ConfLinked(w: World, c: Conf)
    reads c, w.scheds`conf, w.scheds`pushFlavor
  {
    && (c.isAssigned <==> c.assignedTo != null)
    && (c.assignedTo != null ==>
          && c.assignedTo in w.scheds && c.assignedTo.conf == c
          && c.pushFlavor > 0 && c.assignedTo.pushFlavor == c.pushFlavor)
  }

  ghost predicate SchedLinked(w: World, s: Link)
    reads s`conf, s`alive, s`needConf, w.confs`assignedTo
  {
    && (s.conf != null ==> s.conf in w.confs && s.conf.assignedTo == s)
    && (s.conf != null && s.alive ==> !s.needConf)
  }

  /** A configuration and a scheduler point at each other or not at all. */
  ghost predicate Linked(w: World)
    reads w.confs, w.scheds`conf, w.scheds`alive, w.scheds`needConf, w.scheds`pushFlavor
  {
    && (forall c {:trigger ConfLinked(w, c)} :: c in w.confs ==> ConfLinked(w, c))
    && (forall s {:trigger SchedLinked(w, s)} :: s in w.scheds ==> SchedLinked(w, s))
  }

  /** Whoever holds a configuration is alive and asks for none. */
  ghost predicate Held(w: World)
    reads w.scheds`conf, w.scheds`alive, w.scheds`needConf
  {
    forall s :: s in w.scheds && s.conf != null ==> s.alive && !s.needConf
  }

  /** So assignment is a partial injection. */
  lemma AssignmentInjective(w: World, c: Conf, d: Conf)
    requires Linked(w) && c in w.confs && d in w.confs
    requires c.assignedTo != null && c.assignedTo == d.assignedTo
    ensures c == d
  {
    assert ConfLinked(w, c) && ConfLinked(w, d);
  }

  // ----- Checking a configuration -----

  /** Its scheduler is alive and said to manage it. */
  ghost predicate Fit(c: Conf, w: World)
    reads c`assignedTo, c`pushFlavor, w.scheds`alive, w.scheds`managedConfs
  {
    && c.assignedTo != null && c.assignedTo in w.scheds
    && c.assignedTo.alive && c.assignedTo.Manages(c.id, c.pushFlavor)
  }

  /** It is unassigned, or rightly held. */
  ghost predicate Settled(c: Conf, w: World)
    reads c`assignedTo, c`pushFlavor, w.scheds`alive, w.scheds`managedConfs
  {
    c.assignedTo != null ==> Fit(c, w)
  }

  ghost predicate AllSettled(w: World)
    reads w.confs`assignedTo, w.confs`pushFlavor, w.scheds`alive, w.scheds`managedConfs
  {
    forall c {:trigger Settled(c, w)} :: c in w.confs ==> Settled(c, w)
  }

  /** The part of check_dispatch for a configuration that a scheduler holds; returns whether
      the dispatch is still right. */
  method CheckHolder(c: Conf, sched: Link) returns (ok: bool)
    requires c.assignedTo == sched && sched.conf == c
    modifies c`isAssigned, c`assignedTo, c`pushFlavor, sched`conf, sched`pushFlavor, sched`needConf
    ensures ok == (sched.alive && sched.Manages(c.id, old(c.pushFlavor)))
    ensures ok ==> unchanged(c) && unchanged(sched)
    ensures !ok ==> c.assignedTo == null && !c.isAssigned && c.pushFlavor == 0 && sched.conf == null && sched.pushFlavor == 0
    ensures sched.needConf == (old(sched.needConf) || !sched.Manages(c.id, old(c.pushFlavor)))
  {
    ok := true;
    var pushFlavor := c.pushFlavor;
    if !sched.alive {
      ok := false;
      c.assignedTo := null;
      c.isAssigned := false;
      c.pushFlavor := 0;
      sched.pushFlavor := 0;
      sched.conf := null;
    }
    if !sched.Manages(c.id, pushFlavor) {
      ok := false;
      if sched.conf != null {
        sched.conf.assignedTo := null;
        sched.conf.isAssigned := false;
        sched.conf.pushFlavor := 0;
      }
      sched.pushFlavor := 0;
      sched.needConf := true;
      sched.conf := null;
    }
  }

  method CheckConf(ghost w: World, c: Conf) returns (ok: bool)
    requires Linked(w) && c in w.confs
    modifies w.confs`isAssigned, w.confs`assignedTo, w.confs`pushFlavor
    modifies w.scheds`conf, w.scheds`pushFlavor, w.scheds`needConf
    ensures Linked(w) && Settled(c, w) && (ok <==> c.assignedTo != null) && (ok <==> old(Fit(c, w)))
    ensures forall d :: d in w.confs && d != c ==> unchanged(d)
    ensures forall t :: t in w.scheds && t != old(c.assignedTo) ==> unchanged(t)
    ensures if ok then unchanged(c) else c.pushFlavor == 0 || (unchanged(c) && c.assignedTo == null)
  {
    assert ConfLinked(w, c);
    var sched := c.assignedTo;
    if sched == null {
      ok := false;
    } else {
      assert SchedLinked(w, sched);
      ok := CheckHolder(c, sched);
      assert forall s :: s in w.scheds && s != sched ==> old(SchedLinked(w, s));
      forall s | s in w.scheds && s != sched ensures SchedLinked(w, s) {
        assert old(SchedLinked(w, s));
      }
      forall d | d in w.confs && d != c ensures ConfLinked(w, d) {
        assert old(ConfLinked(w, d));
      }
    }
  }

  // ----- Giving a configuration to a scheduler -----

  /** The link does not acknowledge one of these configurations. */
  ghost predicate Refuses(s: Link, confs: set<Conf>, accepts: Accepts) {
    exists c :: c in confs && !accepts(s, c.id)
  }

  /** Each scheduler behind position `n` was tried: it asks for no configuration or refuses
      one of these. */
  ghost predicate TriedFrom(scheds: seq<Link>, n: nat, confs: set<Conf>, accepts: Accepts)
    reads scheds`needConf
  {
    forall i :: n <= i < |scheds| ==> !scheds[i].needConf || Refuses(scheds[i], confs, accepts)
  }

  /** Pops schedulers until one that asks for a configuration accepts it. The flavor is not
      determined. */
  method FindScheduler(conf: Conf, scheds: seq<Link>, accepts: Accepts) returns (sched: Link?, rest: seq<Link>)
    modifies conf`pushFlavor
    ensures rest <= scheds && (sched == null ==> rest == [])
    ensures sched != null ==>
              && |rest| < |scheds| && scheds[|rest|] == sched
              && sched.needConf && accepts(sched, conf.id) && 1 <= conf.pushFlavor <= 1000000
    ensures TriedFrom(scheds, if sched == null then 0 else |rest| + 1, {conf}, accepts)
    ensures sched != null && sched.spare && SparesFirst(scheds) ==> forall s :: s in rest ==> s.spare
  {
    rest := scheds;
    while true
      invariant rest <= scheds && TriedFrom(scheds, |rest|, {conf}, accepts)
      decreases |rest|
    {
      if rest == [] {
        return null, rest;
      }
      var last := rest[|rest| - 1];
      rest := rest[..|rest| - 1];
      if !last.needConf {
        continue;
      }
      var flavor: nat :| 1 <= flavor <= 1000000;
      conf.pushFlavor := flavor;
      var isSent := accepts(last, conf.id);
      if !isSent {
        assert conf in {conf};
        continue;
      }
      return last, rest;
    }
  }

  /** The scheduler is then known to manage this configuration and nothing else. */
  method Assign(ghost w: World, conf: Conf, sched: Link)
    requires Linked(w) && Held(w) && AllSettled(w) && conf in w.confs && sched in w.scheds
    requires conf.assignedTo == null && sched.needConf && sched.alive && conf.pushFlavor > 0
    modifies conf`isAssigned, conf`assignedTo, sched`conf, sched`pushFlavor, sched`needConf, sched`managedConfs
    ensures Linked(w) && Held(w) && AllSettled(w) && conf.assignedTo == sched && !sched.needConf && old(sched.conf) == null
    ensures sched.conf == conf && sched.pushFlavor == conf.pushFlavor && sched.managedConfs == map[conf.id := conf.pushFlavor]
  {
    assert ConfLinked(w, conf) && SchedLinked(w, sched);
    sched.conf := conf;
    sched.pushFlavor := conf.pushFlavor;
    sched.needConf := false;
    conf.isAssigned := true;
    conf.assignedTo := sched;
    sched.managedConfs := map[conf.id := conf.pushFlavor];
    forall s | s in w.scheds && s != sched ensures SchedLinked(w, s) {
      assert old(SchedLinked(w, s));
    }
    forall d | d in w.confs && d != conf ensures ConfLinked(w, d) && Settled(d, w) {
      assert old(ConfLinked(w, d)) && old(Settled(d, w));
    }
  }

  // ----- The candidates of a realm -----

  method SparesIn(r: Realm) returns (spares: seq<Link>)
    ensures spares == Filter(r.schedulers, Spare())
  {
    spares := [];
    for i := 0 to |r.schedulers|
      invariant spares == Filter(r.schedulers[..i], Spare())
    {
      FilterStep(r.schedulers, i, Spare());
      if r.schedulers[i].spare {
        spares := spares + [r.schedulers[i]];
      }
    }
    assert r.schedulers[..|r.schedulers|] == r.schedulers;
  }

  method KeepAlive(s: seq<Link>, ghost alive: set<Link>) returns (kept: seq<Link>)
    requires forall x :: x in s ==> (x.alive <==> x in alive)
    ensures kept == Filter(s, Among(alive))
  {
    kept := [];
    for i := 0 to |s|
      invariant kept == Filter(s[..i], Among(alive))
    {
      FilterStep(s, i, Among(alive));
      assert s[i] in s;
      if s[i].alive {
        kept := kept + [s[i]];
      }
    }
    assert s[..|s|] == s;
  }

  method GetSchedulerOrderedList(r: Realm) returns (scheds: seq<Link>)
    ensures scheds == Reverse(Ordered(Pool(r), AliveOf(Pool(r))))
  {
    scheds := r.schedulers;
    for i := 0 to |r.higherRealms|
      invariant scheds == r.schedulers + SparesOf(r.higherRealms[..i])
    {
      assert r.higherRealms[..i + 1][..i] == r.higherRealms[..i];
      var spares := SparesIn(r.higherRealms[i]);
      scheds := scheds + spares;
    }
    assert r.higherRealms[..|r.higherRealms|] == r.higherRealms;
    scheds := AliveThenSpareThenDeads(scheds);
    scheds := Reverse(scheds);
  }

  /** The schedulers alive among those a realm may use. They are popped from the end, so
      that spares are tried last. */
  method Candidates(r: Realm) returns (scheds: seq<Link>)
    ensures forall s :: s in scheds <==>
                        s.alive && (s in r.schedulers || (s.spare && exists h :: h in r.higherRealms && s in h.schedulers))
    ensures SparesFirst(scheds)
  {
    PoolUsable(r);
    scheds := GetSchedulerOrderedList(r);
    CandidateOrder(Pool(r), AliveOf(Pool(r)));
    scheds := KeepAlive(scheds, AliveOf(Pool(r)));
  }
}
