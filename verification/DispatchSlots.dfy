/** Which satellites manage which configuration: what a realm notes about them, how it is
    checked and how it is filled. */
module DispatchSlots {
  import opened Options
  import opened Lists
  import opened DispatchOrder

  // ----- What was sent, and what is known -----

  /** A configuration was sent to a satellite, or found to be there already, in a flavor;
      `ok` unless the send was not acknowledged. */
  datatype Event = Event(link: Link, id: nat, flavor: nat, ok: bool)

  type Log = seq<Event>

  /** The flavor in which a satellite was last sent a configuration, or confirmed it. */
  ghost function LastFlavor(log: Log, s: Link, id: nat): Option<nat> {
    if log == [] then None
    else
      var e := log[|log| - 1];
      if e.ok && e.link == s && e.id == id then Some(e.flavor) else LastFlavor(log[..|log| - 1], s, id)
  }

  ghost predicate Confirmed(log: Log, s: Link, id: nat, flavor: nat) {
    LastFlavor(log, s, id) == Some(flavor)
  }

  /** What a satellite told when it was asked. */
  datatype Report = Report(alive: bool, reachable: bool, managedConfs: map<nat, nat>) {
    predicate Manages(id: nat, flavor: nat) {
      id in managedConfs && managedConfs[id] == flavor
    }
  }

  function Known(s: Link): Report
    reads s`alive, s`reachable, s`managedConfs
  {
    Report(s.alive, s.reachable, s.managedConfs)
  }

  /** What is known of the satellites, as a value. */
  type Told = map<Link, Report>

  ghost function Tell(sats: set<Link>): Told
    reads sats`alive, sats`reachable, sats`managedConfs
  {
    map s | s in sats :: Known(s)
  }

  /** The log went on with sends of one configuration in one flavor. */
  ghost predicate Extends(l: Log, l': Log, id: nat, flavor: nat) {
    l <= l' && forall k :: |l| <= k < |l'| ==> l'[k].id == id && l'[k].flavor == flavor
  }

  /** What was confirmed stays so, but for other flavors of the configuration sent. */
  lemma {:induction false} ConfirmedExtends(l: Log, l': Log, sent: nat, f: nat, s: Link, id: nat, flavor: nat)
    requires Extends(l, l', sent, f) && Confirmed(l, s, id, flavor) && (id == sent ==> flavor == f)
    ensures Confirmed(l', s, id, flavor)
    decreases |l'|
  {
    if |l'| > |l| {
      var init := l'[..|l'| - 1];
      assert l <= init;
      ConfirmedExtends(l, init, sent, f, s, id, flavor);
    } else {
      assert l' == l;
    }
  }

  /** Every new entry of the log is true: whoever counts as sent acknowledges the
      configuration or was known to manage it, and whoever does not refuses it. */
  ghost predicate Truthful(l: Log, l': Log, accepts: Accepts, told: Told) {
    && l <= l'
    && forall k :: |l| <= k < |l'| ==> TrueEvent(l'[k], accepts, told)
  }

  ghost predicate TrueEvent(e: Event, accepts: Accepts, told: Told) {
    if e.ok then accepts(e.link, e.id) || (e.link in told && told[e.link].Manages(e.id, e.flavor))
    else !accepts(e.link, e.id)
  }

  lemma TruthfulThen(l: Log, l': Log, l'': Log, accepts: Accepts, told: Told)
    requires Truthful(l, l', accepts, told) && Truthful(l', l'', accepts, told)
    ensures Truthful(l, l'', accepts, told)
  {
    forall k | |l| <= k < |l''| ensures TrueEvent(l''[k], accepts, told) {
      if k < |l'| {
        assert l''[k] == l'[k];
      }
    }
  }

  /** Since `before`, satellites were sent a configuration in one flavor, and nothing else
      became known of them. */
  ghost predicate Moved(before: Told, after: Told, id: nat, flavor: nat) {
    && before.Keys == after.Keys
    && forall s :: s in before ==> after[s] == before[s] || after[s] == before[s].(managedConfs := before[s].managedConfs[id := flavor])
  }

  lemma MovedThen(a: Told, b: Told, c: Told, id: nat, flavor: nat)
    requires Moved(a, b, id, flavor) && Moved(b, c, id, flavor)
    ensures Moved(a, c, id, flavor)
  {
  }

  /** Whatever a satellite is known to manage it was known to manage at first, or it
      acknowledges it. */
  ghost predicate Grounded(first: Told, told: Told, accepts: Accepts) {
    && first.Keys == told.Keys
    && forall s {:trigger told[s]} :: s in told ==> forall k :: k in told[s].managedConfs ==>
         accepts(s, k) || (k in first[s].managedConfs && first[s].managedConfs[k] == told[s].managedConfs[k])
  }

  // ----- The managers of a configuration -----

  /** Brokers of a realm that does not link all of them: only one is used. */
  predicate Classic(r: Realm, kind: Kind) {
    kind == Broker && !r.brokerCompleteLinks
  }

  /** How many satellites are to be sent a configuration. */
  function Quota(r: Realm, kind: Kind): nat {
    if Classic(r, kind) && r.MustHave(kind) > 1 then 1 else r.MustHave(kind)
  }

  /** The managers of a configuration are distinct satellites of the realm, no more than it
      may use, and each was last sent the current flavor unless that is 0. */
  ghost predicate Sound(row: Row, r: Realm, kind: Kind, id: nat, flavor: nat, l: Log) {
    && Distinct(row.managers) && |row.managers| <= Quota(r, kind)
    && (forall s :: s in row.managers ==> s in r.Potential(kind))
    && (flavor != 0 ==> forall s :: s in row.managers ==> Confirmed(l, s, id, flavor))
  }

  /** What holds at the end of a round: a set flag means that managers are missing. */
  ghost predicate Booked(row: Row, r: Realm, kind: Kind, id: nat, flavor: nat, l: Log) {
    Sound(row, r, kind, id, flavor, l) && (row.need ==> |row.managers| < r.MustHave(kind))
  }

  /** What holds after the check: a set flag means that there is no manager. */
  ghost predicate Cleared(row: Row, r: Realm, kind: Kind, id: nat, flavor: nat, l: Log) {
    Sound(row, r, kind, id, flavor, l) && (row.need ==> row.managers == [])
  }

  /** Either flagged or complete. */
  predicate Full(row: Row, r: Realm, kind: Kind) {
    row.need || |row.managers| == r.MustHave(kind)
  }

  /** Dead, or reachable and not said to manage the configuration in its flavor. */
  predicate InTrouble(t: Report, id: nat, flavor: nat) {
    !(flavor == 0 && t.alive) && (!t.alive || (t.reachable && !t.Manages(id, flavor)))
  }

  /** No manager is in trouble: each is alive and, if reachable, said to manage the
      configuration in its flavor, unless that is 0. */
  ghost predicate Healthy(row: Row, id: nat, flavor: nat, told: Told) {
    forall s :: s in row.managers ==> s in told && !InTrouble(told[s], id, flavor)
  }

  lemma HealthyMoved(row: Row, id: nat, flavor: nat, before: Told, after: Told, sent: nat, f: nat)
    requires Healthy(row, id, flavor, before) && Moved(before, after, sent, f) && (id == sent ==> flavor == f)
    ensures Healthy(row, id, flavor, after)
  {
  }

  ghost function AliveIn(s: seq<Link>, told: Told): set<Link> {
    set x | x in s && x in told && told[x].alive
  }

  ghost function ReachedIn(s: seq<Link>, told: Told): set<Link> {
    set x | x in s && x in told && told[x].alive && told[x].reachable
  }

  /** The satellites that a configuration is sent to, in this order: those alive and
      reachable, spares last; brokers of a classic realm take turns. */
  ghost function SendList(r: Realm, id: nat, kind: Kind, told: Told): seq<Link> {
    var all := r.Potential(kind);
    var reached := Filter(Ordered(all, AliveIn(all, told)), Among(ReachedIn(all, told)));
    if Classic(r, kind) then Rotated(reached, id) else reached
  }

  /** If managers are missing, every satellite alive and reachable is one or refuses the
      configuration; of the brokers of a classic realm, there is one, or all whose turn it
      can be refuse. */
  ghost predicate Asked(row: Row, r: Realm, kind: Kind, id: nat, told: Told, accepts: Accepts) {
    row.need ==>
      if Classic(r, kind) then row.managers == [] ==> forall s :: s in SendList(r, id, kind, told) ==> !accepts(s, id)
      else forall s :: s in r.Potential(kind) && s in told && told[s].alive && told[s].reachable ==>
                         s in row.managers || !accepts(s, id)
  }

  /** The list does not depend on what satellites manage. */
  lemma SendListMoved(r: Realm, id: nat, kind: Kind, before: Told, after: Told, sent: nat, f: nat)
    requires Moved(before, after, sent, f)
    ensures SendList(r, id, kind, before) == SendList(r, id, kind, after)
  {
    var all := r.Potential(kind);
    assert AliveIn(all, before) == AliveIn(all, after);
    assert ReachedIn(all, before) == ReachedIn(all, after);
  }

  // ----- The check -----

  /** A manager that is dead, or reachable and says that it does not manage the
      configuration in its current flavor. */
  predicate Trouble(s: Link, id: nat, flavor: nat)
    reads s`alive, s`reachable, s`managedConfs
  {
    InTrouble(Known(s), id, flavor)
  }

  predicate Fine(m: seq<Link>, must: nat, id: nat, flavor: nat)
    reads m
  {
    |m| >= must && forall s :: s in m ==> !Trouble(s, id, flavor)
  }

  /** The same of what was told: enough managers, none of them in trouble. */
  predicate FineIn(m: seq<Link>, must: nat, id: nat, flavor: nat, told: Told) {
    |m| >= must && forall s :: s in m ==> s in told && !InTrouble(told[s], id, flavor)
  }

  method CheckRow(row: Row, must: nat, id: nat, flavor: nat) returns (row': Row, ok: bool)
    ensures ok == Fine(row.managers, must, id, flavor)
    ensures ok <==> |row.managers| >= must && forall s :: s in row.managers ==>
              s.alive && (flavor == 0 || !s.reachable || (id in s.managedConfs && s.managedConfs[id] == flavor))
    ensures row' == if ok then row else row.(need := true, managers := [])
  {
    ok, row' := true, row;
    if |row'.managers| < must {
      ok := false;
      row' := row'.(need := true, managers := []);
    }
    var managers := row'.managers;
    for i := 0 to |managers|
      invariant if ok then row' == row && |row.managers| >= must && managers == row.managers
                else row' == row.(need := true, managers := []) && !Fine(row.managers, must, id, flavor)
      invariant ok ==> forall j :: 0 <= j < i ==> !Trouble(managers[j], id, flavor)
      invariant managers == [] || managers == row.managers
    {
      var satellite := managers[i];
      if flavor == 0 && satellite.alive {
        continue;
      }
      if !satellite.alive || (satellite.reachable && !satellite.Manages(id, flavor)) {
        assert Trouble(satellite, id, flavor) && satellite in row.managers;
        ok := false;
        row' := row'.(need := true, managers := []);
      }
    }
  }

  lemma CheckedRow(row: Row, row': Row, ok: bool, r: Realm, kind: Kind, id: nat, flavor: nat, l: Log)
    requires Booked(row, r, kind, id, flavor, l)
    requires ok == Fine(row.managers, r.MustHave(kind), id, flavor)
    requires row' == if ok then row else row.(need := true, managers := [])
    ensures Booked(row', r, kind, id, flavor, l) && Cleared(row', r, kind, id, flavor, l)
    ensures Full(row', r, kind) && (ok ==> !row'.need)
  {
  }

  // ----- Sending a configuration to satellites -----

  ghost function ReachedOf(s: seq<Link>): set<Link>
    reads s`alive, s`reachable
  {
    set x | x in s && x.alive && x.reachable
  }

  /** The satellites alive and reachable, regular ones before spares. */
  method ReachedInOrder(all: seq<Link>) returns (satellites: seq<Link>)
    ensures satellites == Filter(Ordered(all, AliveOf(all)), Among(ReachedOf(all)))
  {
    ghost var live, reached := AliveOf(all), ReachedOf(all);
    satellites := AliveThenSpareThenDeads(all);
    OrderedWithin(all, live);
    satellites := KeepReached(satellites, reached);
  }

  /** Whatever the turn, the list repeats none, has spares last and only satellites reached;
      unless brokers take turns it has all of those. */
  lemma SendListFacts(r: Realm, id: nat, kind: Kind, told: Told)
    requires Distinct(r.Potential(kind))
    ensures Distinct(SendList(r, id, kind, told)) && SparesLast(SendList(r, id, kind, told))
    ensures forall s :: s in SendList(r, id, kind, told) ==> s in ReachedIn(r.Potential(kind), told)
    ensures !Classic(r, kind) ==> forall s :: s in ReachedIn(r.Potential(kind), told) ==> s in SendList(r, id, kind, told)
  {
    var all := r.Potential(kind);
    var live, reached := AliveIn(all, told), ReachedIn(all, told);
    ReachedFacts(all, live, reached);
    if Classic(r, kind) {
      RotatedKeeps(Filter(Ordered(all, live), Among(reached)), id);
    }
  }

  lemma OrderedWithin(all: seq<Link>, live: set<Link>)
    ensures forall x :: x in Ordered(all, live) ==> x in all
  {
  }

  lemma ReachedFacts(all: seq<Link>, live: set<Link>, reached: set<Link>)
    requires Distinct(all) && reached <= live && forall s :: s in live ==> s in all
    ensures var s := Filter(Ordered(all, live), Among(reached));
            Distinct(s) && SparesLast(s) && forall x :: x in s <==> x in reached
  {
    KeptOrder(all, live, reached);
    CandidateOrder(all, live);
  }

  /** The satellites to send to; brokers take turns unless all of them are used. */
  method SendOrder(r: Realm, c: Conf, kind: Kind, ghost told: Told) returns (satellites: seq<Link>)
    requires forall s :: s in r.Potential(kind) ==> s in told && told[s] == Known(s)
    ensures satellites == SendList(r, c.id, kind, told)
  {
    ghost var all := r.Potential(kind);
    satellites := ReachedInOrder(r.Potential(kind));
    assert AliveOf(all) == AliveIn(all, told);
    assert ReachedOf(all) == ReachedIn(all, told);
    if kind == Broker && !r.brokerCompleteLinks {
      satellites := Rotate(satellites, c.id);
    }
  }

  method KeepReached(s: seq<Link>, ghost reached: set<Link>) returns (kept: seq<Link>)
    requires forall x :: x in s ==> (x.alive && x.reachable <==> x in reached)
    ensures kept == Filter(s, Among(reached))
  {
    kept := [];
    for i := 0 to |s|
      invariant kept == Filter(s[..i], Among(reached))
    {
      FilterStep(s, i, Among(reached));
      assert s[i] in s;
      if s[i].alive && s[i].reachable {
        kept := kept + [s[i]];
      }
    }
    assert s[..|s|] == s;
  }

  /** Sends to one satellite, unless it is said to have the configuration already. */
  method SendTo(satellite: Link, id: nat, flavor: nat, accepts: Accepts, ghost log: Log) returns (isSent: bool, ghost log': Log)
    modifies satellite`active, satellite`managedConfs
    ensures isSent == (old(id in satellite.managedConfs && satellite.managedConfs[id] == flavor) || accepts(satellite, id))
    ensures log' == log + [Event(satellite, id, flavor, isSent)]
    ensures satellite.managedConfs == if isSent then old(satellite.managedConfs)[id := flavor] else old(satellite.managedConfs)
    ensures isSent ==> satellite.active
  {
    if satellite.Manages(id, flavor) {
      isSent := true;
    } else {
      isSent := accepts(satellite, id);
    }
    log' := log + [Event(satellite, id, flavor, isSent)];
    if isSent {
      satellite.active := true;
      satellite.managedConfs := satellite.managedConfs[id := flavor];
    }
  }

  /** The satellites that have the configuration or acknowledge it. */
  ghost function Willing(satellites: seq<Link>, id: nat, flavor: nat, accepts: Accepts): set<Link>
    reads satellites`managedConfs
  {
    set s | s in satellites && (s.Manages(id, flavor) || accepts(s, id))
  }

  function Upto(s: seq<Link>, n: nat): seq<Link> {
    if |s| <= n then s else s[..n]
  }

  function Limited(must: nat, once: bool): nat {
    if once && must > 1 then 1 else must
  }

  lemma {:induction false} FilterPrefix(s: seq<Link>, i: nat, p: Link -> bool)
    requires i <= |s|
    ensures Filter(s[..i], p) <= Filter(s, p)
    decreases |s|
  {
    if i < |s| {
      FilterPrefix(s[..|s| - 1], i, p);
      assert s[..|s| - 1][..i] == s[..i];
    } else {
      assert s[..i] == s;
    }
  }

  /** The chosen ones among the first satellites, with one satellite more. */
  lemma ChosenNext(satellites: seq<Link>, i: nat, willing: set<Link>, q: nat)
    requires i < |satellites|
    ensures var m := Upto(Filter(satellites[..i], Among(willing)), q);
            Upto(Filter(satellites[..i + 1], Among(willing)), q) ==
            if |m| < q && satellites[i] in willing then m + [satellites[i]] else m
  {
    FilterStep(satellites, i, Among(willing));
  }

  /** Once there are enough, the rest does not matter. */
  lemma ChosenEnough(satellites: seq<Link>, i: nat, willing: set<Link>, q: nat)
    requires i <= |satellites| && |Upto(Filter(satellites[..i], Among(willing)), q)| == q
    ensures Upto(Filter(satellites[..i], Among(willing)), q) == Upto(Filter(satellites, Among(willing)), q)
  {
    FilterPrefix(satellites, i, Among(willing));
  }

  /** The log holds a true entry of each of `m`, and no false one since `l`. */
  ghost predicate Noted(l: Log, l': Log, m: seq<Link>, id: nat, flavor: nat, accepts: Accepts, first: Told) {
    && Extends(l, l', id, flavor) && Truthful(l, l', accepts, first)
    && forall s :: s in m ==> Confirmed(l', s, id, flavor)
  }

  lemma NotedNext(l: Log, l': Log, m: seq<Link>, e: Event, accepts: Accepts, first: Told)
    requires Noted(l, l', m, e.id, e.flavor, accepts, first) && TrueEvent(e, accepts, first)
    ensures Noted(l, l' + [e], m, e.id, e.flavor, accepts, first)
    ensures e.ok ==> Noted(l, l' + [e], m + [e.link], e.id, e.flavor, accepts, first)
  {
    var l'' := l' + [e];
    assert l''[..|l'|] == l';
    forall k | |l| <= k < |l''| ensures TrueEvent(l''[k], accepts, first) && l''[k].id == e.id && l''[k].flavor == e.flavor {
      if k < |l'| {
        assert l''[k] == l'[k];
      }
    }
    forall s | s in m ensures Confirmed(l'', s, e.id, e.flavor) {
      assert Confirmed(l', s, e.id, e.flavor);
    }
  }

  /** Whoever already has the configuration acknowledges it or was known to have it. */
  ghost predicate Sendable(satellites: seq<Link>, id: nat, flavor: nat, accepts: Accepts, first: Told)
    reads satellites`managedConfs
  {
    forall s :: s in satellites && s.Manages(id, flavor) ==> accepts(s, id) || (s in first && first[s].Manages(id, flavor))
  }

  ghost function ConfsOf(satellites: seq<Link>): map<Link, map<nat, nat>>
    reads satellites`managedConfs
  {
    map s | s in satellites :: s.managedConfs
  }

  /** The satellites of `m` have been sent the configuration since `before`, the others not. */
  ghost predicate SentTo(satellites: seq<Link>, m: seq<Link>, before: map<Link, map<nat, nat>>, id: nat, flavor: nat)
    reads satellites`managedConfs
  {
    forall s :: s in satellites ==> s in before && s.managedConfs == if s in m then before[s][id := flavor] else before[s]
  }

  /** One turn of the loop over the satellites. */
  method SendNext(satellites: seq<Link>, satellite: Link, must: nat, m: seq<Link>, id: nat, flavor: nat, accepts: Accepts,
                  ghost before: map<Link, map<nat, nat>>, ghost log: Log, ghost mid: Log, ghost first: Told)
    returns (m': seq<Link>, ghost log': Log)
    requires satellite in satellites && satellite.alive && satellite !in m
    requires SentTo(satellites, m, before, id, flavor) && Noted(log, mid, m, id, flavor, accepts, first)
    requires Sendable([satellite], id, flavor, accepts, first)
    modifies satellite`active, satellite`managedConfs
    ensures m' == if |m| < must && (old(satellite.Manages(id, flavor)) || accepts(satellite, id)) then m + [satellite] else m
    ensures SentTo(satellites, m', before, id, flavor) && Noted(log, log', m', id, flavor, accepts, first)
  {
    m', log' := m, mid;
    assert satellite in [satellite];
    if |m| < must && satellite.alive {
      var isSent;
      isSent, log' := SendTo(satellite, id, flavor, accepts, mid);
      NotedNext(log, mid, m, Event(satellite, id, flavor, isSent), accepts, first);
      if isSent {
        m' := m + [satellite];
      }
    }
  }

  /** The first `q` willing ones among the first `i` satellites. */
  ghost function Chosen(satellites: seq<Link>, i: nat, willing: set<Link>, q: nat): seq<Link>
    requires i <= |satellites|
  {
    Upto(Filter(satellites[..i], Among(willing)), q)
  }

  /** Who is willing, as known before any send. */
  ghost predicate Prepared(satellites: seq<Link>, before: map<Link, map<nat, nat>>, willing: set<Link>, id: nat, flavor: nat,
                           accepts: Accepts, first: Told)
  {
    forall s :: s in satellites ==>
      && s in before && (s in willing <==> (id in before[s] && before[s][id] == flavor) || accepts(s, id))
      && (s in willing ==> accepts(s, id) || (s in first && first[s].Manages(id, flavor)))
  }

  method SendTurn(satellites: seq<Link>, i: nat, must: nat, m: seq<Link>, id: nat, flavor: nat, accepts: Accepts, ghost q: nat,
                  ghost willing: set<Link>, ghost before: map<Link, map<nat, nat>>, ghost log: Log, ghost mid: Log, ghost first: Told)
    returns (m': seq<Link>, ghost log': Log)
    requires i < |satellites| && Distinct(satellites) && satellites[i].alive
    requires m == Chosen(satellites, i, willing, q) && (|m| < must <==> |m| < q)
    requires SentTo(satellites, m, before, id, flavor) && Noted(log, mid, m, id, flavor, accepts, first)
    requires Prepared(satellites, before, willing, id, flavor, accepts, first)
    modifies satellites`active, satellites`managedConfs
    ensures m' == Chosen(satellites, i + 1, willing, q)
    ensures SentTo(satellites, m', before, id, flavor) && Noted(log, log', m', id, flavor, accepts, first)
  {
    ChosenNext(satellites, i, willing, q);
    NotYet(satellites, i, m, willing, q);
    assert satellites[i] in satellites;
    m', log' := SendNext(satellites, satellites[i], must, m, id, flavor, accepts, before, log, mid, first);
  }

  /** The first satellites that have the configuration or acknowledge it, as many as needed;
      a broker that is not to be doubled ends it. */
  method SendAll(satellites: seq<Link>, must: nat, once: bool, id: nat, flavor: nat, accepts: Accepts,
                 ghost log: Log, ghost first: Told) returns (m: seq<Link>, ghost log': Log)
    requires Distinct(satellites) && (forall s :: s in satellites ==> s.alive)
    requires Sendable(satellites, id, flavor, accepts, first)
    modifies satellites`active, satellites`managedConfs
    ensures m == Upto(Filter(satellites, Among(old(Willing(satellites, id, flavor, accepts)))), Limited(must, once))
    ensures SentTo(satellites, m, old(ConfsOf(satellites)), id, flavor) && Noted(log, log', m, id, flavor, accepts, first)
  {
    ghost var willing, before := Willing(satellites, id, flavor, accepts), ConfsOf(satellites);
    assert Prepared(satellites, before, willing, id, flavor, accepts, first);
    NothingSent(satellites, before, id, flavor, log, accepts, first);
    m, log' := SendFirst(satellites, must, once, id, flavor, accepts, willing, before, log, first);
  }

  lemma NothingSent(satellites: seq<Link>, before: map<Link, map<nat, nat>>, id: nat, flavor: nat, log: Log, accepts: Accepts, first: Told)
    requires before == ConfsOf(satellites)
    ensures SentTo(satellites, [], before, id, flavor) && Noted(log, log, [], id, flavor, accepts, first)
  {
  }

  method SendFirst(satellites: seq<Link>, must: nat, once: bool, id: nat, flavor: nat, accepts: Accepts, ghost willing: set<Link>,
                   ghost before: map<Link, map<nat, nat>>, ghost log: Log, ghost first: Told)
    returns (m: seq<Link>, ghost log': Log)
    requires Distinct(satellites) && forall s :: s in satellites ==> s.alive
    requires Prepared(satellites, before, willing, id, flavor, accepts, first)
    requires SentTo(satellites, [], before, id, flavor) && Noted(log, log, [], id, flavor, accepts, first)
    modifies satellites`active, satellites`managedConfs
    ensures m == Upto(Filter(satellites, Among(willing)), Limited(must, once))
    ensures SentTo(satellites, m, before, id, flavor) && Noted(log, log', m, id, flavor, accepts, first)
  {
    ghost var q := Limited(must, once);
    m, log' := [], log;
    for i := 0 to |satellites|
      invariant m == Chosen(satellites, i, willing, q) && (once ==> m == [])
      invariant SentTo(satellites, m, before, id, flavor) && Noted(log, log', m, id, flavor, accepts, first)
    {
      m, log' := SendTurn(satellites, i, must, m, id, flavor, accepts, q, willing, before, log, log', first);
      if once && m != [] {
        ChosenEnough(satellites, i + 1, willing, q);
        break;
      }
    }
    assert satellites[..|satellites|] == satellites;
  }

  lemma NotYet(satellites: seq<Link>, i: nat, m: seq<Link>, willing: set<Link>, q: nat)
    requires i < |satellites| && Distinct(satellites) && m == Upto(Filter(satellites[..i], Among(willing)), q)
    ensures satellites[i] !in m
  {
    assert satellites[i] !in satellites[..i];
  }

  // ----- One kind of satellites for one configuration -----

  /** Exactly the satellites of `m` are now known to manage the configuration. */
  ghost predicate Recruited(before: Told, after: Told, m: seq<Link>, id: nat, flavor: nat) {
    && before.Keys == after.Keys
    && forall s :: s in before ==>
         after[s] == if s in m then before[s].(managedConfs := before[s].managedConfs[id := flavor]) else before[s]
  }

  lemma RecruitedMoved(before: Told, after: Told, m: seq<Link>, id: nat, flavor: nat)
    requires Recruited(before, after, m, id, flavor)
    ensures Moved(before, after, id, flavor)
  {
  }

  lemma RecruitedGrounded(first: Told, before: Told, after: Told, m: seq<Link>, id: nat, flavor: nat, accepts: Accepts)
    requires Recruited(before, after, m, id, flavor) && Grounded(first, before, accepts)
    requires forall s :: s in m && s in before ==> accepts(s, id) || before[s].Manages(id, flavor)
    ensures Grounded(first, after, accepts)
  {
    forall s | s in after
      ensures forall k :: k in after[s].managedConfs ==>
                accepts(s, k) || (k in first[s].managedConfs && first[s].managedConfs[k] == after[s].managedConfs[k])
    {
      forall k | k in after[s].managedConfs
        ensures accepts(s, k) || (k in first[s].managedConfs && first[s].managedConfs[k] == after[s].managedConfs[k])
      {
        assert k != id ==> k in before[s].managedConfs && before[s].managedConfs[k] == after[s].managedConfs[k];
        assert k in before[s].managedConfs ==> accepts(s, k) || (k in first[s].managedConfs && first[s].managedConfs[k] == before[s].managedConfs[k]);
      }
    }
  }

  /** Choosing the first willing ones repeats none and leaves out only when there are enough. */
  lemma ChosenFacts(satellites: seq<Link>, willing: set<Link>, q: nat, m: seq<Link>)
    requires Distinct(satellites) && m == Upto(Filter(satellites, Among(willing)), q)
    ensures Distinct(m) && |m| <= q && (forall s :: s in m ==> s in satellites && s in willing)
    ensures |m| < q ==> forall s :: s in satellites && s in willing ==> s in m
  {
    FilterDistinct(satellites, Among(willing));
  }

  /** Who is known to have the configuration or acknowledges it. */
  ghost function WillingIn(s: seq<Link>, id: nat, flavor: nat, told: Told, accepts: Accepts): set<Link> {
    set x | x in s && x in told && (told[x].Manages(id, flavor) || accepts(x, id))
  }

  /** The first willing ones of the list, as many as may be used. */
  ghost function Picked(r: Realm, id: nat, flavor: nat, kind: Kind, told: Told, accepts: Accepts): seq<Link> {
    var s := SendList(r, id, kind, told);
    Upto(Filter(s, Among(WillingIn(s, id, flavor, told, accepts))), Quota(r, kind))
  }

  /** Distinct satellites reached, each willing; if there could be more, every other one on
      the list refuses, and that is every other one reached unless brokers take turns. */
  ghost predicate WellPicked(m: seq<Link>, r: Realm, kind: Kind, id: nat, flavor: nat, told: Told, accepts: Accepts) {
    && Distinct(m) && |m| <= Quota(r, kind)
    && (forall s :: s in m ==>
          && s in r.Potential(kind) && s in told && told[s].alive && told[s].reachable
          && (accepts(s, id) || (id in told[s].managedConfs && told[s].managedConfs[id] == flavor)))
    && (|m| < Quota(r, kind) ==> forall s :: s in SendList(r, id, kind, told) ==> s in m || !accepts(s, id))
    && (|m| < Quota(r, kind) && !Classic(r, kind) ==>
          forall s :: s in r.Potential(kind) && s in told && told[s].alive && told[s].reachable ==> s in m || !accepts(s, id))
  }

  lemma PickedWell(r: Realm, id: nat, flavor: nat, kind: Kind, told: Told, accepts: Accepts)
    requires Distinct(r.Potential(kind))
    ensures WellPicked(Picked(r, id, flavor, kind, told, accepts), r, kind, id, flavor, told, accepts)
  {
    var s := SendList(r, id, kind, told);
    SendListFacts(r, id, kind, told);
    ChosenFacts(s, WillingIn(s, id, flavor, told, accepts), Quota(r, kind), Picked(r, id, flavor, kind, told, accepts));
  }

  /** The satellites that are to manage a configuration, all of them sent it. */
  method Recruit(r: Realm, c: Conf, kind: Kind, accepts: Accepts, ghost sats: set<Link>, ghost l: Log, ghost first: Told)
    returns (m: seq<Link>, ghost l': Log)
    requires Grounded(first, Tell(sats), accepts)
    requires Distinct(r.Potential(kind)) && forall s :: s in r.Potential(kind) ==> s in sats
    modifies sats`active, sats`managedConfs
    ensures m == Picked(r, c.id, c.pushFlavor, kind, old(Tell(sats)), accepts)
    ensures WellPicked(m, r, kind, c.id, c.pushFlavor, old(Tell(sats)), accepts)
    ensures Noted(l, l', m, c.id, c.pushFlavor, accepts, first)
    ensures Recruited(old(Tell(sats)), Tell(sats), m, c.id, c.pushFlavor)
  {
    ghost var told := Tell(sats);
    var satellites := SendOrder(r, c, kind, told);
    m, l' := SendChosen(r, c, kind, satellites, accepts, sats, l, first);
    PickedWell(r, c.id, c.pushFlavor, kind, told, accepts);
  }

  /** Sends to the list. */
  method SendChosen(r: Realm, c: Conf, kind: Kind, satellites: seq<Link>, accepts: Accepts, ghost sats: set<Link>, ghost l: Log,
                    ghost first: Told)
    returns (m: seq<Link>, ghost l': Log)
    requires Grounded(first, Tell(sats), accepts) && satellites == SendList(r, c.id, kind, Tell(sats))
    requires Distinct(r.Potential(kind)) && forall s :: s in r.Potential(kind) ==> s in sats
    modifies sats`active, sats`managedConfs
    ensures m == Picked(r, c.id, c.pushFlavor, kind, old(Tell(sats)), accepts)
    ensures Noted(l, l', m, c.id, c.pushFlavor, accepts, first)
    ensures Recruited(old(Tell(sats)), Tell(sats), m, c.id, c.pushFlavor)
  {
    SendListFacts(r, c.id, kind, Tell(sats));
    assert forall s :: s in satellites ==> s in sats && s.alive;
    m, l' := SendThese(r, c, kind, satellites, accepts, sats, l, first);
  }

  method SendThese(r: Realm, c: Conf, kind: Kind, satellites: seq<Link>, accepts: Accepts, ghost sats: set<Link>, ghost l: Log,
                   ghost first: Told)
    returns (m: seq<Link>, ghost l': Log)
    requires Grounded(first, Tell(sats), accepts)
    requires Distinct(satellites) && forall s :: s in satellites ==> s in sats && s.alive
    modifies sats`active, sats`managedConfs
    ensures m == Upto(Filter(satellites, Among(WillingIn(satellites, c.id, c.pushFlavor, old(Tell(sats)), accepts))), Quota(r, kind))
    ensures Noted(l, l', m, c.id, c.pushFlavor, accepts, first)
    ensures Recruited(old(Tell(sats)), Tell(sats), m, c.id, c.pushFlavor)
  {
    ghost var told := Tell(sats);
    var once := kind == Broker && !r.brokerCompleteLinks;
    ghost var willing := Willing(satellites, c.id, c.pushFlavor, accepts);
    assert willing == WillingIn(satellites, c.id, c.pushFlavor, told, accepts);
    forall s | s in satellites && s.Manages(c.id, c.pushFlavor)
      ensures accepts(s, c.id) || (s in first && first[s].Manages(c.id, c.pushFlavor))
    {
      assert told[s] == Known(s) && c.id in told[s].managedConfs;
    }
    m, l' := SendAll(satellites, r.MustHave(kind), once, c.id, c.pushFlavor, accepts, l, first);
    ChosenFacts(satellites, willing, Quota(r, kind), m);
  }

  lemma RecruitedReach(r: Realm, kind: Kind, before: Told, after: Told, m: seq<Link>, id: nat, flavor: nat)
    requires Recruited(before, after, m, id, flavor)
    ensures ReachedIn(r.Potential(kind), before) == ReachedIn(r.Potential(kind), after)
  {
  }

  /** What has been picked leaves a flag only if everyone was asked. */
  lemma RecruitedAsked(row: Row, r: Realm, kind: Kind, id: nat, flavor: nat, before: Told, after: Told, m: seq<Link>, accepts: Accepts)
    requires Recruited(before, after, m, id, flavor) && WellPicked(m, r, kind, id, flavor, before, accepts)
    requires row.managers == m && (row.need ==> |m| < r.MustHave(kind))
    ensures Asked(row, r, kind, id, after, accepts)
  {
    if row.need && Classic(r, kind) {
      RecruitedMoved(before, after, m, id, flavor);
      SendListMoved(r, id, kind, before, after, id, flavor);
    } else if row.need {
      RecruitedReach(r, kind, before, after, m, id, flavor);
      assert forall s :: s in r.Potential(kind) && s in after && after[s].alive && after[s].reachable ==>
          s in ReachedIn(r.Potential(kind), after);
    }
  }

  lemma RecruitedHealthy(row: Row, r: Realm, kind: Kind, id: nat, flavor: nat, before: Told, after: Told, m: seq<Link>, accepts: Accepts)
    requires Recruited(before, after, m, id, flavor) && WellPicked(m, r, kind, id, flavor, before, accepts) && row.managers == m
    ensures Healthy(row, id, flavor, after)
  {
  }

  method DispatchRow(row: Row, r: Realm, c: Conf, kind: Kind, accepts: Accepts, ghost sats: set<Link>, ghost l: Log, ghost first: Told)
    returns (row': Row, ghost l': Log)
    requires Cleared(row, r, kind, c.id, c.pushFlavor, l) && Grounded(first, Tell(sats), accepts)
    requires Distinct(r.Potential(kind)) && forall s :: s in r.Potential(kind) ==> s in sats
    modifies sats`active, sats`managedConfs
    ensures row.need ==> row'.managers == Picked(r, c.id, c.pushFlavor, kind, old(Tell(sats)), accepts)
    ensures Booked(row', r, kind, c.id, c.pushFlavor, l') && row'.to == row.to
    ensures if row.need then Full(row', r, kind) && Healthy(row', c.id, c.pushFlavor, Tell(sats)) else row' == row && l' == l
    ensures Asked(row', r, kind, c.id, Tell(sats), accepts)
    ensures Extends(l, l', c.id, c.pushFlavor) && Truthful(l, l', accepts, first)
    ensures Moved(old(Tell(sats)), Tell(sats), c.id, c.pushFlavor) && Grounded(first, Tell(sats), accepts)
  {
    row', l' := row, l;
    if row.need {
      ghost var before := Tell(sats);
      var m;
      m, l' := Recruit(r, c, kind, accepts, sats, l, first);
      RecruitedMoved(before, Tell(sats), m, c.id, c.pushFlavor);
      RecruitedGrounded(first, before, Tell(sats), m, c.id, c.pushFlavor, accepts);
      row' := row'.(managers := m);
      if |m| == r.MustHave(kind) {
        row' := row'.(need := false);
      }
      RecruitedHealthy(row', r, kind, c.id, c.pushFlavor, before, Tell(sats), m, accepts);
      RecruitedAsked(row', r, kind, c.id, c.pushFlavor, before, Tell(sats), m, accepts);
    }
  }
}
