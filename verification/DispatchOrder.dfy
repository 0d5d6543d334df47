/** The entities that `shinken/dispatcher.py` works on, and the orders in which it tries
    schedulers and satellites. */
module DispatchOrder {
  import opened Lists


  datatype Kind = Reactionner | Poller | Broker | Receiver

  const KINDS: seq<Kind> := [Reactionner, Poller, Broker, Receiver]

  lemma KindsCover(kind: Kind) returns (j: nat)
    ensures j < |KINDS| && KINDS[j] == kind
  {
    j := match kind case Reactionner => 0 case Poller => 1 case Broker => 2 case Receiver => 3;
  }

  /** A link to a scheduler or to a satellite. */
  class Link {
    const spare: bool
    var alive: bool
    var reachable: bool
    /** Configuration ids with their flavors, as the other side last told. */
    var managedConfs: map<nat, nat>
    var active: bool
    // schedulers only
    var needConf: bool
    var conf: Conf?
    var pushFlavor: nat

    constructor (spare: bool)
      ensures this.spare == spare && conf == null
    {
      this.spare := spare;
      conf := null;
      managedConfs := map[];
    }

    /** do_i_manage */
    predicate Manages(id: nat, flavor: nat)
      reads this`managedConfs
    {
      id in managedConfs && managedConfs[id] == flavor
    }
  }

  /** One part of the configuration, for one scheduler. */
  class Conf {
    const id: nat
    var isAssigned: bool
    var assignedTo: Link?
    var pushFlavor: nat

    constructor (id: nat)
      ensures this.id == id
    {
      this.id := id;
    }
  }

  /** What a realm notes about one kind of satellite for one configuration: the scheduler
      that they are told about, whether they still have to be told, and who was. */
  datatype Row = Row(to: Link?, need: bool, managers: seq<Link>)

  /** All kinds of satellites for one configuration. */
  datatype Page = Page(reactionner: Row, poller: Row, broker: Row, receiver: Row) {
    function Of(kind: Kind): Row {
      match kind
      case Reactionner => reactionner
      case Poller => poller
      case Broker => broker
      case Receiver => receiver
    }

    function With(kind: Kind, row: Row): (p: Page)
      ensures p.Of(kind) == row && forall k :: k != kind ==> p.Of(k) == Of(k)
    {
      match kind
      case Reactionner => this.(reactionner := row)
      case Poller => this.(poller := row)
      case Broker => this.(broker := row)
      case Receiver => this.(receiver := row)
    }
  }

  class Realm {
    const confs: seq<Conf>
    const schedulers: seq<Link>
    const higherRealms: seq<Realm>
    const potential: map<Kind, seq<Link>>
    const mustHave: map<Kind, nat>
    const brokerCompleteLinks: bool
    /** The three tables about satellites, by configuration id. */
    var books: map<nat, Page>

    constructor (confs: seq<Conf>, schedulers: seq<Link>, higherRealms: seq<Realm>,
                 potential: map<Kind, seq<Link>>, mustHave: map<Kind, nat>, brokerCompleteLinks: bool)
      ensures this.confs == confs && this.schedulers == schedulers && this.higherRealms == higherRealms
      ensures this.potential == potential && this.mustHave == mustHave
      ensures this.brokerCompleteLinks == brokerCompleteLinks
      ensures books == map[]
    {
      this.confs, this.schedulers, this.higherRealms := confs, schedulers, higherRealms;
      this.potential, this.mustHave, this.brokerCompleteLinks := potential, mustHave, brokerCompleteLinks;
      books := map[];
    }

    /** get_potential_satellites_by_type */
    function Potential(kind: Kind): (s: seq<Link>)
      ensures kind in potential ==> s == potential[kind]
    {
      if kind in potential then potential[kind] else []
    }

    /** get_nb_of_must_have_satellites */
    function MustHave(kind: Kind): (n: nat)
      ensures kind in mustHave ==> n == mustHave[kind]
    {
      if kind in mustHave then mustHave[kind] else 0
    }
  }

  /** Whether a link acknowledges a configuration, by its id, that is sent to it in this
      dispatch. */
  type Accepts = (Link, nat) -> bool

  // ----- Lists of links -----

  function Filter(s: seq<Link>, p: Link -> bool): (r: seq<Link>)
    ensures forall x :: x in r ==> x in s && p(x)
    ensures forall x :: x in s ==> (p(x) ==> x in r)
  {
    if s == [] then [] else Filter(s[..|s| - 1], p) + (if p(s[|s| - 1]) then [s[|s| - 1]] else [])
  }

  ghost function AliveOf(s: seq<Link>): set<Link>
    reads s`alive
  {
    set x | x in s && x.alive
  }

  lemma FilterStep(s: seq<Link>, i: nat, p: Link -> bool)
    requires i < |s|
    ensures Filter(s[..i + 1], p) == Filter(s[..i], p) + if p(s[i]) then [s[i]] else []
  {
    assert s[..i + 1][..i] == s[..i];
  }

  lemma {:induction false} FilterConcat(a: seq<Link>, b: seq<Link>, p: Link -> bool)
    ensures Filter(a + b, p) == Filter(a, p) + Filter(b, p)
    decreases |b|
  {
    if b == [] {
      assert a + b == a;
    } else {
      var init := b[..|b| - 1];
      assert (a + b)[..|a + b| - 1] == a + init;
      FilterConcat(a, init, p);
    }
  }

  lemma {:induction false} FilterAll(s: seq<Link>, p: Link -> bool)
    requires forall x :: x in s ==> p(x)
    ensures Filter(s, p) == s
    decreases |s|
  {
    if s != [] {
      var init, last := s[..|s| - 1], s[|s| - 1];
      assert s == init + [last];
      assert p(last);
      FilterAll(init, p);
    }
  }

  lemma FilterNone(s: seq<Link>, p: Link -> bool)
    requires forall x :: x in s ==> !p(x)
    ensures Filter(s, p) == []
  {
    if Filter(s, p) != [] {
      assert Filter(s, p)[0] in Filter(s, p);
    }
  }

  lemma {:induction false} FilterDistinct(s: seq<Link>, p: Link -> bool)
    requires Distinct(s)
    ensures Distinct(Filter(s, p))
    decreases |s|
  {
    if s != [] {
      var init, last := s[..|s| - 1], s[|s| - 1];
      FilterDistinct(init, p);
      assert last !in init;
      assert forall k :: 0 <= k < |Filter(init, p)| ==> Filter(init, p)[k] in Filter(init, p);
    }
  }

  lemma DistinctConcat(a: seq<Link>, b: seq<Link>)
    requires Distinct(a) && Distinct(b) && forall x :: x in a ==> x !in b
    ensures Distinct(a + b)
  {
    var s := a + b;
    forall i, j | 0 <= i < j < |s| ensures s[i] != s[j] {
      if i < |a| <= j {
        assert s[i] in a && s[j] in b;
      }
    }
  }

  // ----- Alive, then spare, then dead -----

  function Prime(alive: set<Link>): Link -> bool {
    (x: Link) => x in alive && !x.spare
  }

  function Backup(alive: set<Link>): Link -> bool {
    (x: Link) => x in alive && x.spare
  }

  function Gone(alive: set<Link>): Link -> bool {
    (x: Link) => x !in alive
  }

  function Ordered(s: seq<Link>, alive: set<Link>): seq<Link> {
    Filter(s, Prime(alive)) + Filter(s, Backup(alive)) + Filter(s, Gone(alive))
  }

  method AliveThenSpareThenDeads(satellites: seq<Link>) returns (sorted: seq<Link>)
    ensures sorted == Ordered(satellites, AliveOf(satellites))
  {
    ghost var live := AliveOf(satellites);
    var dead, alive, spare := [], [], [];
    for i := 0 to |satellites|
      invariant alive == Filter(satellites[..i], Prime(live))
      invariant spare == Filter(satellites[..i], Backup(live))
      invariant dead == Filter(satellites[..i], Gone(live))
    {
      var s := satellites[i];
      assert s in satellites;
      FilterStep(satellites, i, Prime(live));
      FilterStep(satellites, i, Backup(live));
      FilterStep(satellites, i, Gone(live));
      if !s.alive {
        dead := dead + [s];
      } else if s.spare {
        spare := spare + [s];
      } else {
        alive := alive + [s];
      }
    }
    assert satellites[..|satellites|] == satellites;
    sorted := [];
    sorted := sorted + alive;
    sorted := sorted + spare;
    sorted := sorted + dead;
  }

  /** A permutation with those alive first, and of those the regular ones first. */
  lemma OrderedRanks(s: seq<Link>)
    ensures var r := Ordered(s, AliveOf(s));
            && multiset(r) == multiset(s)
            && forall i, j :: 0 <= i < j < |r| && r[j].alive ==> r[i].alive && (r[i].spare ==> r[j].spare)
  {
    var live := AliveOf(s);
    OrderedPermutes(s, live);
    ThreeGroups(Filter(s, Prime(live)), Filter(s, Backup(live)), Filter(s, Gone(live)), live);
    assert forall x :: x in Filter(s, Gone(live)) ==> x in s;
    var r := Ordered(s, live);
    forall i, j | 0 <= i < j < |r| && r[j].alive ensures r[i].alive && (r[i].spare ==> r[j].spare) {
      assert r[j] in r && r[i] in r;
    }
  }

  lemma ThreeGroups(a: seq<Link>, b: seq<Link>, c: seq<Link>, live: set<Link>)
    requires (forall x :: x in a ==> x in live && !x.spare) && (forall x :: x in b ==> x in live && x.spare)
    requires forall x :: x in c ==> x !in live
    ensures var r := a + b + c;
            forall i, j :: 0 <= i < j < |r| && r[j] in live ==> r[i] in live && (r[i].spare ==> r[j].spare)
  {
    var r := a + b + c;
    forall i | 0 <= i < |r| ensures if i < |a| then r[i] in a else if i < |a| + |b| then r[i] in b else r[i] in c {
      assert r[i] == if i < |a| then a[i] else if i < |a| + |b| then b[i - |a|] else c[i - |a| - |b|];
    }
  }

  lemma {:induction false} OrderedPermutes(s: seq<Link>, alive: set<Link>)
    ensures multiset(Ordered(s, alive)) == multiset(s)
    decreases |s|
  {
    if s != [] {
      var init, last := s[..|s| - 1], s[|s| - 1];
      OrderedPermutes(init, alive);
      assert s == init + [last];
    }
  }

  lemma OrderedPick(s: seq<Link>, alive: set<Link>, p: Link -> bool)
    requires p == Prime(alive) || p == Backup(alive) || p == Gone(alive)
    ensures Filter(Ordered(s, alive), p) == Filter(s, p)
  {
    var a, b, c := Filter(s, Prime(alive)), Filter(s, Backup(alive)), Filter(s, Gone(alive));
    FilterConcat(a + b, c, p);
    FilterConcat(a, b, p);
    if p == Prime(alive) {
      FilterAll(a, p);
      FilterNone(b, p);
      FilterNone(c, p);
    } else if p == Backup(alive) {
      FilterNone(a, p);
      FilterAll(b, p);
      FilterNone(c, p);
    } else {
      FilterNone(a, p);
      FilterNone(b, p);
      FilterAll(c, p);
    }
  }

  /** The order is a permutation that keeps the order within each of the three groups. */
  lemma OrderedStable(s: seq<Link>, alive: set<Link>)
    ensures multiset(Ordered(s, alive)) == multiset(s)
    ensures Filter(Ordered(s, alive), Prime(alive)) == Filter(s, Prime(alive))
    ensures Filter(Ordered(s, alive), Backup(alive)) == Filter(s, Backup(alive))
    ensures Filter(Ordered(s, alive), Gone(alive)) == Filter(s, Gone(alive))
  {
    OrderedPermutes(s, alive);
    OrderedPick(s, alive, Prime(alive));
    OrderedPick(s, alive, Backup(alive));
    OrderedPick(s, alive, Gone(alive));
  }

  /** No spare comes before a link that is none. */
  predicate SparesLast(s: seq<Link>) {
    forall i, j :: 0 <= i < j < |s| && s[i].spare ==> s[j].spare
  }

  function Among(alive: set<Link>): Link -> bool {
    (x: Link) => x in alive
  }

  /** What is left of the order when only some of the links alive are kept. */
  lemma KeptOrder(s: seq<Link>, alive: set<Link>, keep: set<Link>)
    requires keep <= alive
    ensures Filter(Ordered(s, alive), Among(keep)) ==
            Filter(Filter(s, Prime(alive)), Among(keep)) + Filter(Filter(s, Backup(alive)), Among(keep))
    ensures SparesLast(Filter(Ordered(s, alive), Among(keep)))
    ensures Distinct(s) ==> Distinct(Filter(Ordered(s, alive), Among(keep)))
  {
    var a, b, c := Filter(s, Prime(alive)), Filter(s, Backup(alive)), Filter(s, Gone(alive));
    var p := Among(keep);
    FilterConcat(a + b, c, p);
    FilterConcat(a, b, p);
    FilterNone(c, p);
    var x, y := Filter(a, p), Filter(b, p);
    assert x + y + [] == x + y;
    TwoGroups(x, y);
    if Distinct(s) {
      FilterDistinct(s, Prime(alive));
      FilterDistinct(s, Backup(alive));
      FilterDistinct(a, p);
      FilterDistinct(b, p);
      DistinctConcat(x, y);
    }
  }

  lemma TwoGroups(x: seq<Link>, y: seq<Link>)
    requires (forall l :: l in x ==> !l.spare) && (forall l :: l in y ==> l.spare)
    ensures SparesLast(x + y)
  {
    var s := x + y;
    assert forall i :: 0 <= i < |x| ==> x[i] in x;
    assert forall i :: 0 <= i < |y| ==> y[i] in y;
    assert forall i :: 0 <= i < |s| ==> s[i] == if i < |x| then x[i] else y[i - |x|];
  }

  // ----- Brokers take turns -----

  function Regular(): Link -> bool {
    (x: Link) => !x.spare
  }

  function Spare(): Link -> bool {
    (x: Link) => x.spare
  }

  /** `s[:-idx + 1]` */
  function Front(s: seq<Link>, idx: nat): seq<Link>
    requires idx < |s|
  {
    if idx <= 1 then s[..1 - idx] else s[..|s| - idx + 1]
  }

  /** `s` with the links of `more` that it does not have yet. */
  function AddNew(s: seq<Link>, more: seq<Link>): (r: seq<Link>)
    ensures forall x :: x in r ==> x in s || x in more
    ensures (forall x :: x in s ==> x in r) && (forall x :: x in more ==> x in r)
    ensures Distinct(s) ==> Distinct(r)
    decreases |more|
  {
    if more == [] then s
    else
      var r := AddNew(s, more[..|more| - 1]);
      var last := more[|more| - 1];
      if last in r then r else r + [last]
  }

  /** The regular brokers from the one whose turn it is, then spares. */
  function Rotated(s: seq<Link>, id: nat): seq<Link> {
    var nospare := Filter(s, Regular());
    if nospare == [] then s
    else
      var idx := id % |nospare|;
      AddNew(nospare[idx..], Front(nospare, idx)) + Filter(s, Spare())
  }

  method AddAll(s: seq<Link>, front: seq<Link>) returns (turned: seq<Link>)
    ensures turned == AddNew(s, front)
  {
    turned := s;
    for i := 0 to |front|
      invariant turned == AddNew(s, front[..i])
    {
      assert front[..i + 1][..i] == front[..i];
      if front[i] !in turned {
        turned := turned + [front[i]];
      }
    }
    assert front[..|front|] == front;
  }

  method Rotate(s: seq<Link>, id: nat) returns (r: seq<Link>)
    ensures r == Rotated(s, id)
  {
    r := s;
    var nospare := Filter(s, Regular());
    if |nospare| != 0 {
      var idx := id % |nospare|;
      var spares := Filter(s, Spare());
      var turned := AddAll(nospare[idx..], Front(nospare, idx));
      r := turned + spares;
    }
  }

  lemma RotatedKeeps(s: seq<Link>, id: nat)
    requires Distinct(s)
    ensures Distinct(Rotated(s, id))
    ensures forall x :: x in Rotated(s, id) ==> x in s
    ensures forall x :: x in s && x.spare ==> x in Rotated(s, id)
    ensures SparesLast(s) ==> SparesLast(Rotated(s, id))
  {
    var nospare := Filter(s, Regular());
    if nospare != [] {
      var idx := id % |nospare|;
      var x, y := AddNew(nospare[idx..], Front(nospare, idx)), Filter(s, Spare());
      FilterDistinct(s, Regular());
      FilterDistinct(s, Spare());
      assert forall l :: l in x ==> l in nospare;
      DistinctConcat(x, y);
      TwoGroups(x, y);
    }
  }

  /** How many of those before the turn come back at the end. */
  function Returned(n: nat, idx: nat): nat {
    if idx <= 1 then 0 else if idx <= n - idx + 1 then idx else if n + 1 >= idx then n - idx + 1 else 0
  }

  /** The broker whose turn it is comes first, those behind it follow in order, then some of
      those before it, in order, and then the spares. */
  lemma RotatedIs(s: seq<Link>, id: nat)
    requires Distinct(s)
    ensures var regular := Filter(s, Regular());
            if regular == [] then Rotated(s, id) == s
            else var idx := id % |regular|;
                 && Rotated(s, id) == regular[idx..] + regular[..Returned(|regular|, idx)] + Filter(s, Spare())
                 && Rotated(s, id)[0] == regular[idx]
  {
    var ns := Filter(s, Regular());
    if ns != [] {
      var idx := id % |ns|;
      FilterDistinct(s, Regular());
      if idx == 0 {
        assert Front(ns, idx) == ns[..1];
        AddPrefix(ns, 0, 1);
      } else {
        AddPrefix(ns, idx, |Front(ns, idx)|);
        assert ns[..|Front(ns, idx)|] == Front(ns, idx);
      }
    }
  }

  /** Adding a prefix to a rest adds what lies before the rest. */
  lemma {:induction false} AddPrefix(s: seq<Link>, idx: nat, n: nat)
    requires Distinct(s) && idx <= |s| && n <= |s|
    ensures AddNew(s[idx..], s[..n]) == s[idx..] + s[..if n <= idx then n else idx]
  {
    if n > 0 {
      AddPrefix(s, idx, n - 1);
      assert s[..n][..n - 1] == s[..n - 1];
      PrefixStep(s, idx, n - 1);
    } else {
      assert s[idx..] + [] == s[idx..];
    }
  }

  lemma PrefixStep(s: seq<Link>, idx: nat, k: nat)
    requires Distinct(s) && idx <= |s| && k < |s|
    ensures s[k] in s[idx..] + s[..if k <= idx then k else idx] <==> k >= idx
    ensures k < idx ==> s[idx..] + s[..k + 1] == s[idx..] + s[..k] + [s[k]]
  {
    if k >= idx {
      assert s[idx..][k - idx] == s[k];
    } else {
      assert forall j :: 0 <= j < |s[idx..]| ==> s[idx..][j] == s[idx + j];
      assert s[k] !in s[idx..] && s[k] !in s[..k];
      assert s[..k + 1] == s[..k] + [s[k]];
    }
  }

  /** The rotation keeps every broker exactly if the turn is the first, or at least the third
      and not beyond the middle of the list; otherwise some broker is left out. */
  lemma RotatedComplete(s: seq<Link>, id: nat)
    requires Distinct(s) && Filter(s, Regular()) != []
    ensures var n := |Filter(s, Regular())|;
            var idx := id % n;
            (forall x :: x in s ==> x in Rotated(s, id)) <==> idx == 0 || 2 <= idx <= (n + 1) / 2
  {
    var nospare := Filter(s, Regular());
    var idx := id % |nospare|;
    FilterDistinct(s, Regular());
    if idx == 0 || 2 <= idx <= (|nospare| + 1) / 2 {
      TurnKeeps(nospare, idx);
      assert forall x :: x in s && !x.spare ==> x in nospare;
    } else {
      TurnDrops(nospare, idx);
      assert nospare[idx - 1] in nospare;
    }
  }

  lemma TurnKeeps(nospare: seq<Link>, idx: nat)
    requires idx < |nospare| && (idx == 0 || 2 <= idx <= (|nospare| + 1) / 2)
    ensures forall x :: x in nospare ==> x in AddNew(nospare[idx..], Front(nospare, idx))
  {
    forall x | x in nospare ensures x in nospare[idx..] || x in Front(nospare, idx) {
      var k :| 0 <= k < |nospare| && nospare[k] == x;
      if k >= idx {
        assert nospare[idx..][k - idx] == x;
      } else {
        assert Front(nospare, idx)[k] == x;
      }
    }
  }

  lemma TurnDrops(nospare: seq<Link>, idx: nat)
    requires idx < |nospare| && Distinct(nospare) && !(idx == 0 || 2 <= idx <= (|nospare| + 1) / 2)
    ensures nospare[idx - 1] !in AddNew(nospare[idx..], Front(nospare, idx))
  {
    var l := nospare[idx - 1];
    assert forall k :: 0 <= k < |nospare[idx..]| ==> nospare[idx..][k] == nospare[idx + k];
    assert l !in nospare[idx..];
    assert l !in Front(nospare, idx);
  }

  // ----- The schedulers that a realm may use -----

  function SparesOf(realms: seq<Realm>): (r: seq<Link>)
    ensures forall x :: x in r ==> x.spare && exists h :: h in realms && x in h.schedulers
    ensures forall h, x :: h in realms && x in h.schedulers && x.spare ==> x in r
  {
    if realms == [] then []
    else SparesOf(realms[..|realms| - 1]) + Filter(realms[|realms| - 1].schedulers, Spare())
  }

  /** The realm's own schedulers and the spares of the realms above it. */
  function Pool(r: Realm): (p: seq<Link>)
    ensures r.schedulers <= p
  {
    r.schedulers + SparesOf(r.higherRealms)
  }

  predicate Usable(r: Realm, s: Link) {
    s in r.schedulers || (s.spare && exists h :: h in r.higherRealms && s in h.schedulers)
  }

  lemma PoolUsable(r: Realm)
    ensures forall s :: s in Pool(r) ==> Usable(r, s)
    ensures forall s :: s in r.schedulers ==> s in Pool(r)
    ensures forall h, s :: h in r.higherRealms && s in h.schedulers && s.spare ==> s in Pool(r)
  {
  }

  function Reverse(s: seq<Link>): (r: seq<Link>)
    ensures |r| == |s| && forall i :: 0 <= i < |s| ==> r[i] == s[|s| - 1 - i]
    ensures (forall x :: x in r ==> x in s) && (forall x :: x in s ==> x in r)
  {
    if s == [] then [] else [s[|s| - 1]] + Reverse(s[..|s| - 1])
  }

  /** Popped from the end, a spare comes only after all links that are none. */
  predicate SparesFirst(s: seq<Link>) {
    forall i, j :: 0 <= i < j < |s| && s[j].spare ==> s[i].spare
  }

  lemma FilterOne(x: Link, p: Link -> bool)
    ensures Filter([x], p) == if p(x) then [x] else []
  {
    assert [x][..0] == [];
  }

  lemma ReverseAppend(a: seq<Link>, b: seq<Link>)
    requires |b| <= 1
    ensures Reverse(a + b) == b + Reverse(a)
  {
    if |b| == 1 {
      assert (a + b)[..|a|] == a;
    } else {
      assert a + b == a;
    }
  }

  lemma FilterReverseStep(init: seq<Link>, last: Link, p: Link -> bool)
    requires Filter(Reverse(init), p) == Reverse(Filter(init, p))
    ensures Filter([last] + Reverse(init), p) == Reverse(Filter(init, p) + Filter([last], p))
  {
    FilterOne(last, p);
    FilterConcat([last], Reverse(init), p);
    ReverseAppend(Filter(init, p), Filter([last], p));
  }

  lemma {:induction false} FilterReverse(s: seq<Link>, p: Link -> bool)
    ensures Filter(Reverse(s), p) == Reverse(Filter(s, p))
    decreases |s|
  {
    if s != [] {
      var init, last := s[..|s| - 1], s[|s| - 1];
      assert s == init + [last];
      FilterReverse(init, p);
      FilterReverseStep(init, last, p);
      FilterConcat(init, [last], p);
    }
  }

  lemma CandidateOrder(pool: seq<Link>, alive: set<Link>)
    requires forall x :: x in alive ==> x in pool
    ensures var list := Reverse(Ordered(pool, alive));
            && (forall x :: x in list <==> x in pool)
            && (forall x :: x in Filter(list, Among(alive)) <==> x in alive)
            && SparesFirst(Filter(list, Among(alive)))
  {
    var ordered := Ordered(pool, alive);
    KeptOrder(pool, alive, alive);
    FilterReverse(ordered, Among(alive));
    forall x | x in pool ensures x in ordered {
      assert Prime(alive)(x) || Backup(alive)(x) || Gone(alive)(x);
    }
  }
}
