/** How a business rule computes its state from the states of its hosts and services
    (`DependencyNode.get_state` and its helpers in `shinken/dependencynode.py`), and the
    laws this evaluation obeys. */
module RuleStates {

  datatype Kind = Host | Service

  /** A value of an of: rule: a number of sons or a percentage of them. */
  datatype Threshold = Count(n: int) | Percent(p: int)

  datatype Operator = And | Or | Of(ok: Threshold, warn: Threshold, crit: Threshold, isOfMul: bool)

  /** A rule: one host or service with its hard state, or an operator over sons. */
  datatype Rule =
    | Item(kind: Kind, state: int, notValue: bool)
    | Node(operator: Operator, sons: seq<Rule>, notValue: bool)

  /** Every operator has a son; the others are rejected when the configuration is read. */
  predicate Valid(r: Rule)
    decreases r
  {
    r.Node? ==> r.sons != [] && ValidAll(r.sons)
  }

  predicate ValidAll(rs: seq<Rule>)
    decreases rs
  {
    rs != [] ==> Valid(rs[0]) && ValidAll(rs[1..])
  }

  // ----- Evaluation -----

  function ReverseState(state: int): int {
    if state == 1 then 1 else if state == 0 then 2 else if state == 2 then 0 else state
  }

  function ItemState(kind: Kind, hard: int, notValue: bool): int {
    // DOWN looks like CRITICAL
    var state := if kind == Host && hard == 1 then 2 else hard;
    if !notValue then state
    else if kind == Host && state == 1 then 0
    else if kind == Host && state == 0 then 1
    else if kind == Service && state == 2 then 0
    else if kind == Service && state == 0 then 2
    else state
  }

  function Best(states: seq<int>): (m: int)
    requires states != []
    ensures m in states && forall i :: 0 <= i < |states| ==> m <= states[i]
  {
    if |states| == 1 then states[0]
    else
      var rest := Best(states[1..]);
      if states[0] <= rest then states[0] else rest
  }

  function Largest(states: seq<int>): (m: int)
    requires states != []
    ensures m in states && forall i :: 0 <= i < |states| ==> states[i] <= m
  {
    if |states| == 1 then states[0]
    else
      var rest := Largest(states[1..]);
      if states[0] >= rest then states[0] else rest
  }

  /** Critical beats unknown. */
  function Worst(states: seq<int>): (m: int)
    requires states != []
    ensures m in states
    ensures m == 2 || (2 !in states && forall i :: 0 <= i < |states| ==> states[i] <= m)
  {
    if 2 in states then 2 else Largest(states)
  }

  function CountOf(states: seq<int>, state: int): (n: nat)
    ensures n <= |states|
  {
    if states == [] then 0 else (if states[0] == state then 1 else 0) + CountOf(states[1..], state)
  }

  function AtLeastZero(x: int): int {
    if x < 0 then 0 else x
  }

  /** Whether `found` sons out of `total` reach the threshold; a negative threshold counts
      down from all of them. */
  predicate Applies(total: nat, found: nat, t: Threshold) {
    match t
    case Count(n) => found >= (if n < 0 then AtLeastZero(total + n) else n)
    case Percent(p) => found * 100 >= (if p < 0 then AtLeastZero(100 + p) else p) * total
  }

  /** A count of sons, or a share of them in percent, is reached; a negative one is what may
      be missing. */
  lemma AppliesIs(total: nat, found: nat, n: int)
    ensures n >= 0 ==> (Applies(total, found, Count(n)) <==> found >= n)
    ensures n < 0 ==> (Applies(total, found, Count(n)) <==> found >= total + n)
    ensures n >= 0 ==> (Applies(total, found, Percent(n)) <==> 100 * found >= n * total)
    ensures n < 0 ==> (Applies(total, found, Percent(n)) <==> 100 * found >= (100 + n) * total)
  {
    PercentIs(total, found, n);
  }

  lemma PercentIs(total: nat, found: nat, p: int)
    ensures Applies(total, found, Percent(p)) <==> 100 * found >= (if p < 0 then 100 + p else p) * total
  {
    if p < -100 {
      NonPositive(100 + p, total);
      assert Applies(total, found, Percent(p)) <==> found * 100 >= 0 * total;
    }
  }

  lemma NonPositive(a: int, b: nat)
    requires a <= 0
    ensures a * b <= 0
  {
  }

  lemma {:induction false} CountIs(states: seq<int>, v: int)
    ensures CountOf(states, v) == multiset(states)[v]
  {
    if states != [] {
      CountIs(states[1..], v);
      assert states == [states[0]] + states[1..];
    }
  }

  /** Critical if enough sons are; else warning if enough are warning or critical; else OK for
      A,B,Cof:, or if enough are OK; else critical if any is, or else the largest state. */
  lemma OfStateIs(states: seq<int>, op: Operator)
    requires states != [] && op.Of?
    ensures var n, m, r := |states|, multiset(states), OfState(states, op);
            var critical, warning, ok := Applies(n, m[2], op.crit), Applies(n, m[1] + m[2], op.warn), Applies(n, m[0], op.ok);
            && (critical ==> r == 2)
            && (!critical && warning ==> r == 1)
            && (!critical && !warning && (ok || op.isOfMul) ==> r == 0)
            && (!critical && !warning && !ok && !op.isOfMul ==>
                  r in states && (r == 2 || (2 !in states && forall i :: 0 <= i < |states| ==> states[i] <= r)))
  {
    CountIs(states, 0);
    CountIs(states, 1);
    CountIs(states, 2);
  }

  /** A host that is DOWN counts as critical, negated or not; a negated host that is up counts
      as warning; a negated service swaps OK and critical. */
  lemma ItemTable(hard: int)
    ensures ItemState(Host, 0, false) == 0 && ItemState(Host, 1, false) == 2 && ItemState(Host, 0, true) == 1
    ensures ItemState(Host, 1, true) == 2
    ensures ItemState(Service, 0, true) == 2 && ItemState(Service, 1, true) == 1 && ItemState(Service, 2, true) == 0
    ensures ItemState(Service, hard, false) == hard
    ensures hard !in {0, 1} ==> ItemState(Host, hard, false) == hard && ItemState(Host, hard, true) == hard
    ensures hard !in {0, 2} ==> ItemState(Service, hard, true) == hard
  {
  }

  function OfState(states: seq<int>, op: Operator): int
    requires states != [] && op.Of?
  {
    var total := |states|;
    var nbCrit := CountOf(states, 2);
    var nbWarn := CountOf(states, 1);
    if Applies(total, nbCrit, op.crit) then 2
    else if Applies(total, nbWarn + nbCrit, op.warn) then 1
    else if Applies(total, CountOf(states, 0), op.ok) then 0
    else if op.isOfMul then 0
    else Worst(states)
  }

  function OperatorState(op: Operator, states: seq<int>): int
    requires states != []
  {
    match op
    case Or => Best(states)
    case And => Worst(states)
    case Of(_, _, _, _) => OfState(states, op)
  }

  function GetState(r: Rule): int
    requires Valid(r)
    decreases r
  {
    match r
    case Item(kind, state, notValue) => ItemState(kind, state, notValue)
    case Node(op, sons, notValue) =>
      var state := OperatorState(op, GetStates(sons));
      if notValue then ReverseState(state) else state
  }

  function GetStates(rs: seq<Rule>): (states: seq<int>)
    requires ValidAll(rs)
    ensures |states| == |rs|
    decreases rs
  {
    if rs == [] then [] else [GetState(rs[0])] + GetStates(rs[1..])
  }

  // ----- Service rules -----

  /** All leaves are services in state OK, WARNING or CRITICAL. */
  predicate Plain(r: Rule)
    decreases r
  {
    match r
    case Item(kind, state, _) => kind == Service && 0 <= state <= 2
    case Node(_, sons, _) => PlainAll(sons)
  }

  predicate PlainAll(rs: seq<Rule>)
    decreases rs
  {
    rs != [] ==> Plain(rs[0]) && PlainAll(rs[1..])
  }

  predicate InRange(states: seq<int>) {
    forall i :: 0 <= i < |states| ==> 0 <= states[i] <= 2
  }

  lemma {:induction false} StatesInRange(rs: seq<Rule>)
    requires ValidAll(rs) && PlainAll(rs)
    ensures InRange(GetStates(rs))
    decreases rs
  {
    if rs != [] {
      StateInRange(rs[0]);
      StatesInRange(rs[1..]);
    }
  }

  /** Such a rule is itself OK, WARNING or CRITICAL. */
  lemma {:induction false} StateInRange(r: Rule)
    requires Valid(r) && Plain(r)
    ensures 0 <= GetState(r) <= 2
    decreases r
  {
    if r.Node? {
      StatesInRange(r.sons);
    }
  }

  // ----- Pushing negation -----

  function Flip(op: Operator): Operator {
    match op
    case And => Or
    case Or => And
    case Of(_, _, _, _) => op
  }

  /** The rule, negated if `neg`, with the negation of & and | nodes moved to their sons. */
  function Push(r: Rule, neg: bool): Rule
    decreases r
  {
    var negated := r.notValue != neg;
    match r
    case Item(kind, state, _) => Item(kind, state, negated)
    case Node(op, sons, _) =>
      if op.Of? then Node(op, PushAll(sons, false), negated)
      else Node(if negated then Flip(op) else op, PushAll(sons, negated), false)
  }

  function PushAll(rs: seq<Rule>, neg: bool): (ps: seq<Rule>)
    ensures |ps| == |rs|
    decreases rs
  {
    if rs == [] then [] else [Push(rs[0], neg)] + PushAll(rs[1..], neg)
  }

  /** No & or | node is negated. */
  predicate Pushed(r: Rule)
    decreases r
  {
    r.Node? ==> (r.operator.Of? || !r.notValue) && PushedAll(r.sons)
  }

  predicate PushedAll(rs: seq<Rule>)
    decreases rs
  {
    rs != [] ==> Pushed(rs[0]) && PushedAll(rs[1..])
  }

  function Mirrored(states: seq<int>): (m: seq<int>)
    ensures |m| == |states| && forall i :: 0 <= i < |states| ==> m[i] == 2 - states[i]
  {
    seq(|states|, i requires 0 <= i < |states| => 2 - states[i])
  }

  /** Mirroring the sons turns the worst state into the mirrored best one. */
  lemma MirrorWorst(states: seq<int>)
    requires states != [] && InRange(states)
    ensures Worst(Mirrored(states)) == 2 - Best(states)
    ensures Best(Mirrored(states)) == 2 - Worst(states)
  {
    var m := Mirrored(states);
    var b :| 0 <= b < |states| && states[b] == Best(states);
    assert m[b] == 2 - Best(states);
    var w :| 0 <= w < |m| && m[w] == Best(m);
    assert states[w] == 2 - Best(m);
    assert Worst(states) == Largest(states) && Worst(m) == Largest(m);
  }

  lemma MirrorOperator(op: Operator, states: seq<int>)
    requires states != [] && InRange(states) && !op.Of?
    ensures OperatorState(Flip(op), Mirrored(states)) == 2 - OperatorState(op, states)
  {
    MirrorWorst(states);
  }

  lemma {:induction false} PushAllValid(rs: seq<Rule>, neg: bool)
    requires ValidAll(rs) && PlainAll(rs)
    ensures var ps := PushAll(rs, neg); ValidAll(ps) && PlainAll(ps) && PushedAll(ps)
    decreases rs
  {
    if rs != [] {
      PushValid(rs[0], neg);
      PushAllValid(rs[1..], neg);
    }
  }

  lemma {:induction false} PushValid(r: Rule, neg: bool)
    requires Valid(r) && Plain(r)
    ensures var p := Push(r, neg); Valid(p) && Plain(p) && Pushed(p)
    decreases r
  {
    if r.Node? {
      PushAllValid(r.sons, if r.operator.Of? then false else r.notValue != neg);
    }
  }

  lemma {:induction false} PushAllStates(rs: seq<Rule>, neg: bool)
    requires ValidAll(rs) && PlainAll(rs)
    ensures ValidAll(PushAll(rs, neg))
    ensures GetStates(PushAll(rs, neg)) == if neg then Mirrored(GetStates(rs)) else GetStates(rs)
    decreases rs
  {
    PushAllValid(rs, neg);
    if rs != [] {
      PushState(rs[0], neg);
      PushAllStates(rs[1..], neg);
      assert PushAll(rs, neg)[1..] == PushAll(rs[1..], neg);
    }
  }

  /** Pushing negation down through & and | changes no state; asking for the negation
      mirrors it. */
  lemma {:induction false} PushState(r: Rule, neg: bool)
    requires Valid(r) && Plain(r)
    ensures Valid(Push(r, neg)) && Pushed(Push(r, neg))
    ensures GetState(Push(r, neg)) == if neg then 2 - GetState(r) else GetState(r)
    decreases r
  {
    PushValid(r, neg);
    if r.Node? {
      StatesInRange(r.sons);
      OperatorInRange(r.operator, GetStates(r.sons));
      if r.operator.Of? {
        PushAllStates(r.sons, false);
      } else {
        PushAllStates(r.sons, r.notValue != neg);
        MirrorOperator(r.operator, GetStates(r.sons));
      }
    }
  }

  lemma OperatorInRange(op: Operator, states: seq<int>)
    requires states != [] && InRange(states)
    ensures 0 <= OperatorState(op, states) <= 2
  {
  }

  // ----- Simple Kof: rules -----

  /** The operator of a simple Kof: rule over `n` sons, after the zero values have been
      replaced by the number of sons. */
  function AtLeast(k: Threshold, n: nat): Operator {
    Of(if k == Count(0) then Count(n) else k, Count(n), Count(n), false)
  }

  lemma {:induction false} CountsAddUp(states: seq<int>)
    requires InRange(states)
    ensures CountOf(states, 0) + CountOf(states, 1) + CountOf(states, 2) == |states|
  {
    if states != [] {
      CountsAddUp(states[1..]);
    }
  }

  lemma {:induction false} CountPresent(states: seq<int>, v: int)
    ensures CountOf(states, v) > 0 <==> v in states
    ensures CountOf(states, v) == |states| <==> forall i :: 0 <= i < |states| ==> states[i] == v
  {
    if states != [] {
      CountPresent(states[1..], v);
      assert states == [states[0]] + states[1..];
      assert forall i :: 0 < i < |states| ==> states[i] == states[1..][i - 1];
    }
  }

  /** Where one OK son is enough, a simple Kof: rule is the best of its sons. */
  lemma OneSuffices(states: seq<int>, k: Threshold)
    requires states != [] && InRange(states)
    requires Applies(|states|, 1, AtLeast(k, |states|).ok)
    ensures OfState(states, AtLeast(k, |states|)) == Best(states)
  {
    CountsAddUp(states);
    CountPresent(states, 0);
    CountPresent(states, 1);
    CountPresent(states, 2);
    if CountOf(states, 0) > 0 {
      MoreFound(|states|, 1, CountOf(states, 0), AtLeast(k, |states|).ok);
    }
  }

  lemma MoreFound(total: nat, a: nat, b: nat, t: Threshold)
    requires a <= b && Applies(total, a, t)
    ensures Applies(total, b, t)
  {
  }

  /** 1of: and | are the same. */
  lemma OneOfIsOr(sons: seq<Rule>, notValue: bool)
    requires sons != [] && ValidAll(sons) && PlainAll(sons)
    ensures GetState(Node(AtLeast(Count(1), |sons|), sons, notValue)) == GetState(Node(Or, sons, notValue))
  {
    StatesInRange(sons);
    OneSuffices(GetStates(sons), Count(1));
  }

  // ----- Monotonicity -----

  predicate BelowStates(s: seq<int>, t: seq<int>) {
    |s| == |t| && InRange(s) && InRange(t) && forall i :: 0 <= i < |s| ==> s[i] <= t[i]
  }

  /** An operator never improves when its sons get worse. */
  ghost predicate Monotone(op: Operator, n: nat) {
    forall s: seq<int>, t: seq<int> :: |s| == n && n > 0 && BelowStates(s, t) ==>
      OperatorState(op, s) <= OperatorState(op, t)
  }

  lemma {:induction false} CountsBelow(s: seq<int>, t: seq<int>)
    requires BelowStates(s, t)
    ensures CountOf(s, 2) <= CountOf(t, 2)
    ensures CountOf(s, 1) + CountOf(s, 2) <= CountOf(t, 1) + CountOf(t, 2)
  {
    if s != [] {
      CountsBelow(s[1..], t[1..]);
    }
  }

  lemma BestBelow(s: seq<int>, t: seq<int>)
    requires BelowStates(s, t) && s != []
    ensures Best(s) <= Best(t) && Worst(s) <= Worst(t)
  {
    var i :| 0 <= i < |t| && t[i] == Best(t);
    assert Best(s) <= s[i];
    var j :| 0 <= j < |s| && s[j] == Largest(s);
    assert t[j] <= Largest(t);
  }

  /** &, | and A,B,Cof: are monotone. */
  lemma PlainOperatorsMonotone(op: Operator, n: nat)
    requires op.Of? ==> op.isOfMul
    ensures Monotone(op, n)
  {
    forall s: seq<int>, t: seq<int> | |s| == n && n > 0 && BelowStates(s, t)
      ensures OperatorState(op, s) <= OperatorState(op, t)
    {
      BestBelow(s, t);
      CountsBelow(s, t);
      if op.Of? {
        if Applies(n, CountOf(s, 2), op.crit) {
          MoreFound(n, CountOf(s, 2), CountOf(t, 2), op.crit);
        } else if Applies(n, CountOf(s, 1) + CountOf(s, 2), op.warn) {
          MoreFound(n, CountOf(s, 1) + CountOf(s, 2), CountOf(t, 1) + CountOf(t, 2), op.warn);
        }
      }
    }
  }

  function Ones(n: nat): (s: seq<int>)
    ensures |s| == n && forall i :: 0 <= i < n ==> s[i] == 1
  {
    seq(n, _ => 1)
  }

  lemma {:induction false} OnesCount(n: nat)
    ensures CountOf(Ones(n), 1) == n && CountOf(Ones(n), 0) == 0 && CountOf(Ones(n), 2) == 0
  {
    if n > 0 {
      OnesCount(n - 1);
      assert Ones(n)[1..] == Ones(n - 1);
    }
  }

  lemma CountTwo(a: int, b: int, rest: seq<int>, v: int)
    ensures CountOf([a, b] + rest, v) == (if a == v then 1 else 0) + (if b == v then 1 else 0) + CountOf(rest, v)
  {
    var s := [a, b] + rest;
    assert s[1..] == [b] + rest;
    assert s[1..][1..] == rest;
  }

  /** A simple Kof: rule is monotone exactly when it has a single son or one OK son is
      enough.  Otherwise an OK son that turns WARNING can improve the rule from CRITICAL
      to WARNING. */
  lemma SimpleOfMonotone(k: Threshold, n: nat)
    requires n > 0
    ensures Monotone(AtLeast(k, n), n) <==> n == 1 || Applies(n, 1, AtLeast(k, n).ok)
  {
    var op := AtLeast(k, n);
    if n == 1 {
      SingleMonotone(k);
    } else if Applies(n, 1, op.ok) {
      forall s: seq<int>, t: seq<int> | |s| == n && BelowStates(s, t)
        ensures OperatorState(op, s) <= OperatorState(op, t)
      {
        OneSuffices(s, k);
        OneSuffices(t, k);
        BestBelow(s, t);
      }
    } else {
      Improves(k, n);
    }
  }

  lemma SingleMonotone(k: Threshold)
    ensures Monotone(AtLeast(k, 1), 1)
  {
    forall s: seq<int>, t: seq<int> | |s| == 1 && BelowStates(s, t)
      ensures OperatorState(AtLeast(k, 1), s) <= OperatorState(AtLeast(k, 1), t)
    {
      assert s == [s[0]] && t == [t[0]];
    }
  }

  lemma Improves(k: Threshold, n: nat)
    requires n >= 2 && !Applies(n, 1, AtLeast(k, n).ok)
    ensures !Monotone(AtLeast(k, n), n)
  {
    var op := AtLeast(k, n);
    var ones := Ones(n - 2);
    var s, t := [0, 2] + ones, [1, 2] + ones;
    OnesCount(n - 2);
    CountTwo(0, 2, ones, 0);
    CountTwo(0, 2, ones, 1);
    CountTwo(0, 2, ones, 2);
    CountTwo(1, 2, ones, 1);
    CountTwo(1, 2, ones, 2);
    assert s[1] == 2;
    assert BelowStates(s, t) && OperatorState(op, s) == 2 && OperatorState(op, t) == 1;
  }

  /** `a` and `b` are the same rule without negation or simple Kof:, and no leaf of `b` is
      in a better state. */
  predicate Below(a: Rule, b: Rule)
    decreases a
  {
    !a.notValue && !b.notValue &&
    match a
    case Item(kind, state, _) => b.Item? && b.kind == kind && 0 <= state <= b.state <= 2
    case Node(op, sons, _) => b.Node? && b.operator == op && (op.Of? ==> op.isOfMul) && BelowAll(sons, b.sons)
  }

  predicate BelowAll(a: seq<Rule>, b: seq<Rule>)
    decreases a
  {
    |a| == |b| && (a != [] ==> Below(a[0], b[0]) && BelowAll(a[1..], b[1..]))
  }

  lemma {:induction false} AllMonotone(a: seq<Rule>, b: seq<Rule>)
    requires ValidAll(a) && ValidAll(b) && BelowAll(a, b)
    ensures BelowStates(GetStates(a), GetStates(b))
    decreases a
  {
    if a != [] {
      RuleMonotone(a[0], b[0]);
      AllMonotone(a[1..], b[1..]);
    }
  }

  /** A rule without negation built from &, | and A,B,Cof: never improves when hosts or
      services get worse. */
  lemma {:induction false} RuleMonotone(a: Rule, b: Rule)
    requires Valid(a) && Valid(b) && Below(a, b)
    ensures 0 <= GetState(a) <= GetState(b) <= 2
    decreases a
  {
    if a.Node? {
      AllMonotone(a.sons, b.sons);
      PlainOperatorsMonotone(a.operator, |a.sons|);
      OperatorInRange(a.operator, GetStates(a.sons));
      OperatorInRange(b.operator, GetStates(b.sons));
    }
  }
}
