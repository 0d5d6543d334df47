/** What the text of a business rule evaluates to: the tree that parsing it gives is the
    rule whose state `get_state` computes. */
module BusinessRuleMeaning {
  import Options
  import opened Text
  import opened BusinessRules
  import opened BusinessRuleRoundTrip
  import R = RuleStates

  /** The host or service that a name finds, with its hard state. */
  datatype Element = Element(kind: R.Kind, state: int)

  type Lookup = string -> Element

  // ----- Numbers -----

  function DigitValue(c: char): int {
    c as int - '0' as int
  }

  function DecimalOf(s: string): int {
    if s == "" then 0 else 10 * DecimalOf(s[..|s| - 1]) + DigitValue(s[|s| - 1])
  }

  /** `int(s)` */
  function IntOf(s: string): int {
    if "-" <= s then -DecimalOf(s[1..]) else DecimalOf(s)
  }

  /** One of the of: values of a node, as it is read when the state is computed. */
  function ThresholdOf(v: string): R.Threshold {
    if v != "" && v[|v| - 1] == '%' then R.Percent(IntOf(v[..|v| - 1])) else R.Count(IntOf(v))
  }

  function QuantityValue(q: Quantity): R.Threshold {
    var n := if q.negative then -DecimalOf(q.digits) else DecimalOf(q.digits);
    if q.percent then R.Percent(n) else R.Count(n)
  }

  lemma QuantityRead(q: Quantity)
    requires q.Valid()
    ensures ThresholdOf(q.Text()) == QuantityValue(q)
  {
    var sign := if q.negative then "-" else "";
    var plain := sign + q.digits;
    SignedRead(q.negative, q.digits, plain);
    if q.percent {
      assert q.Text() == plain + "%" && (plain + "%")[..|plain|] == plain;
    } else {
      assert q.Text() == plain + "" == plain;
      assert plain[|plain| - 1] == q.digits[|q.digits| - 1];
    }
  }

  lemma SignedRead(negative: bool, digits: string, plain: string)
    requires digits != "" && IsDigit(digits[0]) && plain == (if negative then "-" else "") + digits
    ensures IntOf(plain) == if negative then -DecimalOf(digits) else DecimalOf(digits)
  {
    if negative {
      assert plain[0] == '-' && plain[1..] == digits;
    } else {
      assert plain == digits && digits[0] != '-';
    }
  }

  // ----- The rule that a node stands for -----

  function OperatorOf(operand: Operand, values: OfValues, isOfMul: bool): R.Operator {
    match operand
    case And => R.And
    case Or => R.Or
    case _ => R.Of(ThresholdOf(values.ok), ThresholdOf(values.warn), ThresholdOf(values.crit), isOfMul)
  }

  /** A node without names to expand, each operator with sons. */
  predicate Evaluable(node: Node)
    decreases node
  {
    match node
    case Leaf(_, expanded, ofRule, _, _, _) => !expanded && !ofRule
    case Rule(operand, sons, _, _, _) => operand != Unset && sons != [] && EvaluableAll(sons)
    case NoNode => false
  }

  predicate EvaluableAll(nodes: seq<Node>)
    decreases nodes
  {
    nodes != [] ==> Evaluable(nodes[0]) && EvaluableAll(nodes[1..])
  }

  function RuleOf(node: Node, found: Lookup): (r: R.Rule)
    requires Evaluable(node)
    ensures R.Valid(r)
    decreases node
  {
    match node
    case Leaf(name, _, _, _, _, notValue) => R.Item(found(name).kind, found(name).state, notValue)
    case Rule(operand, sons, values, isOfMul, notValue) =>
      R.Node(OperatorOf(operand, values, isOfMul), RulesOf(sons, found), notValue)
  }

  function RulesOf(nodes: seq<Node>, found: Lookup): (rs: seq<R.Rule>)
    requires EvaluableAll(nodes)
    ensures R.ValidAll(rs) && |rs| == |nodes|
    decreases nodes
  {
    if nodes == [] then [] else [RuleOf(nodes[0], found)] + RulesOf(nodes[1..], found)
  }

  /** The state of the rule that a text is parsed to, if there is one to evaluate. */
  function TextState(text: string, found: Lookup): Options.Option<int> {
    match Eval(text)
    case Crash => Options.None
    case Parsed(node) => if Evaluable(node) then Options.Some(R.GetState(RuleOf(node, found))) else Options.None
  }

  // ----- What the text says -----

  /** A quota over so many sons; the values not given, and a plain 0, stand for all sons. */
  function QuotaOperator(q: Quota, n: nat): R.Operator {
    match q
    case AtLeast(k) => R.Of(OrAll(k, n), R.Count(n), R.Count(n), false)
    case Levels(a, b, c) => R.Of(OrAll(a, n), OrAll(b, n), OrAll(c, n), true)
  }

  function OrAll(q: Quantity, n: nat): R.Threshold {
    if q.Text() == "0" then R.Count(n) else QuantityValue(q)
  }

  /** So many of `n` sons are enough for the quantity: that many, or that share of them in
      percent; a negative one is what may be missing, and a plain 0 asks for all. */
  predicate Enough(q: Quantity, found: nat, n: nat) {
    var v := DecimalOf(q.digits);
    if q.Text() == "0" then found >= n
    else if q.percent then 100 * found >= (if q.negative && v > 0 then 100 - v else v) * n
    else found >= if q.negative && v > 0 then n - v else v
  }

  /** What a quota makes of the states of its sons. */
  function QuotaState(q: Quota, states: seq<int>): int
    requires states != []
  {
    var n, m := |states|, multiset(states);
    match q
    case Levels(ok, warn, crit) => if Enough(crit, m[2], n) then 2 else if Enough(warn, m[1] + m[2], n) then 1 else 0
    case AtLeast(k) =>
      if m[2] >= n then 2 else if m[1] + m[2] >= n then 1 else if Enough(k, m[0], n) then 0 else R.Worst(states)
  }

  /** The state of a host or service in a rule. A host that is down is critical. */
  function ElementState(e: Element, negated: bool): int {
    if e.kind == R.Host then if e.state == 1 then 2 else if negated && e.state == 0 then 1 else e.state
    else if negated then Opposite(e.state) else e.state
  }

  function Opposite(state: int): int {
    if state == 0 then 2 else if state == 2 then 0 else state
  }

  /** The state of a rule, from the states of what it names: the worst of all sons for &, the
      best for |, what the quota makes of them for of:. */
  function TreeState(t: Tree, found: Lookup): int
    requires Valid(t)
    decreases t, 0
  {
    match t
    case Name(name) => ElementState(found(name), false)
    case All(sons) => R.Worst(SonStates(sons, found))
    case Any(sons) => R.Best(SonStates(sons, found))
    case Some(quota, _, sons) => QuotaState(quota, SonStates(sons, found))
  }

  function SonState(s: Son, found: Lookup): int
    requires ValidSon(s)
    decreases s, 1
  {
    if s.tree.Name? then ElementState(found(s.tree.name), s.negated)
    else if s.negated then Opposite(TreeState(s.tree, found))
    else TreeState(s.tree, found)
  }

  function SonStates(sons: seq<Son>, found: Lookup): (states: seq<int>)
    requires ValidSons(sons)
    ensures |states| == |sons|
    decreases sons
  {
    if sons == [] then [] else [SonState(sons[0], found)] + SonStates(sons[1..], found)
  }

  // ----- The text means what it says -----

  lemma {:induction false} StrRead(n: nat)
    ensures DecimalOf(Str(n)) == n && Str(n)[0] != '-' && forall i :: 0 <= i < |Str(n)| ==> IsDigit(Str(n)[i])
  {
    var s := Str(n);
    if n < 10 {
      assert s == [Text.Digit(n)] && s[..0] == "";
    } else {
      StrRead(n / 10);
      assert s[..|s| - 1] == Str(n / 10) && s[|s| - 1] == Text.Digit(n % 10);
    }
  }

  lemma CountRead(n: nat)
    ensures ThresholdOf(Str(n)) == R.Count(n)
  {
    StrRead(n);
  }

  /** A value is read as its quantity, or as the number of sons in place of a 0. */
  lemma SwitchedRead(q: Quantity, n: nat)
    requires q.Valid()
    ensures ThresholdOf(SwitchZero(q.Text(), n)) == OrAll(q, n)
  {
    QuantityRead(q);
    CountRead(n);
  }

  lemma QuotaRead(q: Quota, n: nat)
    requires ValidQuota(q)
    ensures OperatorOf(Of, Switched(QuotaValues(q), n), q.Levels?) == QuotaOperator(q, n)
  {
    match q
    case AtLeast(k) =>
      SwitchedRead(k, n);
      CountRead(n);
    case Levels(a, b, c) =>
      SwitchedRead(a, n);
      SwitchedRead(b, n);
      SwitchedRead(c, n);
  }

  lemma EnoughMeans(q: Quantity, found: nat, n: nat)
    requires q.Valid()
    ensures R.Applies(n, found, OrAll(q, n)) <==> Enough(q, found, n)
  {
    var v := DecimalOf(q.digits);
    DecimalNatural(q.digits);
    R.AppliesIs(n, found, if q.negative then -v else v);
    R.AppliesIs(n, found, n);
  }

  lemma {:induction false} DecimalNatural(s: string)
    requires forall i :: 0 <= i < |s| ==> IsDigit(s[i])
    ensures DecimalOf(s) >= 0
  {
    if s != "" {
      DecimalNatural(s[..|s| - 1]);
    }
  }

  /** Evaluating an of: level gives what its quota says. */
  lemma QuotaMeans(q: Quota, states: seq<int>)
    requires ValidQuota(q) && states != []
    ensures R.OfState(states, QuotaOperator(q, |states|)) == QuotaState(q, states)
  {
    match q {
      case Levels(ok, warn, crit) => LevelsMean(ok, warn, crit, states);
      case AtLeast(k) => AtLeastMeans(k, states);
    }
  }

  lemma LevelsMean(ok: Quantity, warn: Quantity, crit: Quantity, states: seq<int>)
    requires ok.Valid() && warn.Valid() && crit.Valid() && states != []
    ensures R.OfState(states, QuotaOperator(Levels(ok, warn, crit), |states|)) == QuotaState(Levels(ok, warn, crit), states)
  {
    var n, m := |states|, multiset(states);
    R.OfStateIs(states, QuotaOperator(Levels(ok, warn, crit), n));
    EnoughMeans(crit, m[2], n);
    EnoughMeans(warn, m[1] + m[2], n);
  }

  lemma AtLeastMeans(k: Quantity, states: seq<int>)
    requires k.Valid() && states != []
    ensures R.OfState(states, QuotaOperator(AtLeast(k), |states|)) == QuotaState(AtLeast(k), states)
  {
    var n, m, r := |states|, multiset(states), R.OfState(states, QuotaOperator(AtLeast(k), |states|));
    R.OfStateIs(states, QuotaOperator(AtLeast(k), n));
    EnoughMeans(k, m[0], n);
    AllReached(n, m[2]);
    AllReached(n, m[1] + m[2]);
    if r in states {
      WorstUnique(states, r);
    }
  }

  lemma AllReached(n: nat, found: nat)
    ensures R.Applies(n, found, R.Count(n)) <==> found >= n
  {
    R.AppliesIs(n, found, n);
  }

  lemma WorstUnique(states: seq<int>, r: int)
    requires states != [] && r in states
    ensures (r == 2 || (2 !in states && forall i :: 0 <= i < |states| ==> states[i] <= r)) ==> r == R.Worst(states)
  {
  }

  lemma {:induction false} SonsMean(sons: seq<Son>, found: Lookup)
    requires ValidSons(sons)
    ensures EvaluableAll(ToNodes(sons)) && R.GetStates(RulesOf(ToNodes(sons), found)) == SonStates(sons, found)
    decreases sons
  {
    if sons != [] {
      SonMeans(sons[0], found);
      SonsMean(sons[1..], found);
      assert ToNodes(sons)[1..] == ToNodes(sons[1..]);
    }
  }

  lemma {:induction false} SonMeans(s: Son, found: Lookup)
    requires ValidSon(s)
    ensures Evaluable(ToNode(s)) && R.GetState(RuleOf(ToNode(s), found)) == SonState(s, found)
    decreases s
  {
    match s.tree
    case Name(_) => NameMeans(s, found);
    case All(sons) =>
      SonsMean(sons, found);
      PlainMeans(s, found);
    case Any(sons) =>
      SonsMean(sons, found);
      PlainMeans(s, found);
    case Some(_, _, sons) =>
      SonsMean(sons, found);
      QuotaSonMeans(s, found);
  }

  lemma NameMeans(s: Son, found: Lookup)
    requires ValidSon(s) && s.tree.Name?
    ensures Evaluable(ToNode(s)) && R.GetState(RuleOf(ToNode(s), found)) == SonState(s, found)
  {
    R.ItemTable(found(s.tree.name).state);
  }

  predicate SonsDone(sons: seq<Son>, found: Lookup)
    requires ValidSons(sons)
  {
    EvaluableAll(ToNodes(sons)) && R.GetStates(RulesOf(ToNodes(sons), found)) == SonStates(sons, found)
  }

  lemma PlainMeans(s: Son, found: Lookup)
    requires ValidSon(s) && (s.tree.All? || s.tree.Any?) && ValidSons(s.tree.sons) && SonsDone(s.tree.sons, found)
    ensures Evaluable(ToNode(s)) && R.GetState(RuleOf(ToNode(s), found)) == SonState(s, found)
  {
  }

  lemma QuotaSonMeans(s: Son, found: Lookup)
    requires ValidSon(s) && s.tree.Some? && ValidSons(s.tree.sons) && SonsDone(s.tree.sons, found)
    ensures Evaluable(ToNode(s)) && R.GetState(RuleOf(ToNode(s), found)) == SonState(s, found)
  {
    QuotaRead(s.tree.quota, |s.tree.sons|);
    QuotaMeans(s.tree.quota, SonStates(s.tree.sons, found));
  }

  /** The state that parsing and evaluating the text of a rule gives is the state that the
      rule says, for whatever its names find. */
  lemma TextMeans(t: Tree, pad: nat, found: Lookup)
    requires Valid(t)
    ensures TextState(Print(t, pad), found) == Options.Some(TreeState(t, found))
  {
    RoundTrip(t, pad);
    SonMeans(Son(false, t), found);
  }

  // ----- Laws of texts -----

  /** All names in the rule find services in state OK, WARNING or CRITICAL. */
  predicate FindsServices(t: Tree, found: Lookup)
    decreases t
  {
    match t
    case Name(name) => found(name).kind == R.Service && 0 <= found(name).state <= 2
    case All(sons) => AllFindServices(sons, found)
    case Any(sons) => AllFindServices(sons, found)
    case Some(_, _, sons) => AllFindServices(sons, found)
  }

  predicate AllFindServices(sons: seq<Son>, found: Lookup)
    decreases sons
  {
    sons != [] ==> SonFindsServices(sons[0], found) && AllFindServices(sons[1..], found)
  }

  predicate SonFindsServices(s: Son, found: Lookup)
    decreases s
  {
    FindsServices(s.tree, found)
  }

  lemma {:induction false} StatesInRange(sons: seq<Son>, found: Lookup)
    requires ValidSons(sons) && AllFindServices(sons, found)
    ensures R.InRange(SonStates(sons, found))
    decreases sons
  {
    if sons != [] {
      SonInRange(sons[0], found);
      StatesInRange(sons[1..], found);
    }
  }

  lemma {:induction false} SonInRange(s: Son, found: Lookup)
    requires ValidSon(s) && SonFindsServices(s, found)
    ensures 0 <= SonState(s, found) <= 2
    decreases s
  {
    StateInRange(s.tree, found);
  }

  lemma {:induction false} StateInRange(t: Tree, found: Lookup)
    requires Valid(t) && FindsServices(t, found)
    ensures 0 <= TreeState(t, found) <= 2
    decreases t
  {
    if !t.Name? {
      StatesInRange(t.sons, found);
      R.OperatorInRange(if t.All? then R.And else if t.Any? then R.Or else QuotaOperator(t.quota, |t.sons|), SonStates(t.sons, found));
      if t.Some? {
        QuotaMeans(t.quota, SonStates(t.sons, found));
      }
    }
  }

  const ONE := Quantity(false, "1", false)

  /** The text `1of: a | b | ...`, with either separator, has the state of `a | b | ...`. */
  lemma OneOfText(sons: seq<Son>, separator: char, pad: nat, found: Lookup)
    requires |sons| >= 2 && ValidSons(sons) && AllFindServices(sons, found) && (separator == '&' || separator == '|')
    ensures TextState(Print(Tree.Some(AtLeast(ONE), separator, sons), pad), found) == TextState(Print(Any(sons), pad), found)
  {
    TextMeans(Tree.Some(AtLeast(ONE), separator, sons), pad, found);
    TextMeans(Any(sons), pad, found);
    StatesInRange(sons, found);
    OneIsBest(SonStates(sons, found));
  }

  lemma OneIsBest(states: seq<int>)
    requires states != [] && R.InRange(states)
    ensures QuotaState(AtLeast(ONE), states) == R.Best(states)
  {
    OneRead();
    QuotaMeans(AtLeast(ONE), states);
    R.OneSuffices(states, R.Count(1));
  }

  lemma OneRead()
    ensures ONE.Valid() && forall n: nat :: OrAll(ONE, n) == R.Count(1)
  {
    assert DecimalOf("1") == 1 by {
      assert "1"[..0] == "";
    }
    assert ONE.Text() == "1";
  }

  /** What the names find in the one is no better than in the other. */
  ghost predicate Worsens(found: Lookup, worse: Lookup) {
    forall name :: worse(name).kind == found(name).kind && 0 <= found(name).state <= worse(name).state <= 2
  }

  /** No negation and no simple Kof:. */
  predicate Positive(t: Tree)
    decreases t
  {
    match t
    case Name(_) => true
    case All(sons) => AllPositive(sons)
    case Any(sons) => AllPositive(sons)
    case Some(quota, _, sons) => quota.Levels? && AllPositive(sons)
  }

  predicate AllPositive(sons: seq<Son>)
    decreases sons
  {
    sons != [] ==> PositiveSon(sons[0]) && AllPositive(sons[1..])
  }

  predicate PositiveSon(s: Son)
    decreases s
  {
    !s.negated && Positive(s.tree)
  }

  lemma {:induction false} NodesBelow(sons: seq<Son>, found: Lookup, worse: Lookup)
    requires ValidSons(sons) && AllPositive(sons) && Worsens(found, worse) && EvaluableAll(ToNodes(sons))
    ensures R.BelowAll(RulesOf(ToNodes(sons), found), RulesOf(ToNodes(sons), worse))
    decreases sons
  {
    if sons != [] {
      assert ToNodes(sons)[1..] == ToNodes(sons[1..]);
      NodeBelow(sons[0], found, worse);
      NodesBelow(sons[1..], found, worse);
    }
  }

  lemma {:induction false} NodeBelow(s: Son, found: Lookup, worse: Lookup)
    requires ValidSon(s) && PositiveSon(s) && Worsens(found, worse) && Evaluable(ToNode(s))
    ensures R.Below(RuleOf(ToNode(s), found), RuleOf(ToNode(s), worse))
    decreases s
  {
    if !s.tree.Name? {
      NodesBelow(s.tree.sons, found, worse);
    }
  }

  /** Where hosts and services get worse, the text of such a rule does not get better. */
  lemma TextMonotone(t: Tree, pad: nat, found: Lookup, worse: Lookup)
    requires Valid(t) && Positive(t) && Worsens(found, worse)
    ensures TextState(Print(t, pad), found).Some? && TextState(Print(t, pad), worse).Some?
    ensures TextState(Print(t, pad), found).value <= TextState(Print(t, pad), worse).value
  {
    RoundTrip(t, pad);
    SonMeans(Son(false, t), found);
    NodeBelow(Son(false, t), found, worse);
    R.RuleMonotone(RuleOf(ToNode(Son(false, t)), found), RuleOf(ToNode(Son(false, t)), worse));
  }
}
