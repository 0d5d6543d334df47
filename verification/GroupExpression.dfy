/** The group-expression language of `shinken/complexexpression.py`: its recursive parser
    and the resolution of a parsed expression to a set of hosts. */
module GroupExpressions {
  import opened Text

  datatype Operand = Unset | And | Or

  /** A leaf names a group; `notValue` tells whether it was written with `!`. */
  datatype Node =
    | Leaf(name: string, notValue: bool)
    | Level(operand: Operand, sons: seq<Node>)

  const META := "()+&|,"

  // ----- The parser -----

  datatype State = State(operand: Operand, sons: seq<Node>, tmp: string, inPar: bool, stackedPar: int)

  const START := State(Unset, [], "", false, 0)

  predicate IsOr(c: char) {
    c == ',' || c == '|'
  }

  predicate IsAnd(c: char) {
    c == '&' || c == '+'
  }

  function OperandOf(c: char): Operand {
    if IsOr(c) then Or else And
  }

  /** What is left of a pattern of length `n` still yields shorter sub-patterns: either a
      character has been dropped already, or the first metacharacter is still to come. */
  predicate Fits(st: State, rest: string, n: nat) {
    || |st.tmp| + |rest| < n
    || (|st.tmp| + |rest| == n && HasAny(rest, META) && !st.inPar && st.stackedPar == 0)
  }

  function SimpleLeaf(p: string): (r: Node)
    ensures r.Leaf? && (r.notValue <==> p != "" && p[0] == '!')
    ensures r == Leaf(Strip(if r.notValue then p[1..] else p), r.notValue)
  {
    if "!" <= p then Leaf(Strip(p[1..]), true) else Leaf(Strip(p), false)
  }

  /** eval_cor_pattern */
  function Eval(pattern: string): Node
    decreases |pattern|, 1, 0
  {
    var p := Strip(pattern);
    if HasAny(p, META) then Scan(START, p, |p|) else SimpleLeaf(p)
  }

  function Scan(st: State, rest: string, n: nat): Node
    requires Fits(st, rest, n)
    decreases n, 0, |rest| + 1
  {
    if rest == "" then Finish(st, n)
    else
      var c := rest[0];
      var more := rest[1..];
      if IsOr(c) || IsAnd(c) then
        if st.inPar then Scan(st.(tmp := st.tmp + [c]), more, n)
        else
          var tmp := Strip(st.tmp);
          var sons := if tmp == "" then st.sons else st.sons + [Eval(tmp)];
          Scan(st.(operand := OperandOf(c), sons := sons, tmp := ""), more, n)
      else if c == '(' then Scan(Open(st), more, n)
      else if c == ')' then
        if st.stackedPar - 1 == 0 then
          Scan(st.(sons := st.sons + [Eval(Strip(st.tmp))], tmp := "", inPar := false, stackedPar := 0), more, n)
        else Scan(Close(st), more, n)
      else Scan(st.(tmp := st.tmp + [c]), more, n)
  }

  function Open(st: State): (r: State)
    ensures |r.tmp| <= |st.tmp| + (if st.stackedPar > 0 then 1 else 0)
  {
    var tmp := Strip(st.tmp);
    st.(stackedPar := st.stackedPar + 1, inPar := true,
    tmp := if st.stackedPar > 0 then tmp + "(" else tmp)
  }

  /** A closing parenthesis that does not end a sub-expression. */
  function Close(st: State): (r: State)
    requires st.stackedPar != 1
    ensures |r.tmp| <= |st.tmp| + (if st.stackedPar > 1 then 1 else 0)
  {
    if st.stackedPar - 1 < 0 then st.(stackedPar := st.stackedPar - 1)
    else st.(stackedPar := st.stackedPar - 1, tmp := st.tmp + ")")
  }

  function Finish(st: State, n: nat): Node
    requires |st.tmp| < n
    decreases n, 0, 0
  {
    var tmp := Strip(st.tmp);
    Level(st.operand, if tmp == "" then st.sons else st.sons + [Eval(tmp)])
  }

  // ----- The parser as the source runs it -----

  method EvalCorPattern(pattern: string) returns (r: Node)
    ensures r == Eval(pattern)
    decreases |pattern|, 1
  {
    var p := Strip(pattern);
    var complexNode := false;
    for i := 0 to |META|
      invariant complexNode <==> exists k :: 0 <= k < i && META[k] in p
    {
      if META[i] in p {
        complexNode := true;
      }
    }
    MetaInPattern(p);
    if complexNode {
      r := EvalCharacters(p, |p|);
    } else {
      r := SimpleLeaf(p);
    }
  }

  lemma MetaInPattern(p: string)
    ensures HasAny(p, META) <==> exists k :: 0 <= k < |META| && META[k] in p
  {
    if HasAny(p, META) {
      var i :| 0 <= i < |p| && p[i] in META;
      var k :| 0 <= k < |META| && META[k] == p[i];
    }
  }

  method EvalCharacters(pattern: string, ghost n: nat) returns (r: Node)
    requires Fits(START, pattern, n)
    ensures r == Scan(START, pattern, n)
    decreases n, 0
  {
    var operand, sons, tmp, inPar, stackedPar := Unset, [], "", false, 0;
    var i := 0;
    while i < |pattern|
      invariant 0 <= i <= |pattern| && Fits(State(operand, sons, tmp, inPar, stackedPar), pattern[i..], n)
      invariant Scan(START, pattern, n) == Scan(State(operand, sons, tmp, inPar, stackedPar), pattern[i..], n)
    {
      var c := pattern[i];
      assert pattern[i..][0] == c && pattern[i..][1..] == pattern[i + 1..];
      i := i + 1;
      if c == ',' || c == '|' {
        if inPar {
          tmp := tmp + [c];
        } else {
          tmp := Strip(tmp);
          operand := Or;
          if tmp != "" {
            var o := EvalCorPattern(tmp);
            sons := sons + [o];
          }
          tmp := "";
        }
      } else if c == '&' || c == '+' {
        if inPar {
          tmp := tmp + [c];
        } else {
          tmp := Strip(tmp);
          operand := And;
          if tmp != "" {
            var o := EvalCorPattern(tmp);
            sons := sons + [o];
          }
          tmp := "";
        }
      } else if c == '(' {
        stackedPar := stackedPar + 1;
        inPar := true;
        tmp := Strip(tmp);
        if stackedPar > 1 {
          tmp := tmp + [c];
        }
      } else if c == ')' {
        stackedPar := stackedPar - 1;
        if stackedPar < 0 {
          continue;
        }
        if stackedPar == 0 {
          tmp := Strip(tmp);
          var o := EvalCorPattern(tmp);
          sons := sons + [o];
          inPar := false;
          tmp := "";
          continue;
        }
        tmp := tmp + [c];
      } else {
        tmp := tmp + [c];
      }
    }
    assert pattern[i..] == "";
    tmp := Strip(tmp);
    if tmp != "" {
      var o := EvalCorPattern(tmp);
      sons := sons + [o];
    }
    r := Level(operand, sons);
  }

  // ----- Resolution -----

  /** The members of a group; an unknown group has none. */
  function Found(groups: map<string, set<string>>, name: string): set<string> {
    if name in groups then groups[name] else {}
  }

  predicate IsNot(n: Node) {
    n.Leaf? && n.notValue
  }

  /** What the sons that are not negated contribute, `seen` of them having been merged into
      `res` already. */
  function MergePositive(groups: map<string, set<string>>, op: Operand, sons: seq<Node>, res: set<string>, seen: nat): set<string>
    decreases sons
  {
    if sons == [] then res
    else if IsNot(sons[0]) then MergePositive(groups, op, sons[1..], res, seen)
    else
      var members := Resolve(groups, sons[0]);
      var merged := if op == And then (if seen == 0 then members else res * members) else res + members;
      MergePositive(groups, op, sons[1..], merged, seen + 1)
  }

  function RemoveNegative(groups: map<string, set<string>>, sons: seq<Node>, res: set<string>): set<string>
    decreases sons
  {
    if sons == [] then res
    else if IsNot(sons[0]) then RemoveNegative(groups, sons[1..], res - Resolve(groups, sons[0]))
    else RemoveNegative(groups, sons[1..], res)
  }

  /** resolve_elements; a level without operator counts as an `|`. */
  function Resolve(groups: map<string, set<string>>, node: Node): set<string>
    decreases node
  {
    match node
    case Leaf(name, _) => Found(groups, name)
    case Level(op, sons) => RemoveNegative(groups, sons, MergePositive(groups, op, sons, {}, 0))
  }

  method ResolveElements(groups: map<string, set<string>>, node: Node) returns (res: set<string>)
    ensures res == Resolve(groups, node)
    decreases node
  {
    if node.Leaf? {
      return Found(groups, node.name);
    }
    var sons := node.sons;
    res := {};
    var i := 0;
    for k := 0 to |sons|
      invariant MergePositive(groups, node.operand, sons, {}, 0) ==
                MergePositive(groups, node.operand, sons[k..], res, i)
    {
      assert sons[k..][0] == sons[k] && sons[k..][1..] == sons[k + 1..];
      if !IsNot(sons[k]) {
        var members := ResolveElements(groups, sons[k]);
        if node.operand == And {
          res := if i == 0 then members else res * members;
        } else {
          res := res + members;
        }
        i := i + 1;
      }
    }
    assert sons[|sons|..] == [];
    ghost var positive := res;
    for k := 0 to |sons|
      invariant RemoveNegative(groups, sons, positive) == RemoveNegative(groups, sons[k..], res)
    {
      assert sons[k..][0] == sons[k] && sons[k..][1..] == sons[k + 1..];
      if IsNot(sons[k]) {
        var members := ResolveElements(groups, sons[k]);
        res := res - members;
      }
    }
    assert sons[|sons|..] == [];
  }
}
