/** The business-rule language of `shinken/dependencynode.py`: the recursive parser
    that turns an expression into a tree of dependency nodes. */
module BusinessRules {
  import opened Text

  // ----- Nodes -----

  datatype Operand = Unset | And | Or | Of

  datatype OfValues = OfValues(ok: string, warn: string, crit: string)

  const NoValues := OfValues("0", "0", "0")

  /** `Leaf` is what looking up `name` gives, or, if `expanded`, what expanding `name`
      over the configured hosts and services gives.  `NoNode` is Python's `None`. */
  datatype Node =
    | Leaf(name: string, expanded: bool, ofRule: bool, values: OfValues, isOfMul: bool, notValue: bool)
    | Rule(operand: Operand, sons: seq<Node>, values: OfValues, isOfMul: bool, notValue: bool)
    | NoNode

  /** `Crash` is the AttributeError raised when a sub-expression that parsed to None is
      negated. */
  datatype Parse = Parsed(node: Node) | Crash

  const META := "()&|"

  // ----- The Kof: and A,B,Cof: prefix -----

  predicate IsDigit(c: char) {
    '0' <= c <= '9'
  }

  function CountDigits(s: string): (n: nat)
    ensures n <= |s| && forall i :: 0 <= i < n ==> IsDigit(s[i])
    ensures n < |s| ==> !IsDigit(s[n])
  {
    if s != "" && IsDigit(s[0]) then 1 + CountDigits(s[1..]) else 0
  }

  function CountChar(s: string, c: char): (n: nat)
    ensures n <= |s| && forall i :: 0 <= i < n ==> s[i] == c
    ensures n < |s| ==> s[n] != c
  {
    if s != "" && s[0] == c then 1 + CountChar(s[1..], c) else 0
  }

  /** The length of the longest `-?\d*%?` at the start of `s`. */
  function TokenLength(s: string): (n: nat)
    ensures n <= |s|
  {
    var sign := if s != "" && s[0] == '-' then 1 else 0;
    var d := sign + CountDigits(s[sign..]);
    if d < |s| && s[d] == '%' then d + 1 else d
  }

  /** The same with at least one digit, or 0. */
  function FirstTokenLength(s: string): (n: nat)
    ensures n <= |s|
  {
    var sign := if s != "" && s[0] == '-' then 1 else 0;
    if CountDigits(s[sign..]) == 0 then 0 else TokenLength(s)
  }

  datatype OfHead = NoHead | OfHead(a: string, b: string, c: string, rest: string)

  /** `^(-?\d+%?),*(-?\d*%?),*(-?\d*%?) *of:` at the start of `s`. */
  function Head(s: string): (h: OfHead)
    ensures h.OfHead? ==> |h.rest| < |s|
  {
    var l1 := FirstTokenLength(s);
    if l1 == 0 then NoHead
    else
      var s1 := s[l1..];
      var s2 := s1[CountChar(s1, ',')..];
      var l2 := TokenLength(s2);
      var s3 := s2[l2..];
      var s4 := s3[CountChar(s3, ',')..];
      var l3 := TokenLength(s4);
      var s5 := s4[l3..];
      var s6 := s5[CountChar(s5, ' ')..];
      if "of:" <= s6 then OfHead(s[..l1], s2[..l2], s4[..l3], s6[3..]) else NoHead
  }

  function FirstLine(s: string): (r: string)
    ensures r <= s && '\n' !in r && (|r| < |s| ==> s[|r|] == '\n')
  {
    if s == "" || s[0] == '\n' then "" else [s[0]] + FirstLine(s[1..])
  }

  datatype OfMatch = NoMatch | OfMatch(values: OfValues, isMul: bool, pattern: string)

  /** What ` *(.+)` after the colon makes of the rest of the line. */
  function FromHead(h: OfHead): (m: OfMatch)
    ensures m.OfMatch? ==> h.OfHead? && |m.pattern| <= |h.rest|
  {
    match h
    case NoHead => NoMatch
    case OfHead(a, b, c, rest) =>
      var line := FirstLine(rest);
      if line == "" then NoMatch
      else
        var k := CountChar(line, ' ');
        var body := if k == |line| then line[k - 1..] else line[k..];
        if b != "" && c != "" then OfMatch(OfValues(a, b, c), true, body)
        else OfMatch(OfValues(a, "0", "0"), false, body)
  }

  /** eval_xof_pattern */
  function Xof(s: string): (m: OfMatch)
    ensures m.OfMatch? ==> |m.pattern| < |s|
  {
    FromHead(Head(s))
  }

  // ----- Leaves -----

  predicate AllIn(s: string, chars: string) {
    forall i :: 0 <= i < |s| ==> s[i] in chars
  }

  /** `s` starts with a non-empty run of `flags` and a colon. */
  predicate FlagsColon(s: string, flags: string) {
    exists k :: 0 < k < |s| && s[k] == ':' && AllIn(s[..k], flags)
  }

  /** The pattern stands for a set of hosts or services to be expanded. */
  predicate IsExpansion(s: string) {
    || FlagsColon(s, "grlt")
    || "*:" <= s
    || exists k :: 0 <= k < |s| && s[k] == ',' && IsServiceExpansion(StripLeft(s[k + 1..]))
  }

  predicate IsServiceExpansion(s: string) {
    s == "*" || (FlagsColon(s, "grl") && '\n' !in s)
  }

  /** eval_simple_cor_pattern */
  function Simple(pattern: string): Node {
    var m := Xof(pattern);
    var p := if m.OfMatch? then m.pattern else pattern;
    var negated := "!" <= p;
    Leaf(if negated then p[1..] else p, IsExpansion(if negated then p[1..] else p), m.OfMatch?,
         if m.OfMatch? then m.values else NoValues, m.OfMatch? && m.isMul, negated)
  }

  /** One or more flags, or a star, and a colon make a host pattern. */
  lemma HostFlags(flags: string, rest: string)
    requires flags == "*" || (flags != "" && forall i :: 0 <= i < |flags| ==> flags[i] in {'g', 'r', 'l', 't'})
    ensures IsExpansion(flags + ":" + rest)
  {
    var s := flags + ":" + rest;
    assert s[|flags|] == ':' && s[..|flags|] == flags;
    assert flags != "*" ==> FlagsColon(s, "grlt");
  }

  /** So does a comma before a lone star, or before flags and a colon on one line. */
  lemma ServiceFlags(host: string, pad: string, flags: string, rest: string)
    requires AllSpace(pad)
    requires flags != "" && (forall i :: 0 <= i < |flags| ==> flags[i] in {'g', 'r', 'l'}) && '\n' !in rest
    ensures IsExpansion(host + "," + pad + "*") && IsExpansion(host + "," + pad + (flags + ":" + rest))
  {
    var one := flags + ":" + rest;
    assert one[|flags|] == ':' && one[..|flags|] == flags;
    assert IsServiceExpansion(one) && IsServiceExpansion("*");
    BehindComma(host, pad, "*");
    BehindComma(host, pad, one);
  }

  lemma BehindComma(host: string, pad: string, service: string)
    requires AllSpace(pad) && service != "" && !IsSpace(service[0]) && IsServiceExpansion(service)
    ensures IsExpansion(host + "," + pad + service)
  {
    var s := host + "," + pad + service;
    assert s[|host|] == ',' && s[|host| + 1..] == pad + service;
    StripLeftPad(pad, service);
  }

  /** Nothing without a colon or a star at its end, and no host that starts otherwise. */
  lemma PlainNames(s: string)
    ensures ':' !in s && (s == "" || s[|s| - 1] != '*') ==> !IsExpansion(s)
    ensures ',' !in s && (s == "" || s[0] !in {'g', 'r', 'l', 't', '*'}) ==> !IsExpansion(s)
  {
    if FlagsColon(s, "grlt") {
      var k :| 0 < k < |s| && s[k] == ':' && AllIn(s[..k], "grlt");
      assert s[..k][0] == s[0] && ':' in s;
      assert s[0] in "grlt";
      assert s[0] in {'g', 'r', 'l', 't'};
    } else if "*:" <= s {
      assert s[0] == '*' && s[1] == ':';
    } else if IsExpansion(s) {
      var k :| 0 <= k < |s| && s[k] == ',' && IsServiceExpansion(StripLeft(s[k + 1..]));
      BehindCommaIs(s, k);
    }
  }

  lemma BehindCommaIs(s: string, k: nat)
    requires k < |s| && IsServiceExpansion(StripLeft(s[k + 1..]))
    ensures ':' in s || s[|s| - 1] == '*'
  {
    var t := StripLeft(s[k + 1..]);
    StripLeftSuffix(s[k + 1..]);
    assert forall i :: 0 <= i < |t| ==> t[i] == s[|s| - |t| + i];
  }

  /** A leading `!` negates the leaf, whatever its name. */
  lemma NegatedLeaf(name: string)
    ensures Simple("!" + name) == Leaf(name, IsExpansion(name), false, NoValues, false, true)
  {
    var p := "!" + name;
    assert p[0] == '!' && p[1..] == name;
    assert FirstTokenLength(p) == 0;
  }

  // ----- The character loop -----

  datatype State = State(operand: Operand, values: OfValues, isOfMul: bool, sons: seq<Node>,
                         tmp: string, inPar: bool, stackedPar: int, sonIsNot: bool)

  /** What is left of a pattern of length `n` still yields shorter sub-patterns: either a
      character has been dropped already, or the first metacharacter is still to come. */
  predicate Fits(st: State, rest: string, n: nat) {
    || |st.tmp| + |rest| < n
    || (|st.tmp| + |rest| == n && HasAny(rest, META) && !st.inPar && st.stackedPar == 0)
  }

  function SwitchZero(v: string, n: nat): string {
    if v == "0" then Str(n) else v
  }

  function Switched(v: OfValues, n: nat): OfValues {
    OfValues(SwitchZero(v.ok, n), SwitchZero(v.warn, n), SwitchZero(v.crit, n))
  }

  function Negate(o: Node): Node
    requires !o.NoNode?
  {
    o.(notValue := true)
  }

  datatype Attached = Failed | Attached(st: State)

  /** Appends a parsed son, negated if a `!` preceded it. */
  function Attach(st: State, o: Parse): (a: Attached)
    ensures a.Attached? ==> a.st == st.(sons := a.st.sons, sonIsNot := false)
  {
    match o
    case Crash => Failed
    case Parsed(node) =>
      if !st.sonIsNot then Attached(st.(sons := st.sons + [node]))
      else if node.NoNode? then Failed
      else Attached(st.(sons := st.sons + [Negate(node)], sonIsNot := false))
  }

  /** eval_cor_pattern */
  function Eval(pattern: string): Parse
    decreases |pattern|, 1, 0
  {
    var p := Strip(pattern);
    if HasAny(p, META) then Complex(p) else Parsed(Simple(p))
  }

  function Initial(m: OfMatch): State {
    match m
    case NoMatch => State(Unset, NoValues, false, [], "", false, 0, false)
    case OfMatch(values, isMul, _) => State(Of, values, isMul, [], "", false, 0, false)
  }

  /** eval_complex_cor_pattern */
  function Complex(p: string): Parse
    requires HasAny(p, META)
    decreases |p|, 0, |p| + 2
  {
    var m := Xof(p);
    Scan(Initial(m), if m.OfMatch? then m.pattern else p, |p|)
  }

  function Scan(st: State, rest: string, n: nat): Parse
    requires Fits(st, rest, n)
    decreases n, 0, |rest| + 1
  {
    if rest == "" then Finish(st, n)
    else
      var c := rest[0];
      var more := rest[1..];
      if c == '(' then Scan(Open(st), more, n)
      else if c == ')' then
        if st.stackedPar - 1 == 0 then
          var a := Attach(st, Eval(Strip(st.tmp)));
          if a.Failed? then Crash else Scan(a.st.(tmp := "", inPar := false, stackedPar := 0), more, n)
        else Scan(Close(st), more, n)
      else if st.inPar then Scan(st.(tmp := st.tmp + [c]), more, n)
      else if c == '!' then Scan(Not(st), more, n)
      else if c == '&' || c == '|' then
        var op := if c == '&' then And else Or;
        if st.operand != Unset && st.operand != Of && st.operand != op then Parsed(NoNode)
        else
          var st1 := if st.operand == Of then st else st.(operand := op);
          var tmp := Strip(st.tmp);
          if tmp == "" then Scan(st1.(tmp := ""), more, n)
          else
            var a := Attach(st1, Eval(tmp));
            if a.Failed? then Crash else Scan(a.st.(tmp := ""), more, n)
      else Scan(st.(tmp := st.tmp + [c]), more, n)
  }

  /** An opening parenthesis. */
  function Open(st: State): (r: State)
    ensures |r.tmp| <= |st.tmp| + (if st.stackedPar > 0 then 1 else 0)
  {
    var tmp := Strip(st.tmp);
    st.(stackedPar := st.stackedPar + 1, inPar := true,
    tmp := if st.stackedPar > 0 then tmp + "(" else tmp)
  }

  /** A closing parenthesis that does not end a sub-expression. */
  function Close(st: State): (r: State)
    requires st.stackedPar != 1
    ensures |r.tmp| <= |st.tmp| + (if st.stackedPar > 1 then 1 else 0)
  {
    if st.stackedPar - 1 < 0 then st.(stackedPar := st.stackedPar - 1)
    else st.(stackedPar := st.stackedPar - 1, tmp := st.tmp + ")")
  }

  /** A `!` outside parentheses. */
  function Not(st: State): (r: State)
    ensures |r.tmp| <= |st.tmp|
  {
    var tmp := Strip(st.tmp);
    if tmp != "" && tmp[0] != '!' then st.(tmp := tmp) else st.(tmp := tmp, sonIsNot := true)
  }

  function Finish(st: State, n: nat): Parse
    requires |st.tmp| < n
    decreases n, 0, 0
  {
    var tmp := Strip(st.tmp);
    var a := if tmp == "" then Attached(st) else Attach(st, Eval(tmp));
    if a.Failed? then Crash
    else Parsed(Rule(a.st.operand, a.st.sons, Switched(a.st.values, |a.st.sons|), a.st.isOfMul, false))
  }

  // ----- The parser as the source runs it -----

  method EvalCorPattern(pattern: string) returns (r: Parse)
    ensures r == Eval(pattern)
    decreases |pattern|, 1, 0
  {
    var p := Strip(pattern);
    var complexNode := false;
    for i := 0 to |META|
      invariant complexNode <==> exists k :: 0 <= k < i && META[k] in p
    {
      if META[i] in p {
        complexNode := true;
      }
    }
    MetaInPattern(p);
    if complexNode {
      r := EvalComplexCorPattern(p);
    } else {
      r := Parsed(Simple(p));
    }
  }

  lemma MetaInPattern(p: string)
    ensures HasAny(p, META) <==> exists k :: 0 <= k < |META| && META[k] in p
  {
    if HasAny(p, META) {
      var i :| 0 <= i < |p| && p[i] in META;
      var k :| 0 <= k < |META| && META[k] == p[i];
    }
  }

  method EvalComplexCorPattern(p: string) returns (r: Parse)
    requires HasAny(p, META)
    ensures r == Complex(p)
    decreases |p|, 0, 1
  {
    var m := Xof(p);
    r := EvalCharacters(Initial(m), if m.OfMatch? then m.pattern else p, |p|);
  }

  /** The character loop; `st` holds the values of the source's loop variables. */
  method EvalCharacters(start: State, pattern: string, ghost n: nat) returns (r: Parse)
    requires Fits(start, pattern, n)
    ensures r == Scan(start, pattern, n)
    decreases n, 0, 0
  {
    var st := start;
    var i := 0;
    while i < |pattern|
      invariant 0 <= i <= |pattern| && Fits(st, pattern[i..], n)
      invariant Scan(start, pattern, n) == Scan(st, pattern[i..], n)
    {
      var c := pattern[i];
      assert pattern[i..][0] == c && pattern[i..][1..] == pattern[i + 1..];
      i := i + 1;
      if c == '(' {
        st := Open(st);
      } else if c == ')' {
        if st.stackedPar - 1 == 0 {
          var o := EvalCorPattern(Strip(st.tmp));
          var a := Attach(st, o);
          if a.Failed? {
            return Crash;
          }
          st := a.st.(tmp := "", inPar := false, stackedPar := 0);
        } else {
          st := Close(st);
        }
      } else if st.inPar {
        st := st.(tmp := st.tmp + [c]);
      } else if c == '!' {
        st := Not(st);
      } else if c == '&' || c == '|' {
        var op := if c == '&' then And else Or;
        if st.operand != Unset && st.operand != Of && st.operand != op {
          return Parsed(NoNode);
        }
        var tmp := Strip(st.tmp);
        if st.operand != Of {
          st := st.(operand := op);
        }
        if tmp != "" {
          var o := EvalCorPattern(tmp);
          var a := Attach(st, o);
          if a.Failed? {
            return Crash;
          }
          st := a.st;
        }
        st := st.(tmp := "");
      } else {
        st := st.(tmp := st.tmp + [c]);
      }
    }
    assert pattern[i..] == "";
    var tmp := Strip(st.tmp);
    if tmp != "" {
      var o := EvalCorPattern(tmp);
      var a := Attach(st, o);
      if a.Failed? {
        return Crash;
      }
      st := a.st;
    }
    r := Parsed(Rule(st.operand, st.sons, Switched(st.values, |st.sons|), st.isOfMul, false));
  }
}
