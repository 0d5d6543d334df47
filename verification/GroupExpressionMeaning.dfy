/** A printed group expression resolves to the set it means. */
module GroupExpressionMeaning {
  import opened Text
  import opened Brackets
  import opened GroupExpressions

  // ----- Expressions, their text and their meaning -----

  /** Only a group name can be negated; `seps` are the operators between the sons. */
  datatype Expr =
    | Name(negated: bool, name: string)
    | Group(sons: seq<Expr>, seps: string)

  type Groups = map<string, set<string>>

  predicate PlainName(s: string) {
    Trimmed(s) && !HasAny(s, META) && '\n' !in s && s[0] != '!'
  }

  predicate AllOperators(seps: string) {
    forall i :: 0 <= i < |seps| ==> IsOr(seps[i]) || IsAnd(seps[i])
  }

  /** A level has two or more sons, or is a parenthesis around another level. */
  predicate Valid(e: Expr)
    decreases e
  {
    match e
    case Name(_, name) => PlainName(name)
    case Group(sons, seps) =>
      ValidSons(sons) && AllOperators(seps) && |sons| == |seps| + 1 && (|sons| == 1 ==> sons[0].Group?)
  }

  predicate ValidSons(sons: seq<Expr>)
    decreases sons
  {
    sons != [] ==> Valid(sons[0]) && ValidSons(sons[1..])
  }

  /** The text, with `pad` spaces around operators except before a parenthesis. */
  function Print(e: Expr, pad: nat): string
    decreases e, 0
  {
    match e
    case Name(negated, name) => (if negated then "!" else "") + name
    case Group(sons, seps) => Join(sons, seps, pad)
  }

  function Join(sons: seq<Expr>, seps: string, pad: nat): string
    decreases sons
  {
    if sons == [] then ""
    else if |sons| == 1 || seps == "" then SonText(sons[0], pad)
    else SonText(sons[0], pad) + (Spaces(pad) + [seps[0]] + Lead(sons[1], pad) + Join(sons[1..], seps[1..], pad))
  }

  function SonText(s: Expr, pad: nat): string
    decreases s, 1
  {
    if s.Name? then Print(s, pad) else "(" + Print(s, pad) + ")"
  }

  function Lead(s: Expr, pad: nat): string {
    if s.Name? then Spaces(pad) else ""
  }

  predicate Negative(e: Expr) {
    e.Name? && e.negated
  }

  /** The last operator of a level decides how its sons combine. */
  function Operator(seps: string): Operand {
    if seps == "" then Unset
    else if seps[|seps| - 1] == '&' || seps[|seps| - 1] == '+' then And
    else Or
  }

  /** `x` belongs to what the expression means: to some positive son, where the last operator
      is & or + to all of them, and to no negated group. */
  ghost predicate Member(groups: Groups, e: Expr, x: string)
    decreases e
  {
    match e
    case Name(_, name) => name in groups && x in groups[name]
    case Group(sons, seps) =>
      && (exists i :: 0 <= i < |sons| && !(sons[i].Name? && sons[i].negated) && Member(groups, sons[i], x))
      && (seps != "" && (seps[|seps| - 1] == '&' || seps[|seps| - 1] == '+') ==>
            forall i :: 0 <= i < |sons| && !(sons[i].Name? && sons[i].negated) ==> Member(groups, sons[i], x))
      && (forall i :: 0 <= i < |sons| && sons[i].Name? && sons[i].negated ==> !Member(groups, sons[i], x))
  }

  function ToNode(e: Expr): Node
    decreases e
  {
    match e
    case Name(negated, name) => Leaf(name, negated)
    case Group(sons, seps) => Level(Operator(seps), ToNodes(sons))
  }

  function ToNodes(sons: seq<Expr>): (r: seq<Node>)
    ensures |r| == |sons|
    decreases sons
  {
    if sons == [] then [] else [ToNode(sons[0])] + ToNodes(sons[1..])
  }

  lemma {:induction false} ToNodesAt(sons: seq<Expr>)
    ensures forall i :: 0 <= i < |sons| ==> ToNodes(sons)[i] == ToNode(sons[i])
  {
    if sons != [] {
      ToNodesAt(sons[1..]);
      forall i | 0 < i < |sons| ensures ToNodes(sons)[i] == ToNode(sons[i]) {
        assert ToNodes(sons)[i] == ToNodes(sons[1..])[i - 1] && sons[i] == sons[1..][i - 1];
      }
    }
  }

  // ----- Resolution, element by element -----

  predicate SomePositive(sons: seq<Node>) {
    exists i :: 0 <= i < |sons| && !IsNot(sons[i])
  }

  predicate InSome(groups: Groups, sons: seq<Node>, x: string) {
    exists i :: 0 <= i < |sons| && !IsNot(sons[i]) && x in Resolve(groups, sons[i])
  }

  predicate InAll(groups: Groups, sons: seq<Node>, x: string) {
    forall i :: 0 <= i < |sons| && !IsNot(sons[i]) ==> x in Resolve(groups, sons[i])
  }

  predicate InNone(groups: Groups, sons: seq<Node>, x: string) {
    forall i :: 0 <= i < |sons| && IsNot(sons[i]) ==> x !in Resolve(groups, sons[i])
  }

  lemma Split(sons: seq<Node>, groups: Groups, x: string)
    requires sons != []
    ensures SomePositive(sons) <==> !IsNot(sons[0]) || SomePositive(sons[1..])
    ensures InSome(groups, sons, x) <==> (!IsNot(sons[0]) && x in Resolve(groups, sons[0])) || InSome(groups, sons[1..], x)
    ensures InAll(groups, sons, x) <==> (!IsNot(sons[0]) ==> x in Resolve(groups, sons[0])) && InAll(groups, sons[1..], x)
    ensures InNone(groups, sons, x) <==> (IsNot(sons[0]) ==> x !in Resolve(groups, sons[0])) && InNone(groups, sons[1..], x)
  {
    var tail := sons[1..];
    assert sons == [sons[0]] + tail;
    assert forall i :: 0 < i < |sons| ==> sons[i] == tail[i - 1];
    assert forall i :: 0 <= i < |tail| ==> tail[i] == sons[i + 1];
  }

  lemma {:induction false} MergeOr(groups: Groups, op: Operand, sons: seq<Node>, res: set<string>, seen: nat, x: string)
    requires op != And
    ensures x in MergePositive(groups, op, sons, res, seen) <==> x in res || InSome(groups, sons, x)
    decreases |sons|
  {
    if sons != [] {
      Split(sons, groups, x);
      var keep := IsNot(sons[0]);
      MergeOr(groups, op, sons[1..], if keep then res else res + Resolve(groups, sons[0]), if keep then seen else seen + 1, x);
    }
  }

  lemma {:induction false} MergeAnd(groups: Groups, sons: seq<Node>, res: set<string>, seen: nat, x: string)
    ensures x in MergePositive(groups, And, sons, res, seen) <==>
            if seen == 0 && SomePositive(sons) then InAll(groups, sons, x) else x in res && InAll(groups, sons, x)
    decreases |sons|
  {
    if sons != [] {
      Split(sons, groups, x);
      if IsNot(sons[0]) {
        MergeAnd(groups, sons[1..], res, seen, x);
      } else {
        var members := Resolve(groups, sons[0]);
        MergeAnd(groups, sons[1..], if seen == 0 then members else res * members, seen + 1, x);
      }
    }
  }

  lemma {:induction false} Remove(groups: Groups, sons: seq<Node>, res: set<string>, x: string)
    ensures x in RemoveNegative(groups, sons, res) <==> x in res && InNone(groups, sons, x)
    decreases |sons|
  {
    if sons != [] {
      Split(sons, groups, x);
      Remove(groups, sons[1..], if IsNot(sons[0]) then res - Resolve(groups, sons[0]) else res, x);
    }
  }

  lemma ResolveLevel(groups: Groups, op: Operand, sons: seq<Node>, x: string)
    ensures x in Resolve(groups, Level(op, sons)) <==>
            InSome(groups, sons, x) && (op == And ==> InAll(groups, sons, x)) && InNone(groups, sons, x)
  {
    Remove(groups, sons, MergePositive(groups, op, sons, {}, 0), x);
    if op == And {
      MergeAnd(groups, sons, {}, 0, x);
    } else {
      MergeOr(groups, op, sons, {}, 0, x);
    }
  }

  /** The tree of an expression resolves to what the expression means. */
  lemma {:induction false} ResolveMeaning(groups: Groups, e: Expr, x: string)
    ensures x in Resolve(groups, ToNode(e)) <==> Member(groups, e, x)
    decreases e
  {
    match e
    case Name(_, _) =>
    case Group(sons, seps) =>
      var nodes := ToNodes(sons);
      ToNodesAt(sons);
      ResolveLevel(groups, Operator(seps), nodes, x);
      forall i | 0 <= i < |sons|
        ensures x in Resolve(groups, nodes[i]) <==> Member(groups, sons[i], x)
        ensures IsNot(nodes[i]) <==> Negative(sons[i])
      {
        ResolveMeaning(groups, sons[i], x);
      }
      LevelMeaning(groups, e, nodes, x);
  }

  lemma LevelMeaning(groups: Groups, e: Expr, nodes: seq<Node>, x: string)
    requires e.Group? && |nodes| == |e.sons|
    requires forall i :: 0 <= i < |nodes| ==> (x in Resolve(groups, nodes[i]) <==> Member(groups, e.sons[i], x))
    requires forall i :: 0 <= i < |nodes| ==> (IsNot(nodes[i]) <==> Negative(e.sons[i]))
    ensures Member(groups, e, x) <==>
            && InSome(groups, nodes, x) && (Operator(e.seps) == And ==> InAll(groups, nodes, x))
            && InNone(groups, nodes, x)
  {
    if InSome(groups, nodes, x) {
      var i :| 0 <= i < |nodes| && !IsNot(nodes[i]) && x in Resolve(groups, nodes[i]);
      assert Member(groups, e.sons[i], x);
    }
    if i :| 0 <= i < |nodes| && !Negative(e.sons[i]) && Member(groups, e.sons[i], x) {
      assert x in Resolve(groups, nodes[i]);
    }
  }

  // ----- The printed text is balanced -----

  lemma GoodName(negated: bool, name: string, text: string)
    requires PlainName(name) && text == (if negated then "!" else "") + name
    ensures Good(text) && !HasAny(text, META) && text[0] != '('
  {
    forall i | 0 <= i < |text| ensures text[i] !in META && text[i] !in "()\n" {
      if !negated || i > 0 {
        assert text[i] == name[if negated then i - 1 else i];
      }
    }
    FlatPiece(text);
    assert text[0] !in META;
  }

  lemma MiddlePiece(c: char, s: Expr, pad: nat)
    requires IsOr(c) || IsAnd(c)
    ensures Piece(Spaces(pad) + [c] + Lead(s, pad))
  {
    FlatPiece(Spaces(pad) + [c] + Lead(s, pad));
  }

  lemma SonGood(s: Expr, pad: nat)
    requires Valid(s)
    ensures Good(SonText(s, pad)) && (SonText(s, pad)[0] == '(' <==> s.Group?)
    decreases s, 1
  {
    PrintGood(s, pad);
    if s.Name? {
      GoodName(s.negated, s.name, Print(s, pad));
    } else {
      ParPiece(Print(s, pad));
    }
  }

  lemma HasAnyOf(text: string, c: char)
    requires c in text && (IsOr(c) || IsAnd(c))
    ensures HasAny(text, META)
  {
    assert META[2] == '+' && META[3] == '&' && META[4] == '|' && META[5] == ',';
    var i :| 0 <= i < |text| && text[i] == c;
    assert text[i] in META;
  }

  lemma JoinGood(sons: seq<Expr>, seps: string, pad: nat)
    requires ValidSons(sons) && AllOperators(seps) && |sons| == |seps| + 1
    ensures Good(Join(sons, seps, pad)) && (Join(sons, seps, pad)[0] == '(' <==> sons[0].Group?)
    ensures |sons| > 1 ==> HasAny(Join(sons, seps, pad), META)
    decreases sons
  {
    SonGood(sons[0], pad);
    if |sons| > 1 {
      var mid := Spaces(pad) + [seps[0]] + Lead(sons[1], pad);
      JoinGood(sons[1..], seps[1..], pad);
      MiddlePiece(seps[0], sons[1], pad);
      ThreePieces(SonText(sons[0], pad), mid, Join(sons[1..], seps[1..], pad), seps[0], pad);
      HasAnyOf(Join(sons, seps, pad), seps[0]);
    }
  }

  lemma PrintGood(e: Expr, pad: nat)
    requires Valid(e)
    ensures Good(Print(e, pad)) && (HasAny(Print(e, pad), META) <==> e.Group?)
    decreases e, 0
  {
    match e
    case Name(negated, name) => GoodName(negated, name, Print(e, pad));
    case Group(sons, seps) =>
      JoinGood(sons, seps, pad);
      assert '(' in META;
  }

  // ----- The character loop on printed text -----

  lemma FitsSkip(st: State, x: string, rest: string, n: nat)
    requires Fits(st, x + rest, n) && !HasAny(x, META)
    ensures Fits(st.(tmp := st.tmp + x), rest, n)
  {
    HasAnySkip(x, rest, META);
  }

  // one equation of the loop per kind of character

  lemma AtOpen(st: State, text: string, n: nat)
    requires Fits(st, text, n) && text != "" && text[0] == '('
    ensures Fits(Open(st), text[1..], n) && Scan(st, text, n) == Scan(Open(st), text[1..], n)
  {
  }

  lemma AtClose(st: State, text: string, n: nat)
    requires Fits(st, text, n) && text != "" && text[0] == ')' && st.stackedPar != 1
    ensures Fits(Close(st), text[1..], n) && Scan(st, text, n) == Scan(Close(st), text[1..], n)
  {
  }

  lemma AtOther(st: State, text: string, n: nat)
    requires Fits(st, text, n) && text != "" && text[0] !in "()" && (st.inPar || text[0] !in META)
    ensures Fits(st.(tmp := st.tmp + [text[0]]), text[1..], n)
    ensures Scan(st, text, n) == Scan(st.(tmp := st.tmp + [text[0]]), text[1..], n)
  {
    assert text == [text[0]] + text[1..];
    assert META[0] == '(' && META[1] == ')' && META[2] == '+' && META[3] == '&' && META[4] == '|' && META[5] == ',';
    if !st.inPar {
      FitsSkip(st, [text[0]], text[1..], n);
    }
  }

  lemma AtLastClose(st: State, text: string, n: nat)
    requires Fits(st, text, n) && text != "" && text[0] == ')' && st.stackedPar == 1
    ensures var st' := st.(sons := st.sons + [Eval(Strip(st.tmp))], tmp := "", inPar := false, stackedPar := 0);
            Fits(st', text[1..], n) && Scan(st, text, n) == Scan(st', text[1..], n)
  {
  }

  lemma AtOperator(st: State, text: string, n: nat)
    requires Fits(st, text, n) && text != "" && (IsOr(text[0]) || IsAnd(text[0])) && !st.inPar
    ensures var tmp := Strip(st.tmp);
            var st' := st.(operand := OperandOf(text[0]), tmp := "",
                           sons := if tmp == "" then st.sons else st.sons + [Eval(tmp)]);
            Fits(st', text[1..], n) && Scan(st, text, n) == Scan(st', text[1..], n)
  {
  }

  /** Ordinary characters outside parentheses pile up. */
  lemma {:induction false} ScanChars(st: State, x: string, rest: string, n: nat)
    requires !st.inPar && !HasAny(x, META) && Fits(st, x + rest, n)
    ensures Fits(st.(tmp := st.tmp + x), rest, n)
    ensures Scan(st, x + rest, n) == Scan(st.(tmp := st.tmp + x), rest, n)
    decreases |x|
  {
    if x == "" {
      assert x + rest == rest && st.tmp + x == st.tmp;
    } else {
      assert x[0] !in META;
      assert '(' in META && ')' in META;
      assert (x + rest)[0] == x[0] && (x + rest)[1..] == x[1..] + rest;
      AtOther(st, x + rest, n);
      ScanChars(st.(tmp := st.tmp + [x[0]]), x[1..], rest, n);
      assert st.tmp + [x[0]] + x[1..] == st.tmp + x;
    }
  }

  /** Inside a parenthesis every character is taken as it stands. */
  lemma InsideStep(st: State, y: string, i: nat, text: string, n: nat)
    requires st.inPar && i < |y| && st.tmp == y[..i] && st.stackedPar == 1 + Depth(y[..i])
    requires Good(y) && text != "" && text[0] == y[i] && Fits(st, text, n)
    ensures var st' := st.(tmp := y[..i + 1], stackedPar := 1 + Depth(y[..i + 1]));
            Fits(st', text[1..], n) && Scan(st, text, n) == Scan(st', text[1..], n)
  {
    DepthStep(y, i);
    if y[i] == '(' {
      PrefixStrip(y, i);
      AtOpen(st, text, n);
    } else if y[i] == ')' {
      AtClose(st, text, n);
    } else {
      AtOther(st, text, n);
    }
  }

  lemma {:induction false} ScanInside(st: State, y: string, i: nat, rest: string, n: nat)
    requires st.inPar && i <= |y| && st.tmp == y[..i] && st.stackedPar == 1 + Depth(y[..i])
    requires Good(y) && Fits(st, y[i..] + rest, n)
    ensures Fits(st.(tmp := y, stackedPar := 1), rest, n)
    ensures Scan(st, y[i..] + rest, n) == Scan(st.(tmp := y, stackedPar := 1), rest, n)
    decreases |y| - i
  {
    if i == |y| {
      assert y[..i] == y && y[i..] + rest == rest;
    } else {
      FromInside(y, i, rest);
      InsideStep(st, y, i, y[i..] + rest, n);
      ScanInside(st.(tmp := y[..i + 1], stackedPar := 1 + Depth(y[..i + 1])), y, i + 1, rest, n);
    }
  }

  /** Outside parentheses with nothing pending. */
  predicate Clean(st: State) {
    !st.inPar && st.stackedPar == 0 && st.tmp == ""
  }

  /** A parenthesised level becomes one son. */
  lemma ScanPar(st: State, y: string, rest: string, text: string, n: nat)
    requires Clean(st) && Good(y) && text == "(" + y + ")" + rest && Fits(st, text, n)
    ensures var st' := st.(sons := st.sons + [Eval(y)]);
            Fits(st', rest, n) && Scan(st, text, n) == Scan(st', rest, n)
  {
    Reassociate("(", y, ")", rest);
    var close := ")" + rest;
    assert text[0] == '(' && text[1..] == y[0..] + close;
    AtOpen(st, text, n);
    ScanInside(Open(st), y, 0, close, n);
    assert close[0] == ')' && close[1..] == rest;
    StripTrimmed(y);
    AtLastClose(Open(st).(tmp := y, stackedPar := 1), close, n);
  }

  lemma EvalName(negated: bool, name: string, text: string)
    requires PlainName(name) && text == (if negated then "!" else "") + name
    ensures Eval(text) == Leaf(name, negated) && Strip(text) == text
  {
    GoodName(negated, name, text);
    StripTrimmed(text);
    StripTrimmed(name);
    if negated {
      assert text[1..] == name;
    }
  }

  /** What the state becomes once the text of a son has been read: a name is still
      pending, a parenthesised level is already a son. */
  function Read(st: State, s: Expr, lead: string, pad: nat): State {
    if s.Name? then st.(tmp := lead + Print(s, pad)) else st.(sons := st.sons + [ToNode(s)])
  }

  lemma ReadName(st: State, lead: string, name: string, rest: string, n: nat)
    requires Clean(st) && AllSpaceChars(lead) && !HasAny(name, META) && Fits(st, lead + name + rest, n)
    ensures var st' := st.(tmp := lead + name);
            Fits(st', rest, n) && Scan(st, lead + name + rest, n) == Scan(st', rest, n)
  {
    FlatConcat(lead, name, META);
    ScanChars(st, lead + name, rest, n);
    assert st.tmp + (lead + name) == lead + name;
  }

  lemma ReadSon(st: State, s: Expr, lead: string, pad: nat, rest: string, text: string, n: nat)
    requires Clean(st) && Valid(s) && AllSpaceChars(lead) && (lead == "" || s.Name?)
    requires Eval(Print(s, pad)) == ToNode(s)
    requires text == lead + SonText(s, pad) + rest && Fits(st, text, n)
    ensures Fits(Read(st, s, lead, pad), rest, n) && Scan(st, text, n) == Scan(Read(st, s, lead, pad), rest, n)
  {
    PrintGood(s, pad);
    if s.Name? {
      ReadName(st, lead, Print(s, pad), rest, n);
    } else {
      ScanPar(st, Print(s, pad), rest, text, n);
    }
  }

  lemma PendingName(s: Expr, lead: string, pad: nat, after: nat)
    requires Valid(s) && s.Name? && AllSpaceChars(lead)
    ensures var text := Strip(lead + Print(s, pad) + Spaces(after));
            text == Print(s, pad) && text != "" && Eval(text) == ToNode(s)
  {
    EvalName(s.negated, s.name, Print(s, pad));
    PrintGood(s, pad);
    StripName(Print(s, pad), lead, after);
  }

  /** After a son, spaces and an operator make it count and leave a clean state. */
  lemma ReadOp(st: State, s: Expr, lead: string, pad: nat, c: char, more: string, n: nat)
    requires Clean(st) && Valid(s) && AllSpaceChars(lead) && (IsOr(c) || IsAnd(c))
    requires Fits(Read(st, s, lead, pad), Spaces(pad) + ([c] + more), n)
    ensures var st' := st.(operand := OperandOf(c), sons := st.sons + [ToNode(s)]);
            && Fits(st', more, n)
            && Scan(Read(st, s, lead, pad), Spaces(pad) + ([c] + more), n) == Scan(st', more, n)
  {
    var st1 := Read(st, s, lead, pad);
    var text := [c] + more;
    assert text[0] == c && text[1..] == more;
    ScanChars(st1, Spaces(pad), text, n);
    var st2 := st1.(tmp := st1.tmp + Spaces(pad));
    AtOperator(st2, text, n);
    if s.Name? {
      PendingName(s, lead, pad, pad);
    } else {
      assert st2.tmp == Spaces(pad);
      StripAllSpace(Spaces(pad));
    }
  }

  /** After the last son, the end of the text makes it count. */
  lemma ReadEnd(st: State, s: Expr, lead: string, pad: nat, n: nat)
    requires Clean(st) && Valid(s) && AllSpaceChars(lead) && Fits(Read(st, s, lead, pad), "", n)
    ensures Scan(Read(st, s, lead, pad), "", n) == Level(st.operand, st.sons + [ToNode(s)])
  {
    if s.Name? {
      PendingName(s, lead, pad, 0);
      assert lead + Print(s, pad) + Spaces(0) == lead + Print(s, pad);
    } else {
      StripAllSpace("");
    }
  }

  lemma JoinShape(sons: seq<Expr>, seps: string, lead: string, pad: nat, more: string)
    requires |sons| > 1 && |sons| == |seps| + 1
    requires more == Lead(sons[1], pad) + Join(sons[1..], seps[1..], pad)
    ensures lead + Join(sons, seps, pad) == lead + SonText(sons[0], pad) + (Spaces(pad) + ([seps[0]] + more))
  {
    var tail := Join(sons[1..], seps[1..], pad);
    Reassociate(Spaces(pad), [seps[0]], Lead(sons[1], pad), tail);
    AppendTwo(lead, SonText(sons[0], pad), Spaces(pad) + ([seps[0]] + more));
  }

  lemma NodesAppend(sons: seq<Expr>, base: seq<Node>)
    requires sons != []
    ensures base + ToNodes(sons) == (base + [ToNode(sons[0])]) + ToNodes(sons[1..])
    ensures |sons| == 1 ==> base + ToNodes(sons) == base + [ToNode(sons[0])]
  {
    AppendTwo(base, [ToNode(sons[0])], ToNodes(sons[1..]));
  }

  lemma ReadSonEnd(st: State, s: Expr, lead: string, pad: nat, text: string, n: nat)
    requires Clean(st) && Valid(s) && AllSpaceChars(lead) && (lead == "" || s.Name?)
    requires Eval(Print(s, pad)) == ToNode(s)
    requires text == lead + SonText(s, pad) && Fits(st, text, n)
    ensures Scan(st, text, n) == Level(st.operand, st.sons + [ToNode(s)])
  {
    assert text == lead + SonText(s, pad) + "";
    ReadSon(st, s, lead, pad, "", text, n);
    ReadEnd(st, s, lead, pad, n);
  }

  lemma JoinScanStep(st: State, sons: seq<Expr>, seps: string, lead: string, pad: nat, text: string, n: nat)
    requires Clean(st) && ValidSons(sons) && AllOperators(seps) && |sons| == |seps| + 1 && |sons| > 1
    requires AllSpaceChars(lead) && (lead == "" || sons[0].Name?)
    requires Eval(Print(sons[0], pad)) == ToNode(sons[0])
    requires text == lead + Join(sons, seps, pad) && Fits(st, text, n)
    ensures var st' := st.(operand := OperandOf(seps[0]), sons := st.sons + [ToNode(sons[0])]);
            var more := Lead(sons[1], pad) + Join(sons[1..], seps[1..], pad);
            Fits(st', more, n) && Scan(st, text, n) == Scan(st', more, n)
  {
    var more := Lead(sons[1], pad) + Join(sons[1..], seps[1..], pad);
    JoinShape(sons, seps, lead, pad, more);
    ReadSon(st, sons[0], lead, pad, Spaces(pad) + ([seps[0]] + more), text, n);
    ReadOp(st, sons[0], lead, pad, seps[0], more, n);
  }

  lemma OperatorTail(seps: string)
    requires AllOperators(seps) && seps != ""
    ensures Operator(seps) == if |seps| == 1 then OperandOf(seps[0]) else Operator(seps[1..])
    ensures AllOperators(seps[1..])
  {
  }

  /** Reading the sons of a level one after the other. */
  lemma {:induction false} JoinScan(st: State, sons: seq<Expr>, seps: string, lead: string, pad: nat, text: string, n: nat)
    requires Clean(st) && ValidSons(sons) && AllOperators(seps) && |sons| == |seps| + 1
    requires AllSpaceChars(lead) && (lead == "" || sons[0].Name?)
    requires text == lead + Join(sons, seps, pad) && Fits(st, text, n)
    ensures Scan(st, text, n) == Level(if seps == "" then st.operand else Operator(seps), st.sons + ToNodes(sons))
    decreases sons, 0
  {
    var s := sons[0];
    RoundTrip(s, pad);
    NodesAppend(sons, st.sons);
    if |sons| == 1 {
      ReadSonEnd(st, s, lead, pad, text, n);
    } else {
      JoinScanStep(st, sons, seps, lead, pad, text, n);
      OperatorTail(seps);
      JoinScan(st.(operand := OperandOf(seps[0]), sons := st.sons + [ToNode(s)]), sons[1..], seps[1..],
               Lead(sons[1], pad), pad, Lead(sons[1], pad) + Join(sons[1..], seps[1..], pad), n);
    }
  }

  lemma EvalComplex(e: Expr, pad: nat, text: string)
    requires Valid(e) && e.Group? && text == Print(e, pad)
    ensures Fits(START, text, |text|) && Eval(text) == Scan(START, text, |text|)
    ensures text == "" + Join(e.sons, e.seps, pad)
  {
    PrintGood(e, pad);
    StripTrimmed(text);
  }

  lemma {:induction false} LevelRoundTrip(sons: seq<Expr>, seps: string, pad: nat, text: string)
    requires ValidSons(sons) && AllOperators(seps) && |sons| == |seps| + 1
    requires text == "" + Join(sons, seps, pad) && Fits(START, text, |text|)
    ensures Scan(START, text, |text|) == Level(Operator(seps), ToNodes(sons))
    decreases sons, 1
  {
    JoinScan(START, sons, seps, "", pad, text, |text|);
    assert START.sons + ToNodes(sons) == ToNodes(sons);
  }

  /** Parsing the text of an expression gives its tree. */
  lemma {:induction false} RoundTrip(e: Expr, pad: nat)
    requires Valid(e)
    ensures Eval(Print(e, pad)) == ToNode(e)
    decreases e
  {
    match e
    case Name(negated, name) => EvalName(negated, name, Print(e, pad));
    case Group(sons, seps) =>
      EvalComplex(e, pad, Print(e, pad));
      LevelRoundTrip(sons, seps, pad, Print(e, pad));
  }

  // ----- Meaning -----

  /** Resolving the parsed text of an expression gives exactly the elements it means. */
  lemma ResolvedIsMeaning(groups: Groups, e: Expr, pad: nat, x: string)
    requires Valid(e)
    ensures x in Resolve(groups, Eval(Print(e, pad))) <==> Member(groups, e, x)
  {
    RoundTrip(e, pad);
    ResolveMeaning(groups, e, x);
  }

  /** On a level that mixes operators, only the last one counts. */
  lemma LastOperatorWins(groups: Groups, sons: seq<Expr>, seps: string, seps': string, pad: nat)
    requires Valid(Group(sons, seps)) && Valid(Group(sons, seps')) && Operator(seps) == Operator(seps')
    ensures Resolve(groups, Eval(Print(Group(sons, seps), pad))) == Resolve(groups, Eval(Print(Group(sons, seps'), pad)))
  {
    RoundTrip(Group(sons, seps), pad);
    RoundTrip(Group(sons, seps'), pad);
  }
}
