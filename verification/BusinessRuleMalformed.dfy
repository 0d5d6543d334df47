/** What the parser of `shinken/dependencynode.py` makes of texts that are no rule. */
module BusinessRuleMalformed {
  import T = Text
  import opened Brackets
  import opened BusinessRules
  import opened BusinessRuleRoundTrip

  // ----- Two operators on one level -----

  /** Once two sons have been joined by one operator, the other one makes the level nothing,
      whatever follows. */
  lemma {:induction false} OtherOperator(st: State, sons: seq<Son>, lead: string, c: char, d: char, pad: nat, more: string, text: string, n: nat)
    requires Clean(st) && sons != [] && ValidSons(sons) && Operators(c, d) && st.operand != Of
    requires if |sons| > 1 then Admits(st, c) else st.operand == OpOf(c)
    requires AllSpaceChars(lead) && (lead == "" || sons[0].negated || sons[0].tree.Name?)
    requires text == lead + (Join(sons, c, pad) + (T.Spaces(pad) + ([d] + more))) && Fits(st, text, n)
    ensures Scan(st, text, n) == Parsed(NoNode)
    decreases |sons|
  {
    RoundTrip(sons[0].tree, pad);
    var tail := T.Spaces(pad) + ([d] + more);
    if |sons| == 1 {
      LastSon(st, sons, lead, c, d, pad, more, text, n);
    } else {
      var rest := Lead(sons[1], pad) + (Join(sons[1..], c, pad) + tail);
      JoinFirst(sons, lead, c, pad, tail, text, rest);
      ReadSonOp(st, sons[0], lead, pad, c, rest, text, n);
      var st' := AfterOp(st, c).(sons := st.sons + [ToNode(sons[0])]);
      OtherOperator(st', sons[1..], Lead(sons[1], pad), c, d, pad, more, rest, n);
    }
  }

  lemma LastSon(st: State, sons: seq<Son>, lead: string, c: char, d: char, pad: nat, more: string, text: string, n: nat)
    requires Clean(st) && |sons| == 1 && ValidSons(sons) && Operators(c, d) && st.operand == OpOf(c)
    requires !sons[0].tree.Name? ==> Eval(Print(sons[0].tree, pad)) == Parsed(ToNode(Son(false, sons[0].tree)))
    requires AllSpaceChars(lead) && (lead == "" || sons[0].negated || sons[0].tree.Name?)
    requires text == lead + (Join(sons, c, pad) + (T.Spaces(pad) + ([d] + more))) && Fits(st, text, n)
    ensures Scan(st, text, n) == Parsed(NoNode)
  {
    var tail := T.Spaces(pad) + ([d] + more);
    Regroup(lead, SonText(sons[0], pad), tail);
    ReadSon(st, sons[0], lead, pad, tail, n);
    AtSecondOperator(Read(st, sons[0], lead), pad, d, more, n);
  }

  lemma Regroup(a: string, b: string, c: string)
    ensures (a + b) + c == a + (b + c)
  {
  }

  predicate Operators(c: char, d: char) {
    (c == '&' && d == '|') || (c == '|' && d == '&')
  }

  lemma AtSecondOperator(st: State, pad: nat, d: char, more: string, n: nat)
    requires !st.inPar && (d == '&' || d == '|') && !Admits(st, d) && Fits(st, T.Spaces(pad) + ([d] + more), n)
    ensures Scan(st, T.Spaces(pad) + ([d] + more), n) == Parsed(NoNode)
  {
    var text := [d] + more;
    assert text[0] == d;
    ScanChars(st, T.Spaces(pad), text, n);
  }

  lemma JoinFirst(sons: seq<Son>, lead: string, c: char, pad: nat, tail: string, text: string, rest: string)
    requires |sons| > 1 && text == lead + (Join(sons, c, pad) + tail) && rest == Lead(sons[1], pad) + (Join(sons[1..], c, pad) + tail)
    ensures text == lead + SonText(sons[0], pad) + (T.Spaces(pad) + ([c] + rest))
  {
    var join, l, sp, son := Join(sons[1..], c, pad), Lead(sons[1], pad), T.Spaces(pad), SonText(sons[0], pad);
    var all := sp + [c] + l + join;
    assert Join(sons, c, pad) == son + all;
    Regroup(son, all, tail);
    Regroup(lead, son, all + tail);
    Regroup(sp + [c] + l, join, tail);
    Regroup(sp + [c], l, join + tail);
    Regroup(sp, [c], rest);
  }

  /** `&` and `|` do not mix outside parentheses: the text is None. */
  lemma MixedOperators(sons: seq<Son>, c: char, d: char, pad: nat, more: string, text: string)
    requires |sons| >= 2 && ValidSons(sons) && Operators(c, d)
    requires text == Join(sons, c, pad) + (T.Spaces(pad) + ([d] + more)) && (more == "" || !T.IsSpace(more[|more| - 1]))
    ensures Eval(text) == Parsed(NoNode)
  {
    MixedText(sons, c, d, pad, more, text);
    var body := Join(sons, c, pad) + (T.Spaces(pad) + ([d] + more));
    assert "" + body == body;
    OtherOperator(Initial(NoMatch), sons, "", c, d, pad, more, text, |text|);
  }

  /** Such a text has an operator, no of: prefix and no space around it. */
  lemma MixedText(sons: seq<Son>, c: char, d: char, pad: nat, more: string, text: string)
    requires |sons| >= 2 && ValidSons(sons) && Operators(c, d)
    requires text == Join(sons, c, pad) + (T.Spaces(pad) + ([d] + more)) && (more == "" || !T.IsSpace(more[|more| - 1]))
    ensures Fits(Initial(NoMatch), text, |text|) && Eval(text) == Scan(Initial(NoMatch), text, |text|)
  {
    MixedNoHead(sons, c, pad, T.Spaces(pad) + ([d] + more), text);
    JoinGood(sons, c, pad);
    MixedTrimmed(Join(sons, c, pad), T.Spaces(pad), d, more, text);
    EvalComplex(text, NoMatch, text);
  }

  lemma MixedNoHead(sons: seq<Son>, c: char, pad: nat, tail: string, text: string)
    requires |sons| >= 2 && ValidSons(sons) && (c == '&' || c == '|') && text == Join(sons, c, pad) + tail
    ensures Head(text) == NoHead
  {
    var rest := Lead(sons[1], pad) + (Join(sons[1..], c, pad) + tail);
    assert "" + text == text;
    JoinFirst(sons, "", c, pad, tail, text, rest);
    assert "" + SonText(sons[0], pad) == SonText(sons[0], pad);
    Regroup(T.Spaces(pad), [c], rest);
    JoinNoHead(sons[0], pad, c, rest, text);
  }

  lemma MixedTrimmed(join: string, sp: string, d: char, more: string, text: string)
    requires T.Trimmed(join) && (d == '&' || d == '|') && text == join + (sp + ([d] + more))
    requires more == "" || !T.IsSpace(more[|more| - 1])
    ensures T.Trimmed(text) && T.HasAny(text, META)
  {
    assert text[0] == join[0] && text[|join| + |sp|] == d;
    assert d in META;
  }

  // ----- What is nothing cannot be negated -----

  /** A sub-expression that is None raises an error if it is negated. */
  lemma NegatedNothing(st: State, y: string, rest: string, text: string, n: nat)
    requires Clean(st) && Good(y) && Eval(y) == Parsed(NoNode)
    requires text == "!" + ("(" + (y + (")" + rest))) && Fits(st, text, n)
    ensures Scan(st, text, n) == Crash
  {
    assert text[0] == '!' && text[1..] == "(" + (y + (")" + rest));
    AtNot(st, text, n);
    var st1 := st.(tmp := "", sonIsNot := true);
    ScanToClose(st1, y, ")" + rest, text[1..], n);
    var close := ")" + rest;
    assert close[0] == ')';
    T.StripTrimmed(y);
  }

  // ----- A mark in the wrong place -----

  /** A `!` behind the beginning of a name is dropped and negates nothing. */
  lemma MisplacedMark(st: State, name: string, rest: string, n: nat)
    requires Clean(st) && T.Trimmed(name) && !T.HasAny(name, "()&|!") && Fits(st, name + ("!" + rest), n)
    ensures Fits(st.(tmp := name), rest, n) && Scan(st, name + ("!" + rest), n) == Scan(st.(tmp := name), rest, n)
  {
    var text := "!" + rest;
    assert text[0] == '!' && text[1..] == rest;
    ScanChars(st, name, text, n);
    assert st.tmp + name == name;
    T.StripTrimmed(name);
    assert name[0] !in "()&|!";
    assert Fits(st.(tmp := name), text, n);
    FitsSkip(st.(tmp := name), ['!'], rest, n);
    assert ['!'] + rest == text;
  }

  /** On an of: level either operator only separates. */
  lemma AnySeparator(st: State, rest: string, n: nat)
    requires st.operand == Of && !st.inPar && Fits(st, "&" + rest, n)
    ensures Fits(st, "|" + rest, n) && Scan(st, "|" + rest, n) == Scan(st, "&" + rest, n)
  {
    var a, b := "&" + rest, "|" + rest;
    assert a[0] == '&' && b[0] == '|' && a[1..] == b[1..];
    assert forall i :: 1 <= i < |a| ==> a[i] == b[i];
    assert b[0] in META;
  }
}
