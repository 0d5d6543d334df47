/** Printing a business rule and parsing the text gives the rule back. */
module BusinessRuleRoundTrip {
  import opened Text
  import opened Brackets
  import opened BusinessRules

  // ----- Rules and their text -----

  /** A threshold such as `3`, `-1` or `50%`. */
  datatype Quantity = Quantity(negative: bool, digits: string, percent: bool) {
    predicate Valid() {
      digits != "" && forall i :: 0 <= i < |digits| ==> '0' <= digits[i] <= '9'
    }

    function Text(): string {
      (if negative then "-" else "") + digits + (if percent then "%" else "")
    }
  }

  datatype Quota = AtLeast(k: Quantity) | Levels(ok: Quantity, warn: Quantity, crit: Quantity)

  datatype Tree =
    | Name(name: string)
    | All(sons: seq<Son>)
    | Any(sons: seq<Son>)
    | Some(quota: Quota, separator: char, sons: seq<Son>)

  datatype Son = Son(negated: bool, tree: Tree)

  /** A name that reads as one host or service: no metacharacter, no surrounding space,
      no `of:` and no expansion flags. */
  predicate PlainName(s: string) {
    && Trimmed(s) && !HasAny(s, "()&|!\n") && !IsExpansion(s)
    && NoOf(s)
  }

  predicate ValidQuota(q: Quota) {
    match q
    case AtLeast(k) => k.Valid()
    case Levels(a, b, c) => a.Valid() && b.Valid() && c.Valid()
  }

  predicate Valid(t: Tree)
    decreases t
  {
    match t
    case Name(name) => PlainName(name)
    case All(sons) => |sons| >= 2 && ValidSons(sons)
    case Any(sons) => |sons| >= 2 && ValidSons(sons)
    case Some(quota, separator, sons) =>
      |sons| >= 2 && ValidSons(sons) && ValidQuota(quota) && (separator == '&' || separator == '|')
  }

  predicate ValidSons(sons: seq<Son>)
    decreases sons
  {
    sons != [] ==> ValidSon(sons[0]) && ValidSons(sons[1..])
  }

  predicate ValidSon(s: Son)
    decreases s
  {
    Valid(s.tree)
  }

  function QuotaText(q: Quota): string {
    match q
    case AtLeast(k) => k.Text()
    case Levels(a, b, c) => a.Text() + "," + b.Text() + "," + c.Text()
  }

  /** The text of a rule, with `pad` spaces around operators except before a parenthesis. */
  function Print(t: Tree, pad: nat): string
    decreases t
  {
    match t
    case Name(name) => name
    case All(sons) => Join(sons, '&', pad)
    case Any(sons) => Join(sons, '|', pad)
    case Some(quota, separator, sons) =>
      QuotaText(quota) + "of:" + (if sons == [] then "" else Lead(sons[0], pad)) + Join(sons, separator, pad)
  }

  function Join(sons: seq<Son>, c: char, pad: nat): string
    decreases sons
  {
    if sons == [] then ""
    else if |sons| == 1 then SonText(sons[0], pad)
    else SonText(sons[0], pad) + (Spaces(pad) + [c] + Lead(sons[1], pad) + Join(sons[1..], c, pad))
  }

  function SonText(s: Son, pad: nat): string
    decreases s
  {
    if s.negated then "!" + SonBody(s, pad) else SonBody(s, pad)
  }

  function SonBody(s: Son, pad: nat): string
    decreases s, 0
  {
    if s.tree.Name? then s.tree.name else "(" + Print(s.tree, pad) + ")"
  }

  function Lead(s: Son, pad: nat): string {
    if s.negated || s.tree.Name? then Spaces(pad) else ""
  }

  // ----- The node a rule stands for -----

  function QuotaValues(q: Quota): OfValues {
    match q
    case AtLeast(k) => OfValues(k.Text(), "0", "0")
    case Levels(a, b, c) => OfValues(a.Text(), b.Text(), c.Text())
  }

  function ToNode(s: Son): Node
    decreases s
  {
    match s.tree
    case Name(name) => Leaf(name, false, false, NoValues, false, s.negated)
    case All(sons) => Rule(And, ToNodes(sons), Switched(NoValues, |sons|), false, s.negated)
    case Any(sons) => Rule(Or, ToNodes(sons), Switched(NoValues, |sons|), false, s.negated)
    case Some(quota, _, sons) =>
      Rule(Of, ToNodes(sons), Switched(QuotaValues(quota), |sons|), quota.Levels?, s.negated)
  }

  function ToNodes(sons: seq<Son>): (r: seq<Node>)
    ensures |r| == |sons|
    decreases sons
  {
    if sons == [] then [] else [ToNode(sons[0])] + ToNodes(sons[1..])
  }

  // ----- The printed text is balanced -----

  lemma NotPiece(s: string)
    requires Good(s)
    ensures Good("!" + s)
  {
    FlatPiece("!");
    PieceConcat("!", s);
  }

  lemma GoodName(name: string)
    requires PlainName(name)
    ensures Good(name) && !HasAny(name, META) && !HasAny(name, "()&|!")
  {
    forall i | 0 <= i < |name| ensures name[i] !in "()&|!" && name[i] !in "()\n" {
      assert name[i] !in "()&|!\n";
    }
    FlatPiece(name);
  }

  lemma QuantityFlat(q: Quantity)
    requires q.Valid()
    ensures !HasAny(q.Text(), "()\n") && q.Text() != "" && (IsDigit(q.Text()[0]) || q.Text()[0] == '-')
  {
    var sign, percent := if q.negative then "-" else "", if q.percent then "%" else "";
    FlatConcat(sign, q.digits, "()\n");
    FlatConcat(sign + q.digits, percent, "()\n");
  }

  lemma LevelsFlat(a: Quantity, b: Quantity, c: Quantity)
    requires a.Valid() && b.Valid() && c.Valid()
    ensures !HasAny(a.Text() + "," + b.Text() + "," + c.Text(), "()\n")
  {
    QuantityFlat(a);
    QuantityFlat(b);
    QuantityFlat(c);
    FlatConcat(a.Text(), ",", "()\n");
    FlatConcat(a.Text() + ",", b.Text(), "()\n");
    FlatConcat(a.Text() + "," + b.Text(), ",", "()\n");
    FlatConcat(a.Text() + "," + b.Text() + ",", c.Text(), "()\n");
  }

  lemma QuotaPiece(q: Quota)
    requires ValidQuota(q)
    ensures Piece(QuotaText(q)) && QuotaText(q) != "" && !IsSpace(QuotaText(q)[0])
  {
    match q
    case AtLeast(k) =>
      QuantityFlat(k);
      FlatPiece(k.Text());
    case Levels(a, b, c) =>
      QuantityFlat(a);
      LevelsFlat(a, b, c);
      FlatPiece(a.Text() + "," + b.Text() + "," + c.Text());
  }

  lemma SonGood(s: Son, pad: nat)
    requires ValidSon(s)
    ensures Good(SonText(s, pad))
    ensures SonText(s, pad)[0] == '(' <==> !s.negated && !s.tree.Name?
    decreases s
  {
    if s.tree.Name? {
      NameGood(s);
    } else {
      PrintGood(s.tree, pad);
      ParPiece(Print(s.tree, pad));
    }
    if s.negated {
      NotPiece(SonBody(s, pad));
    }
  }

  lemma NameGood(s: Son)
    requires ValidSon(s) && s.tree.Name?
    ensures Good(s.tree.name) && s.tree.name[0] != '('
  {
    GoodName(s.tree.name);
    assert s.tree.name[0] !in "()&|!";
  }

  lemma MiddlePiece(c: char, s: Son, pad: nat)
    requires c == '&' || c == '|'
    ensures Piece(Spaces(pad) + [c] + Lead(s, pad))
  {
    FlatPiece(Spaces(pad) + [c] + Lead(s, pad));
  }

  lemma JoinGood(sons: seq<Son>, c: char, pad: nat)
    requires sons != [] && ValidSons(sons) && (c == '&' || c == '|')
    ensures Good(Join(sons, c, pad)) && (|sons| > 1 ==> c in Join(sons, c, pad))
    ensures Join(sons, c, pad)[0] == '(' <==> !sons[0].negated && !sons[0].tree.Name?
    decreases sons
  {
    SonGood(sons[0], pad);
    if |sons| > 1 {
      var mid := Spaces(pad) + [c] + Lead(sons[1], pad);
      JoinGood(sons[1..], c, pad);
      MiddlePiece(c, sons[1], pad);
      ThreePieces(SonText(sons[0], pad), mid, Join(sons[1..], c, pad), c, pad);
    }
  }

  lemma OfPiece(q: Quota, lead: string)
    requires ValidQuota(q) && Piece(lead) && !HasAny(lead, "(")
    ensures Piece(QuotaText(q) + "of:" + lead)
  {
    QuotaPiece(q);
    FlatPiece("of:");
    PieceConcat(QuotaText(q), "of:");
    PieceConcat(QuotaText(q) + "of:", lead);
  }

  lemma PrintGood(t: Tree, pad: nat)
    requires Valid(t)
    ensures Good(Print(t, pad)) && (!t.Name? ==> HasAny(Print(t, pad), META))
    decreases t
  {
    match t
    case Name(name) => GoodName(name);
    case All(sons) => JoinGood(sons, '&', pad);
    case Any(sons) => JoinGood(sons, '|', pad);
    case Some(quota, separator, sons) =>
      JoinGood(sons, separator, pad);
      assert separator in META;
      OfGood(quota, sons[0], pad, Join(sons, separator, pad));
  }

  lemma OfGood(q: Quota, first: Son, pad: nat, tail: string)
    requires ValidQuota(q) && Good(tail)
    requires tail[0] == '(' <==> !first.negated && !first.tree.Name?
    ensures Good(QuotaText(q) + "of:" + Lead(first, pad) + tail)
    ensures HasAny(tail, META) ==> HasAny(QuotaText(q) + "of:" + Lead(first, pad) + tail, META)
  {
    var head := QuotaText(q) + "of:" + Lead(first, pad);
    QuotaPiece(q);
    FlatPiece(Lead(first, pad));
    OfPiece(q, Lead(first, pad));
    GoodTail(head, tail, META);
  }

  // ----- The of: prefix -----

  predicate PrefixChar(c: char) {
    IsDigit(c) || c == '-' || c == '%' || c == ',' || c == ' '
  }

  predicate AllPrefix(s: string) {
    forall i :: 0 <= i < |s| ==> PrefixChar(s[i])
  }

  /** `r` is what is left of `s` behind prefix characters. */
  predicate LeftOf(s: string, r: string) {
    |r| <= |s| && r == s[|s| - |r|..] && AllPrefix(s[..|s| - |r|])
  }

  lemma LeftDrop(s: string, k: nat)
    requires k <= |s| && AllPrefix(s[..k])
    ensures LeftOf(s, s[k..])
  {
  }

  lemma LeftTrans(s: string, r: string, q: string)
    requires LeftOf(s, r) && LeftOf(r, q)
    ensures LeftOf(s, q)
  {
    var k, l := |s| - |r|, |r| - |q|;
    assert s[..k + l] == s[..k] + r[..l];
  }

  lemma TokenChars(s: string)
    ensures AllPrefix(s[..TokenLength(s)]) && AllPrefix(s[..FirstTokenLength(s)])
  {
    var sign := if s != "" && s[0] == '-' then 1 else 0;
    var n := CountDigits(s[sign..]);
    forall i | 0 <= i < sign + n ensures PrefixChar(s[i]) {
      if i >= sign {
        assert s[sign..][i - sign] == s[i];
      }
    }
  }

  lemma LeftToken(s: string, r: string)
    requires LeftOf(s, r)
    ensures LeftOf(s, r[TokenLength(r)..])
  {
    TokenChars(r);
    LeftDrop(r, TokenLength(r));
    LeftTrans(s, r, r[TokenLength(r)..]);
  }

  lemma LeftChar(s: string, r: string, c: char)
    requires LeftOf(s, r) && PrefixChar(c)
    ensures LeftOf(s, r[CountChar(r, c)..])
  {
    LeftDrop(r, CountChar(r, c));
    LeftTrans(s, r, r[CountChar(r, c)..]);
  }

  /** Where the of: prefix matches, `of:` stands behind digits, signs, commas and spaces. */
  lemma HeadShape(s: string) returns (s6: string)
    requires Head(s).OfHead?
    ensures LeftOf(s, s6) && "of:" <= s6
  {
    var s1 := s[FirstTokenLength(s)..];
    TokenChars(s);
    LeftDrop(s, FirstTokenLength(s));
    LeftChar(s, s1, ',');
    var s2 := s1[CountChar(s1, ',')..];
    LeftToken(s, s2);
    var s3 := s2[TokenLength(s2)..];
    LeftChar(s, s3, ',');
    var s4 := s3[CountChar(s3, ',')..];
    LeftToken(s, s4);
    var s5 := s4[TokenLength(s4)..];
    LeftChar(s, s5, ' ');
    s6 := s5[CountChar(s5, ' ')..];
  }

  predicate NoOf(name: string) {
    forall i :: 0 <= i <= |name| ==> !("of:" <= name[i..])
  }

  lemma OfInName(name: string, pad: nat, c: char, more: string, s: string, r: string)
    requires (c == '&' || c == '|') && s == name + (Spaces(pad) + [c] + more)
    requires LeftOf(s, r) && "of:" <= r
    ensures !NoOf(name)
  {
    var p := |s| - |r|;
    assert s[|name| + pad] == c;
    assert forall i :: 0 <= i < p ==> s[..p][i] == s[i];
    assert p <= |name| + pad;
    assert s[p] == r[0] && s[p + 1] == r[1] && s[p + 2] == r[2];
    assert forall i :: |name| <= i < |name| + pad ==> s[i] == ' ';
    assert "of:" <= name[p..];
  }

  /** A rule that starts with a plain name has no of: prefix. */
  lemma NoHeadAfterName(name: string, pad: nat, c: char, more: string, s: string)
    requires NoOf(name) && (c == '&' || c == '|') && s == name + (Spaces(pad) + [c] + more)
    ensures Head(s) == NoHead
  {
    var h := Head(s);
    if h.OfHead? {
      var r := HeadShape(s);
      OfInName(name, pad, c, more, s, r);
    }
  }

  lemma NoHeadName(name: string)
    requires NoOf(name)
    ensures Head(name) == NoHead
  {
    if Head(name).OfHead? {
      var r := HeadShape(name);
    }
  }

  lemma {:induction false} DigitsThen(d: string, tail: string)
    requires forall i :: 0 <= i < |d| ==> IsDigit(d[i])
    requires tail != "" ==> !IsDigit(tail[0])
    ensures CountDigits(d + tail) == |d|
  {
    if d == "" {
      assert d + tail == tail;
    } else {
      assert (d + tail)[1..] == d[1..] + tail;
      DigitsThen(d[1..], tail);
    }
  }

  lemma {:induction false} CharsThen(n: nat, c: char, s: string, tail: string)
    requires |s| == n && (forall i :: 0 <= i < n ==> s[i] == c) && (tail != "" ==> tail[0] != c)
    ensures CountChar(s + tail, c) == n && (s + tail)[n..] == tail
  {
    if n == 0 {
      assert s + tail == tail;
    } else {
      assert (s + tail)[1..] == s[1..] + tail;
      CharsThen(n - 1, c, s[1..], tail);
    }
  }

  lemma TokenThen(q: Quantity, tail: string)
    requires q.Valid() && (tail != "" ==> !IsDigit(tail[0]) && tail[0] != '%')
    ensures TokenLength(q.Text() + tail) == FirstTokenLength(q.Text() + tail) == |q.Text()|
    ensures (q.Text() + tail)[|q.Text()|..] == tail && (q.Text() + tail)[..|q.Text()|] == q.Text()
  {
    var s := q.Text() + tail;
    var after := (if q.percent then "%" else "") + tail;
    var sign := if q.negative then 1 else 0;
    assert s[sign..] == q.digits + after && |q.Text()| == sign + |q.digits| + if q.percent then 1 else 0;
    DigitsThen(q.digits, after);
    TokenOf(s, sign, q.digits, after);
    TextThen(q.Text(), tail);
  }

  lemma TokenOf(s: string, sign: nat, digits: string, after: string)
    requires sign <= |s| && s[sign..] == digits + after && digits != "" && CountDigits(s[sign..]) == |digits|
    requires sign == if s[0] == '-' then 1 else 0
    ensures TokenLength(s) == FirstTokenLength(s) == sign + |digits| + if after != "" && after[0] == '%' then 1 else 0
  {
    var d := sign + |digits|;
    assert d < |s| ==> s[d] == s[sign..][|digits|];
  }

  lemma TextThen(text: string, tail: string)
    ensures (text + tail)[|text|..] == tail && (text + tail)[..|text|] == text
  {
  }

  lemma CommaThen(tail: string)
    requires tail != "" && tail[0] != ','
    ensures CountChar("," + tail, ',') == 1 && ("," + tail)[1..] == tail
  {
    CharsThen(1, ',', ",", tail);
  }

  lemma OfStart(o: string)
    requires "of:" <= o
    ensures CountChar(o, ',') == 0 && CountChar(o, ' ') == 0 && TokenLength(o) == 0 && o[0..] == o
  {
    assert o[0] == "of:"[0] == 'o';
  }

  /** A simple quota is read back as its threshold. */
  lemma AtLeastHead(k: Quantity, o: string, s: string)
    requires k.Valid() && "of:" <= o && s == k.Text() + o
    ensures Head(s) == OfHead(k.Text(), "", "", o[3..])
  {
    assert o[0] == "of:"[0] == 'o';
    QuantityFlat(k);
    TokenThen(k, o);
    OfStart(o);
  }

  /** A triple of thresholds is read back as such. */
  lemma LevelsHead(a: Quantity, b: Quantity, c: Quantity, tail: string)
    requires a.Valid() && b.Valid() && c.Valid()
    ensures Head(a.Text() + ("," + (b.Text() + ("," + (c.Text() + ("of:" + tail)))))) ==
            OfHead(a.Text(), b.Text(), c.Text(), tail)
  {
    var o := "of:" + tail;
    var s4 := c.Text() + o;
    var s3 := "," + s4;
    var s2 := b.Text() + s3;
    var s1 := "," + s2;
    QuantityFlat(a);
    QuantityFlat(b);
    QuantityFlat(c);
    TokenThen(c, o);
    CommaThen(s4);
    TokenThen(b, s3);
    CommaThen(s2);
    TokenThen(a, s1);
    assert CountChar(o, ' ') == 0 && o[0..] == o && o[3..] == tail;
  }

  lemma {:induction false} OneLine(s: string)
    requires '\n' !in s
    ensures FirstLine(s) == s
  {
    if s != "" {
      OneLine(s[1..]);
    }
  }

  lemma BodyOf(a: string, b: string, c: string, lead: string, body: string)
    requires AllSpaceChars(lead) && Trimmed(body) && '\n' !in body
    ensures FromHead(OfHead(a, b, c, lead + body)) ==
            if b != "" && c != "" then OfMatch(OfValues(a, b, c), true, body)
            else OfMatch(OfValues(a, "0", "0"), false, body)
  {
    OneLine(lead + body);
    CharsThen(|lead|, ' ', lead, body);
  }

  function QuotaHead(q: Quota, rest: string): OfHead {
    match q
    case AtLeast(k) => OfHead(k.Text(), "", "", rest)
    case Levels(a, b, c) => OfHead(a.Text(), b.Text(), c.Text(), rest)
  }

  lemma HeadSome(q: Quota, rest: string, text: string)
    requires ValidQuota(q) && text == QuotaText(q) + ("of:" + rest)
    ensures Head(text) == QuotaHead(q, rest)
  {
    var o := "of:" + rest;
    assert o[3..] == rest;
    match q {
      case AtLeast(k) =>
        AtLeastHead(k, o, text);
      case Levels(a, b, c) =>
        FiveParts(a.Text(), b.Text(), c.Text(), o);
        LevelsHead(a, b, c, rest);
    }
  }

  lemma FiveParts(a: string, b: string, c: string, o: string)
    ensures a + "," + b + "," + c + o == a + ("," + (b + ("," + (c + o))))
  {
  }

  lemma BodySome(q: Quota, lead: string, body: string)
    requires ValidQuota(q) && AllSpaceChars(lead) && Trimmed(body) && '\n' !in body
    ensures FromHead(QuotaHead(q, lead + body)) == OfMatch(QuotaValues(q), q.Levels?, body)
  {
    match q {
      case AtLeast(k) =>
        BodyOf(k.Text(), "", "", lead, body);
      case Levels(a, b, c) =>
        QuantityFlat(b);
        QuantityFlat(c);
        BodyOf(a.Text(), b.Text(), c.Text(), lead, body);
    }
  }

  /** The whole of: expression, with leading spaces before the first son. */
  lemma XofSome(q: Quota, lead: string, body: string, text: string)
    requires ValidQuota(q) && AllSpaceChars(lead) && Trimmed(body) && '\n' !in body
    requires text == QuotaText(q) + ("of:" + (lead + body))
    ensures Xof(text) == OfMatch(QuotaValues(q), q.Levels?, body)
  {
    HeadSome(q, lead + body, text);
    BodySome(q, lead, body);
  }

  // ----- The character loop on printed text -----

  lemma FitsSkip(st: State, x: string, rest: string, n: nat)
    requires Fits(st, x + rest, n) && !HasAny(x, META)
    ensures Fits(st.(tmp := st.tmp + x), rest, n)
  {
    HasAnySkip(x, rest, META);
  }

  // one equation of the loop per kind of character

  lemma AtOpen(st: State, text: string, n: nat)
    requires Fits(st, text, n) && text != "" && text[0] == '('
    ensures Fits(Open(st), text[1..], n) && Scan(st, text, n) == Scan(Open(st), text[1..], n)
  {
  }

  lemma AtClose(st: State, text: string, n: nat)
    requires Fits(st, text, n) && text != "" && text[0] == ')' && st.stackedPar != 1
    ensures Fits(Close(st), text[1..], n) && Scan(st, text, n) == Scan(Close(st), text[1..], n)
  {
  }

  lemma AtOther(st: State, text: string, n: nat)
    requires Fits(st, text, n) && text != "" && text[0] !in "()" && (st.inPar || text[0] !in "&|!")
    ensures Fits(st.(tmp := st.tmp + [text[0]]), text[1..], n)
    ensures Scan(st, text, n) == Scan(st.(tmp := st.tmp + [text[0]]), text[1..], n)
  {
    assert text == [text[0]] + text[1..];
    if !st.inPar {
      FitsSkip(st, [text[0]], text[1..], n);
    }
  }

  function WithSon(st: State, node: Node): State
    requires !node.NoNode?
  {
    st.(sons := st.sons + [if st.sonIsNot then Negate(node) else node], sonIsNot := false, tmp := "")
  }

  lemma AtLastClose(st: State, text: string, node: Node, n: nat)
    requires Fits(st, text, n) && text != "" && text[0] == ')' && st.stackedPar == 1
    requires Eval(Strip(st.tmp)) == Parsed(node) && !node.NoNode?
    ensures var st' := WithSon(st, node).(inPar := false, stackedPar := 0);
            Fits(st', text[1..], n) && Scan(st, text, n) == Scan(st', text[1..], n)
  {
  }

  /** Ordinary characters outside parentheses pile up. */
  lemma {:induction false} ScanChars(st: State, x: string, rest: string, n: nat)
    requires !st.inPar && !HasAny(x, "()&|!") && Fits(st, x + rest, n)
    ensures Fits(st.(tmp := st.tmp + x), rest, n)
    ensures Scan(st, x + rest, n) == Scan(st.(tmp := st.tmp + x), rest, n)
    decreases |x|
  {
    if x == "" {
      assert x + rest == rest && st.tmp + x == st.tmp;
    } else {
      assert x[0] !in "()&|!";
      assert (x + rest)[0] == x[0] && (x + rest)[1..] == x[1..] + rest;
      AtOther(st, x + rest, n);
      ScanChars(st.(tmp := st.tmp + [x[0]]), x[1..], rest, n);
      assert st.tmp + [x[0]] + x[1..] == st.tmp + x;
    }
  }

  /** Inside a parenthesis every character is taken as it stands. */
  lemma InsideStep(st: State, y: string, i: nat, text: string, n: nat)
    requires st.inPar && i < |y| && st.tmp == y[..i] && st.stackedPar == 1 + Depth(y[..i])
    requires Good(y) && text != "" && text[0] == y[i] && Fits(st, text, n)
    ensures var st' := st.(tmp := y[..i + 1], stackedPar := 1 + Depth(y[..i + 1]));
            Fits(st', text[1..], n) && Scan(st, text, n) == Scan(st', text[1..], n)
  {
    DepthStep(y, i);
    if y[i] == '(' {
      PrefixStrip(y, i);
      AtOpen(st, text, n);
    } else if y[i] == ')' {
      AtClose(st, text, n);
    } else {
      AtOther(st, text, n);
    }
  }

  lemma {:induction false} ScanInside(st: State, y: string, i: nat, rest: string, n: nat)
    requires st.inPar && i <= |y| && st.tmp == y[..i] && st.stackedPar == 1 + Depth(y[..i])
    requires Good(y) && Fits(st, y[i..] + rest, n)
    ensures Fits(st.(tmp := y, stackedPar := 1), rest, n)
    ensures Scan(st, y[i..] + rest, n) == Scan(st.(tmp := y, stackedPar := 1), rest, n)
    decreases |y| - i
  {
    if i == |y| {
      assert y[..i] == y && y[i..] + rest == rest;
    } else {
      FromInside(y, i, rest);
      InsideStep(st, y, i, y[i..] + rest, n);
      ScanInside(st.(tmp := y[..i + 1], stackedPar := 1 + Depth(y[..i + 1])), y, i + 1, rest, n);
    }
  }

  /** A parenthesised sub-expression becomes one son. */
  lemma ScanPar(st: State, y: string, rest: string, node: Node, text: string, n: nat)
    requires !st.inPar && st.stackedPar == 0 && st.tmp == "" && Good(y) && Eval(y) == Parsed(node) && !node.NoNode?
    requires text == "(" + y + ")" + rest && Fits(st, text, n)
    ensures Fits(WithSon(st, node), rest, n) && Scan(st, text, n) == Scan(WithSon(st, node), rest, n)
  {
    Reassociate("(", y, ")", rest);
    ScanToClose(st, y, ")" + rest, text, n);
    ScanLastClose(Open(st).(tmp := y, stackedPar := 1), y, rest, node, n);
  }

  lemma ScanToClose(st: State, y: string, close: string, text: string, n: nat)
    requires !st.inPar && st.stackedPar == 0 && st.tmp == "" && Good(y)
    requires text == "(" + (y + close) && Fits(st, text, n)
    ensures var st' := Open(st).(tmp := y, stackedPar := 1);
            Fits(st', close, n) && Scan(st, text, n) == Scan(st', close, n)
  {
    assert text[0] == '(' && text[1..] == y[0..] + close;
    AtOpen(st, text, n);
    ScanInside(Open(st), y, 0, close, n);
  }

  lemma ScanLastClose(st: State, y: string, rest: string, node: Node, n: nat)
    requires st.stackedPar == 1 && st.tmp == y && Trimmed(y) && Eval(y) == Parsed(node) && !node.NoNode?
    requires Fits(st, ")" + rest, n)
    ensures var st' := WithSon(st, node).(inPar := false, stackedPar := 0);
            Fits(st', rest, n) && Scan(st, ")" + rest, n) == Scan(st', rest, n)
  {
    var close := ")" + rest;
    assert close[0] == ')' && close[1..] == rest;
    StripTrimmed(y);
    AtLastClose(st, close, node, n);
  }

  /** Outside parentheses with nothing pending. */
  predicate Clean(st: State) {
    !st.inPar && st.stackedPar == 0 && !st.sonIsNot && st.tmp == ""
  }

  function OpOf(c: char): Operand {
    if c == '&' then And else Or
  }

  /** `c` is an admissible operator at this level. */
  predicate Admits(st: State, c: char) {
    st.operand == Unset || st.operand == Of || st.operand == OpOf(c)
  }

  function AfterOp(st: State, c: char): State {
    if st.operand == Of then st else st.(operand := OpOf(c))
  }

  lemma AtNot(st: State, text: string, n: nat)
    requires Fits(st, text, n) && text != "" && text[0] == '!' && !st.inPar && AllSpace(st.tmp)
    ensures Fits(st.(tmp := "", sonIsNot := true), text[1..], n)
    ensures Scan(st, text, n) == Scan(st.(tmp := "", sonIsNot := true), text[1..], n)
  {
    StripAllSpace(st.tmp);
    assert text == [text[0]] + text[1..];
    FitsSkip(st, [text[0]], text[1..], n);
  }

  /** An operator after a finished son. */
  lemma AtOpEmpty(st: State, text: string, n: nat)
    requires Fits(st, text, n) && text != "" && (text[0] == '&' || text[0] == '|')
    requires !st.inPar && AllSpace(st.tmp) && Admits(st, text[0])
    ensures var st' := AfterOp(st, text[0]).(tmp := "");
            Fits(st', text[1..], n) && Scan(st, text, n) == Scan(st', text[1..], n)
  {
    StripAllSpace(st.tmp);
  }

  /** An operator after a pending name. */
  lemma AtOpName(st: State, text: string, node: Node, n: nat)
    requires Fits(st, text, n) && text != "" && (text[0] == '&' || text[0] == '|')
    requires !st.inPar && Admits(st, text[0]) && Strip(st.tmp) != ""
    requires Eval(Strip(st.tmp)) == Parsed(node) && !node.NoNode?
    ensures var st' := WithSon(AfterOp(st, text[0]), node);
            Fits(st', text[1..], n) && Scan(st, text, n) == Scan(st', text[1..], n)
  {
  }

  lemma EvalName(name: string)
    requires PlainName(name)
    ensures Eval(name) == Parsed(ToNode(Son(false, Name(name))))
  {
    StripTrimmed(name);
    GoodName(name);
    NoHeadName(name);
    assert name[0] !in "()&|!";
  }

  /** What the state becomes once the text of a son has been read: a name is still
      pending, a parenthesised rule is already a son. */
  function Read(st: State, s: Son, lead: string): State {
    if s.tree.Name? then st.(tmp := if s.negated then s.tree.name else lead + s.tree.name, sonIsNot := s.negated)
    else st.(sons := st.sons + [ToNode(s)], tmp := "")
  }

  /** A son's text, after spaces unless it starts with a parenthesis. */
  lemma ReadSon(st: State, s: Son, lead: string, pad: nat, rest: string, n: nat)
    requires Clean(st) && ValidSon(s) && AllSpaceChars(lead) && (lead == "" || s.negated || s.tree.Name?)
    requires !s.tree.Name? ==> Eval(Print(s.tree, pad)) == Parsed(ToNode(Son(false, s.tree)))
    requires Fits(st, lead + SonText(s, pad) + rest, n)
    ensures Fits(Read(st, s, lead), rest, n)
    ensures Scan(st, lead + SonText(s, pad) + rest, n) == Scan(Read(st, s, lead), rest, n)
  {
    var body := SonBody(s, pad);
    if s.negated {
      assert lead + SonText(s, pad) + rest == lead + ("!" + (body + rest));
      ReadNegated(st, s, lead, pad, "!" + (body + rest), rest, n);
    } else {
      assert lead + SonText(s, pad) + rest == lead + (body + rest);
      ScanChars(st, lead, body + rest, n);
      assert st.tmp + lead == lead;
      ReadBody(st.(tmp := lead), s, lead, pad, rest, n);
    }
  }

  lemma ReadNegated(st: State, s: Son, lead: string, pad: nat, text: string, rest: string, n: nat)
    requires Clean(st) && ValidSon(s) && AllSpaceChars(lead) && s.negated
    requires !s.tree.Name? ==> Eval(Print(s.tree, pad)) == Parsed(ToNode(Son(false, s.tree)))
    requires text == "!" + (SonBody(s, pad) + rest) && Fits(st, lead + text, n)
    ensures Fits(Read(st, s, lead), rest, n) && Scan(st, lead + text, n) == Scan(Read(st, s, lead), rest, n)
  {
    ScanChars(st, lead, text, n);
    assert st.tmp + lead == lead && text[0] == '!' && text[1..] == SonBody(s, pad) + rest;
    AtNot(st.(tmp := lead), text, n);
    ReadBody(st.(tmp := "", sonIsNot := true), s, "", pad, rest, n);
    if s.tree.Name? {
      assert "" + s.tree.name == s.tree.name;
    }
  }

  lemma ReadBody(st: State, s: Son, lead: string, pad: nat, rest: string, n: nat)
    requires !st.inPar && st.stackedPar == 0 && st.sonIsNot == s.negated && st.tmp == lead
    requires ValidSon(s) && (s.tree.Name? || lead == "")
    requires !s.tree.Name? ==> Eval(Print(s.tree, pad)) == Parsed(ToNode(Son(false, s.tree)))
    requires Fits(st, SonBody(s, pad) + rest, n)
    ensures var st' := if s.tree.Name? then st.(tmp := lead + s.tree.name)
                       else st.(sons := st.sons + [ToNode(s)], tmp := "", sonIsNot := false);
            Fits(st', rest, n) && Scan(st, SonBody(s, pad) + rest, n) == Scan(st', rest, n)
  {
    if s.tree.Name? {
      GoodName(s.tree.name);
      ScanChars(st, s.tree.name, rest, n);
    } else {
      PrintGood(s.tree, pad);
      ScanPar(st, Print(s.tree, pad), rest, ToNode(Son(false, s.tree)), SonBody(s, pad) + rest, n);
    }
  }

  /** After a son, spaces and an operator make it count and leave a clean state. */
  lemma ReadOp(st: State, s: Son, lead: string, pad: nat, c: char, more: string, n: nat)
    requires Clean(st) && ValidSon(s) && AllSpaceChars(lead) && (c == '&' || c == '|') && Admits(st, c)
    requires Fits(Read(st, s, lead), Spaces(pad) + ([c] + more), n)
    ensures var st' := AfterOp(st, c).(sons := st.sons + [ToNode(s)]);
            && Fits(st', more, n)
            && Scan(Read(st, s, lead), Spaces(pad) + ([c] + more), n) == Scan(st', more, n)
  {
    var st1 := Read(st, s, lead);
    var text := [c] + more;
    assert text[0] == c && text[1..] == more;
    ScanChars(st1, Spaces(pad), text, n);
    var st2 := st1.(tmp := st1.tmp + Spaces(pad));
    if s.tree.Name? {
      PendingName(s, lead, pad);
      AtOpName(st2, text, ToNode(Son(false, s.tree)), n);
    } else {
      assert st2.tmp == Spaces(pad);
      AtOpEmpty(st2, text, n);
    }
  }

  /** A pending name, however padded, evaluates to its leaf. */
  lemma PendingName(s: Son, lead: string, pad: nat)
    requires ValidSon(s) && s.tree.Name? && AllSpaceChars(lead)
    ensures Strip(lead + s.tree.name + Spaces(pad)) == s.tree.name == Strip(s.tree.name + Spaces(pad))
    ensures Eval(s.tree.name) == Parsed(ToNode(Son(false, s.tree))) && s.tree.name != ""
  {
    EvalName(s.tree.name);
    StripName(s.tree.name, lead, pad);
  }

  function Result(st: State, sons: seq<Node>): Node {
    Rule(st.operand, sons, Switched(st.values, |sons|), st.isOfMul, false)
  }

  /** After the last son, the end of the text makes it count. */
  lemma ReadEnd(st: State, s: Son, lead: string, n: nat)
    requires Clean(st) && ValidSon(s) && AllSpaceChars(lead) && Fits(Read(st, s, lead), "", n)
    ensures Scan(Read(st, s, lead), "", n) == Parsed(Result(st, st.sons + [ToNode(s)]))
  {
    if s.tree.Name? {
      ReadNameEnd(st, s, lead, n);
    } else {
      StripAllSpace("");
    }
  }

  lemma ReadNameEnd(st: State, s: Son, lead: string, n: nat)
    requires Clean(st) && ValidSon(s) && AllSpaceChars(lead) && Fits(Read(st, s, lead), "", n) && s.tree.Name?
    ensures Scan(Read(st, s, lead), "", n) == Parsed(Result(st, st.sons + [ToNode(s)]))
  {
    PendingName(s, lead, 0);
    assert lead + s.tree.name + Spaces(0) == lead + s.tree.name;
    assert s.tree.name + Spaces(0) == s.tree.name;
  }

  // ----- The round trip -----

  lemma ReadSonOp(st: State, s: Son, lead: string, pad: nat, c: char, more: string, text: string, n: nat)
    requires Clean(st) && ValidSon(s) && AllSpaceChars(lead) && (lead == "" || s.negated || s.tree.Name?)
    requires !s.tree.Name? ==> Eval(Print(s.tree, pad)) == Parsed(ToNode(Son(false, s.tree)))
    requires (c == '&' || c == '|') && Admits(st, c)
    requires text == lead + SonText(s, pad) + (Spaces(pad) + ([c] + more)) && Fits(st, text, n)
    ensures var st' := AfterOp(st, c).(sons := st.sons + [ToNode(s)]);
            Fits(st', more, n) && Scan(st, text, n) == Scan(st', more, n)
  {
    ReadSon(st, s, lead, pad, Spaces(pad) + ([c] + more), n);
    ReadOp(st, s, lead, pad, c, more, n);
  }

  lemma ReadSonEnd(st: State, s: Son, lead: string, pad: nat, text: string, n: nat)
    requires Clean(st) && ValidSon(s) && AllSpaceChars(lead) && (lead == "" || s.negated || s.tree.Name?)
    requires !s.tree.Name? ==> Eval(Print(s.tree, pad)) == Parsed(ToNode(Son(false, s.tree)))
    requires text == lead + SonText(s, pad) && Fits(st, text, n)
    ensures Scan(st, text, n) == Parsed(Result(st, st.sons + [ToNode(s)]))
  {
    assert text == lead + SonText(s, pad) + "";
    ReadSon(st, s, lead, pad, "", n);
    ReadEnd(st, s, lead, n);
  }

  lemma {:induction false} JoinScan(st: State, sons: seq<Son>, lead: string, c: char, pad: nat, text: string, n: nat)
    requires Clean(st) && sons != [] && ValidSons(sons) && (c == '&' || c == '|') && Admits(st, c)
    requires AllSpaceChars(lead) && (lead == "" || sons[0].negated || sons[0].tree.Name?)
    requires text == lead + Join(sons, c, pad) && Fits(st, text, n)
    ensures Scan(st, text, n) == Parsed(Result(if |sons| > 1 then AfterOp(st, c) else st, st.sons + ToNodes(sons)))
    decreases sons, 0
  {
    SonRoundTrip(sons[0], pad);
    if |sons| == 1 {
      ReadSonEnd(st, sons[0], lead, pad, text, n);
    } else {
      JoinScanStep(st, sons, lead, c, pad, text, n);
      var st' := AfterOp(st, c).(sons := st.sons + [ToNode(sons[0])]);
      var lead' := Lead(sons[1], pad);
      JoinScan(st', sons[1..], lead', c, pad, lead' + Join(sons[1..], c, pad), n);
    }
    NodesAppend(sons, st.sons);
  }

  lemma NodesAppend(sons: seq<Son>, base: seq<Node>)
    requires sons != []
    ensures base + ToNodes(sons) == (base + [ToNode(sons[0])]) + ToNodes(sons[1..])
    ensures |sons| == 1 ==> base + ToNodes(sons) == base + [ToNode(sons[0])]
  {
    AppendTwo(base, [ToNode(sons[0])], ToNodes(sons[1..]));
  }

  lemma JoinScanStep(st: State, sons: seq<Son>, lead: string, c: char, pad: nat, text: string, n: nat)
    requires Clean(st) && |sons| > 1 && ValidSons(sons) && (c == '&' || c == '|') && Admits(st, c)
    requires AllSpaceChars(lead) && (lead == "" || sons[0].negated || sons[0].tree.Name?)
    requires !sons[0].tree.Name? ==> Eval(Print(sons[0].tree, pad)) == Parsed(ToNode(Son(false, sons[0].tree)))
    requires text == lead + Join(sons, c, pad) && Fits(st, text, n)
    ensures var st' := AfterOp(st, c).(sons := st.sons + [ToNode(sons[0])]);
            var more := Lead(sons[1], pad) + Join(sons[1..], c, pad);
            Fits(st', more, n) && Scan(st, text, n) == Scan(st', more, n)
  {
    var more := Lead(sons[1], pad) + Join(sons[1..], c, pad);
    assert text == lead + SonText(sons[0], pad) + (Spaces(pad) + ([c] + more));
    ReadSonOp(st, sons[0], lead, pad, c, more, text, n);
  }

  lemma {:induction false} SonRoundTrip(s: Son, pad: nat)
    requires ValidSon(s)
    ensures Eval(Print(s.tree, pad)) == Parsed(ToNode(Son(false, s.tree)))
    decreases s
  {
    RoundTrip(s.tree, pad);
  }

  lemma NoHeadMark(text: string)
    requires text != "" && (text[0] == '!' || text[0] == '(')
    ensures Head(text) == NoHead
  {
  }

  /** A joined rule without quota has no of: prefix. */
  lemma JoinNoHead(s: Son, pad: nat, c: char, more: string, text: string)
    requires ValidSon(s) && (c == '&' || c == '|')
    requires text == SonText(s, pad) + (Spaces(pad) + [c] + more)
    ensures Head(text) == NoHead
  {
    if s.tree.Name? && !s.negated {
      assert PlainName(s.tree.name);
      NoHeadAfterName(s.tree.name, pad, c, more, text);
    } else {
      NoHeadMark(text);
    }
  }

  lemma EvalComplex(text: string, m: OfMatch, pattern: string)
    requires Trimmed(text) && HasAny(text, META) && Xof(text) == m
    requires pattern == if m.OfMatch? then m.pattern else text
    ensures Fits(Initial(m), pattern, |text|) && Eval(text) == Scan(Initial(m), pattern, |text|)
  {
    StripTrimmed(text);
  }

  lemma JoinText(sons: seq<Son>, c: char, pad: nat, text: string)
    requires |sons| >= 2 && ValidSons(sons) && (c == '&' || c == '|') && text == Join(sons, c, pad)
    ensures Fits(Initial(NoMatch), text, |text|) && Eval(text) == Scan(Initial(NoMatch), text, |text|)
  {
    JoinGood(sons, c, pad);
    assert c in META;
    JoinNoMatch(sons, c, pad, text);
    EvalComplex(text, NoMatch, text);
  }

  lemma JoinNoMatch(sons: seq<Son>, c: char, pad: nat, text: string)
    requires |sons| >= 2 && ValidSons(sons) && (c == '&' || c == '|') && text == Join(sons, c, pad)
    ensures Xof(text) == NoMatch
  {
    JoinShape(sons, c, pad);
    JoinNoHead(sons[0], pad, c, Lead(sons[1], pad) + Join(sons[1..], c, pad), text);
  }

  lemma JoinShape(sons: seq<Son>, c: char, pad: nat)
    requires |sons| >= 2
    ensures Join(sons, c, pad) ==
            SonText(sons[0], pad) + (Spaces(pad) + [c] + (Lead(sons[1], pad) + Join(sons[1..], c, pad)))
  {
    var tail := Join(sons[1..], c, pad);
    assert Spaces(pad) + [c] + Lead(sons[1], pad) + tail == Spaces(pad) + [c] + (Lead(sons[1], pad) + tail);
  }

  lemma {:induction false} JoinValue(sons: seq<Son>, m: OfMatch, c: char, pad: nat, text: string, n: nat)
    requires |sons| >= 2 && ValidSons(sons) && (c == '&' || c == '|') && text == Join(sons, c, pad)
    requires Fits(Initial(m), text, n)
    ensures Scan(Initial(m), text, n) ==
            Parsed(Result(AfterOp(Initial(m), c), ToNodes(sons)))
    decreases sons, 1
  {
    assert text == "" + text;
    JoinScan(Initial(m), sons, "", c, pad, text, n);
    assert [] + ToNodes(sons) == ToNodes(sons);
  }

  lemma {:induction false} JoinRoundTrip(sons: seq<Son>, c: char, pad: nat, text: string)
    requires |sons| >= 2 && ValidSons(sons) && (c == '&' || c == '|') && text == Join(sons, c, pad)
    ensures Eval(text) == Parsed(Rule(OpOf(c), ToNodes(sons), Switched(NoValues, |sons|), false, false))
    decreases sons, 2
  {
    JoinText(sons, c, pad, text);
    JoinValue(sons, NoMatch, c, pad, text, |text|);
  }

  lemma SomeText(q: Quota, sons: seq<Son>, c: char, pad: nat, text: string, body: string, m: OfMatch)
    requires |sons| >= 2 && ValidSons(sons) && ValidQuota(q) && (c == '&' || c == '|')
    requires text == Print(Some(q, c, sons), pad) && body == Join(sons, c, pad)
    requires m == OfMatch(QuotaValues(q), q.Levels?, body)
    ensures Fits(Initial(m), body, |text|) && Eval(text) == Scan(Initial(m), body, |text|)
  {
    PrintGood(Some(q, c, sons), pad);
    JoinGood(sons, c, pad);
    SomeXof(q, sons, c, pad, text, body);
    EvalComplex(text, m, body);
  }

  lemma {:induction false} SomeRoundTrip(q: Quota, sons: seq<Son>, c: char, pad: nat, text: string)
    requires |sons| >= 2 && ValidSons(sons) && ValidQuota(q) && (c == '&' || c == '|')
    requires text == Print(Some(q, c, sons), pad)
    ensures Eval(text) == Parsed(Rule(Of, ToNodes(sons), Switched(QuotaValues(q), |sons|), q.Levels?, false))
    decreases sons, 2
  {
    var body := Join(sons, c, pad);
    var m := OfMatch(QuotaValues(q), q.Levels?, body);
    SomeText(q, sons, c, pad, text, body, m);
    JoinValue(sons, m, c, pad, body, |text|);
  }

  lemma SomeXof(q: Quota, sons: seq<Son>, c: char, pad: nat, text: string, body: string)
    requires sons != [] && ValidQuota(q) && text == Print(Some(q, c, sons), pad)
    requires body == Join(sons, c, pad) && Good(body)
    ensures Xof(text) == OfMatch(QuotaValues(q), q.Levels?, body)
  {
    Reassociate(QuotaText(q), "of:", Lead(sons[0], pad), body);
    XofSome(q, Lead(sons[0], pad), body, text);
  }

  /** Parsing the text of a rule gives the rule's node back. */
  lemma {:induction false} RoundTrip(t: Tree, pad: nat)
    requires Valid(t)
    ensures Eval(Print(t, pad)) == Parsed(ToNode(Son(false, t)))
    decreases t
  {
    match t
    case Name(name) => EvalName(name);
    case All(sons) => JoinRoundTrip(sons, '&', pad, Print(t, pad));
    case Any(sons) => JoinRoundTrip(sons, '|', pad, Print(t, pad));
    case Some(quota, separator, sons) => SomeRoundTrip(quota, sons, separator, pad, Print(t, pad));
  }
}
