/** Texts with nested parentheses, as both expression parsers read them. */
module Brackets {
  import opened Text

  function Step(c: char): int {
    if c == '(' then 1 else if c == ')' then -1 else 0
  }

  function Depth(s: string): int {
    if s == "" then 0 else Depth(s[..|s| - 1]) + Step(s[|s| - 1])
  }

  lemma {:induction false} DepthConcat(a: string, b: string)
    ensures Depth(a + b) == Depth(a) + Depth(b)
  {
    if b == "" {
      assert a + b == a;
    } else {
      assert (a + b)[..|a + b| - 1] == a + b[..|b| - 1];
      DepthConcat(a, b[..|b| - 1]);
    }
  }

  predicate Balanced(s: string) {
    Depth(s) == 0 && forall i :: 0 <= i <= |s| ==> Depth(s[..i]) >= 0
  }

  lemma BalancedConcat(a: string, b: string)
    requires Balanced(a) && Balanced(b)
    ensures Balanced(a + b)
  {
    DepthConcat(a, b);
    forall i | 0 <= i <= |a + b| ensures Depth((a + b)[..i]) >= 0 {
      if i <= |a| {
        assert (a + b)[..i] == a[..i];
      } else {
        assert (a + b)[..i] == a + b[..i - |a|];
        DepthConcat(a, b[..i - |a|]);
      }
    }
  }

  lemma {:induction false} DepthFlat(s: string)
    requires !HasAny(s, "()")
    ensures Depth(s) == 0
  {
    if s != "" {
      assert s[|s| - 1] !in "()";
      DepthFlat(s[..|s| - 1]);
    }
  }

  lemma BalancedFlat(s: string)
    requires !HasAny(s, "()")
    ensures Balanced(s)
  {
    forall i | 0 <= i <= |s| ensures Depth(s[..i]) == 0 {
      DepthFlat(s[..i]);
    }
    assert s[..|s|] == s;
  }

  lemma BalancedPar(s: string)
    requires Balanced(s)
    ensures Balanced("(" + s + ")")
  {
    var p := "(" + s + ")";
    DepthConcat("(" + s, ")");
    DepthConcat("(", s);
    assert Depth("(") == 1 && Depth(")") == -1;
    forall i | 0 <= i <= |p| ensures Depth(p[..i]) >= 0 {
      if i == 0 {
      } else if i <= |s| + 1 {
        assert p[..i] == "(" + s[..i - 1];
        DepthConcat("(", s[..i - 1]);
      } else {
        assert p[..i] == p;
      }
    }
  }

  /** No space stands before an opening parenthesis. */
  predicate Tidy(s: string) {
    forall i :: 0 < i < |s| && s[i] == '(' ==> !IsSpace(s[i - 1])
  }

  predicate Piece(s: string) {
    Balanced(s) && Tidy(s) && '\n' !in s
  }

  predicate Good(s: string) {
    Piece(s) && Trimmed(s)
  }

  lemma PieceConcat(a: string, b: string)
    requires Piece(a) && Piece(b)
    requires a != "" && b != "" && b[0] == '(' ==> !IsSpace(a[|a| - 1])
    ensures Piece(a + b)
  {
    BalancedConcat(a, b);
  }

  lemma FlatPiece(s: string)
    requires !HasAny(s, "()\n")
    ensures Piece(s)
  {
    forall i | 0 <= i < |s| ensures s[i] !in "()" && s[i] != '\n' {
      assert s[i] !in "()\n";
    }
    BalancedFlat(s);
  }

  lemma ParPiece(s: string)
    requires Good(s)
    ensures Good("(" + s + ")")
  {
    BalancedPar(s);
  }

  lemma FlatConcat(a: string, b: string, chars: string)
    requires !HasAny(a, chars) && !HasAny(b, chars)
    ensures !HasAny(a + b, chars)
  {
  }

  lemma ThreePieces(a: string, mid: string, tail: string, c: char, k: nat)
    requires Good(a) && Piece(mid) && Good(tail) && k < |mid| && mid[k] == c && mid[0] != '('
    requires tail[0] == '(' ==> !IsSpace(mid[|mid| - 1])
    ensures Good(a + (mid + tail)) && c in a + (mid + tail) && (a + (mid + tail))[0] == a[0]
  {
    PieceConcat(mid, tail);
    PieceConcat(a, mid + tail);
    assert (a + (mid + tail))[|a| + k] == c;
  }

  lemma GoodTail(head: string, tail: string, meta: string)
    requires Piece(head) && Good(tail) && head != "" && !IsSpace(head[0])
    requires tail[0] == '(' ==> !IsSpace(head[|head| - 1])
    ensures Good(head + tail) && (HasAny(tail, meta) ==> HasAny(head + tail, meta))
  {
    PieceConcat(head, tail);
    if HasAny(tail, meta) {
      var i :| 0 <= i < |tail| && tail[i] in meta;
      assert (head + tail)[|head| + i] == tail[i];
    }
  }

  lemma DepthStep(y: string, i: nat)
    requires i < |y| && Balanced(y)
    ensures y[..i + 1] == y[..i] + [y[i]] && Depth(y[..i + 1]) == Depth(y[..i]) + Step(y[i])
    ensures Depth(y[..i]) >= 0 && Depth(y[..i + 1]) >= 0
  {
    assert y[..i + 1] == y[..i] + [y[i]] && y[..i + 1][..i] == y[..i];
  }

  /** The text from position `i` of `y` on begins with that character. */
  lemma FromInside(y: string, i: nat, rest: string)
    requires i < |y|
    ensures (y[i..] + rest)[0] == y[i] && (y[i..] + rest)[1..] == y[i + 1..] + rest
  {
  }

  lemma HasAnySkip(x: string, rest: string, chars: string)
    requires !HasAny(x, chars)
    ensures HasAny(x + rest, chars) ==> HasAny(rest, chars)
  {
    if HasAny(x + rest, chars) {
      var i :| 0 <= i < |x + rest| && (x + rest)[i] in chars;
      assert i >= |x| ==> rest[i - |x|] in chars;
    }
  }

  lemma AppendTwo<T>(a: seq<T>, b: seq<T>, c: seq<T>)
    ensures a + (b + c) == (a + b) + c && (c == [] ==> b + c == b)
  {
  }

  lemma PrefixStrip(y: string, i: nat)
    requires i < |y| && y[i] == '(' && Tidy(y) && Trimmed(y)
    ensures Strip(y[..i]) == y[..i]
  {
    if i > 0 {
      StripTrimmed(y[..i]);
    }
  }

  predicate AllSpaceChars(s: string) {
    forall i :: 0 <= i < |s| ==> s[i] == ' '
  }

  lemma Reassociate(a: string, b: string, c: string, d: string)
    ensures a + b + c + d == a + (b + (c + d))
  {
  }

  lemma StripName(name: string, lead: string, pad: nat)
    requires Trimmed(name) && AllSpaceChars(lead)
    ensures Strip(lead + name + Spaces(pad)) == name == Strip(name + Spaces(pad))
  {
    StripPadded(lead, name, Spaces(pad));
    StripPadded("", name, Spaces(pad));
    assert "" + name + Spaces(pad) == name + Spaces(pad);
  }
}
