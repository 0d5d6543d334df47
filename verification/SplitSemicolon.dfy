/** `split_semicolon` of `shinken/util.py`: cutting a line at the semicolons that are not
    escaped by a backslash, into a limited number of parts. */
module SplitSemicolons {
  import opened Options
  import opened Text

  // ----- What a line means, character by character -----

  /** `\;` stands for a semicolon inside a field, a bare `;` ends one, and every other
      character, a backslash included, stands for itself. */
  function Fields(line: string): (r: seq<string>)
    ensures r != []
  {
    if line == "" then [""]
    else if |line| > 1 && line[0] == '\\' && line[1] == ';' then Prepend(";", Fields(line[2..]))
    else if line[0] == ';' then [""] + Fields(line[1..])
    else Prepend([line[0]], Fields(line[1..]))
  }

  /** All fields from index `m` on in one, with their separators; a negative limit is none. */
  function Limited(fields: seq<string>, limit: Option<int>): seq<string> {
    if limit.None? || limit.value < 0 || |fields| <= limit.value then fields
    else fields[..limit.value] + [Join(fields[limit.value..], ';')]
  }

  // ----- The list of parts as the source edits it -----

  predicate Ends(s: string) {
    s != "" && s[|s| - 1] == '\\'
  }

  function Cut(s: string): string {
    if Ends(s) then s[..|s| - 1] else s
  }

  /** The parts from the current one on; `k` more may stand alone. */
  function Merge(cur: string, rest: seq<string>, k: int): (r: seq<string>)
    ensures r != []
    decreases rest
  {
    if rest == [] then [cur]
    else if Ends(cur) || k <= 0 then Merge(Cut(cur) + ";" + rest[0], rest[1..], k)
    else [cur] + Merge(rest[0], rest[1..], k - 1)
  }

  /** What the list becomes once the parts from index `i` on have been merged. */
  function View(parts: seq<string>, i: nat, k: int): seq<string>
    requires i < |parts|
  {
    parts[..i] + Merge(parts[i], parts[i + 1..], k)
  }

  lemma ViewGlue(parts: seq<string>, i: nat, k: int, after: seq<string>)
    requires i + 1 < |parts| && (Ends(parts[i]) || k <= 0)
    requires after == parts[..i] + [Cut(parts[i]) + ";" + parts[i + 1]] + parts[i + 2..]
    ensures View(after, i, k) == View(parts, i, k)
  {
    assert after[..i] == parts[..i] && after[i + 1..] == parts[i + 1..][1..];
  }

  /** The list after the two edits: part `i` replaced and part `i + 1` deleted. */
  lemma ListEdit(parts: seq<string>, i: nat, cut: string, x: string, after: seq<string>)
    requires i + 1 < |parts| && after == parts[i := cut][i := x][..i + 1] + parts[i := cut][i := x][i + 2..]
    ensures after == parts[..i] + [x] + parts[i + 2..]
  {
    assert parts[i := cut][i := x] == parts[..i] + [x] + parts[i + 1..];
  }

  lemma ViewNext(parts: seq<string>, i: nat, k: int)
    requires i + 1 < |parts| && !Ends(parts[i]) && k > 0
    ensures View(parts, i + 1, k - 1) == View(parts, i, k)
  {
    assert parts[..i + 1] == parts[..i] + [parts[i]] && parts[i + 2..] == parts[i + 1..][1..];
  }

  method SplitSemicolon(line: string, maxsplit: Option<int>) returns (splitted: seq<string>)
    ensures splitted == Limited(Fields(line), maxsplit)
    ensures maxsplit.None? || maxsplit.value < 0 || maxsplit.value >= |Fields(line)| ==> splitted == Fields(line)
    ensures maxsplit.Some? && 0 <= maxsplit.value < |Fields(line)| ==>
              var k, all := maxsplit.value, Fields(line);
              |splitted| == k + 1 && splitted[..k] == all[..k] && splitted[k] == Join(all[k..], ';')
  {
    splitted := Split(line, ';');
    var limit := if maxsplit.None? || 0 > maxsplit.value then |splitted| else maxsplit.value;
    ViewIsFields(line, splitted, limit);
    splitted := JoinParts(splitted, limit);
  }

  /** Joins a part to the next one if it ends with a backslash or lies behind the limit. */
  method JoinParts(parts: seq<string>, limit: nat) returns (splitted: seq<string>)
    requires parts != []
    ensures splitted == View(parts, 0, limit)
  {
    splitted := parts;
    var size := |splitted|;
    var i := 0;
    while i < size - 1
      invariant 0 <= i < size == |splitted| && View(splitted, i, limit - i) == View(parts, 0, limit)
      decreases size - i
    {
      ghost var before := splitted;
      var ends := Ends(splitted[i]);
      if ends {
        splitted := splitted[i := splitted[i][..|splitted[i]| - 1]];
      }
      if (ends || i >= limit) && i < size - 1 {
        assert splitted == before[i := Cut(before[i])];
        splitted := splitted[i := splitted[i] + ";" + splitted[i + 1]];
        splitted := splitted[..i + 1] + splitted[i + 2..];
        size := size - 1;
        ListEdit(before, i, Cut(before[i]), Cut(before[i]) + ";" + before[i + 1], splitted);
        ViewGlue(before, i, limit - i, splitted);
      } else {
        ViewNext(splitted, i, limit - i);
        i := i + 1;
      }
    }
    assert splitted[..i] + [splitted[i]] == splitted && splitted[i + 1..] == [];
  }

  lemma ViewIsFields(line: string, parts: seq<string>, limit: nat)
    requires parts == Split(line, ';')
    ensures View(parts, 0, limit) == Limited(Fields(line), Some(limit))
    ensures limit == |parts| ==> View(parts, 0, limit) == Fields(line)
  {
    LimitedMerge(parts[0], parts[1..], limit);
    UnlimitedIsFields(line, parts);
  }

  // ----- The edited list and the fields -----

  /** The edited list when no limit is reached. */
  function Unlimited(cur: string, rest: seq<string>): (r: seq<string>)
    ensures r != [] && |r| <= |rest| + 1
    decreases rest
  {
    if rest == [] then [cur]
    else if Ends(cur) then Unlimited(Cut(cur) + ";" + rest[0], rest[1..])
    else [cur] + Unlimited(rest[0], rest[1..])
  }

  lemma {:induction false} UnlimitedPrepend(x: string, p: string, rest: seq<string>)
    requires p != "" || !Ends(x)
    ensures Unlimited(x + p, rest) == Prepend(x, Unlimited(p, rest))
    decreases rest
  {
    if rest != [] && Ends(p) {
      assert Cut(x + p) + ";" + rest[0] == x + (Cut(p) + ";" + rest[0]);
      UnlimitedPrepend(x, Cut(p) + ";" + rest[0], rest[1..]);
    }
  }

  /** Past the limit everything is joined. */
  lemma {:induction false} MergeAll(cur: string, rest: seq<string>)
    ensures Merge(cur, rest, 0) == [Join(Unlimited(cur, rest), ';')]
    decreases rest
  {
    if rest != [] {
      MergeAll(Cut(cur) + ";" + rest[0], rest[1..]);
      if !Ends(cur) {
        var tail := Unlimited(rest[0], rest[1..]);
        UnlimitedPrepend(cur + ";", rest[0], rest[1..]);
        JoinPrepend(cur + ";", tail, ';');
        assert ([cur] + tail)[1..] == tail;
        assert cur + ";" + Join(tail, ';') == cur + ([';'] + Join(tail, ';'));
      }
    }
  }

  lemma {:induction false} LimitedMerge(cur: string, rest: seq<string>, k: nat)
    ensures Merge(cur, rest, k) == Limited(Unlimited(cur, rest), Some(k))
    decreases rest
  {
    if k == 0 {
      MergeAll(cur, rest);
      assert Unlimited(cur, rest)[0..] == Unlimited(cur, rest);
    } else if rest != [] {
      if Ends(cur) {
        LimitedMerge(Cut(cur) + ";" + rest[0], rest[1..], k);
      } else {
        LimitedMerge(rest[0], rest[1..], k - 1);
        var tail := Unlimited(rest[0], rest[1..]);
        if |tail| >= k {
          assert ([cur] + tail)[..k] == [cur] + tail[..k - 1] && ([cur] + tail)[k..] == tail[k - 1..];
        }
      }
    }
  }

  /** Characters before anything but an escape that spans the border stand for themselves. */
  lemma {:induction false} FieldsPlain(q: string, s: string)
    requires ';' !in q && !(Ends(q) && s != "" && s[0] == ';')
    ensures Fields(q + s) == Prepend(q, Fields(s))
    decreases |q|
  {
    if q == "" {
      assert q + s == s;
      PrependTwice("", "", Fields(s));
    } else {
      var line := q + s;
      assert line[0] == q[0] && line[1..] == q[1..] + s;
      assert |q| > 1 ==> line[1] == q[1];
      FieldsPlain(q[1..], s);
      PrependTwice([q[0]], q[1..], Fields(s));
      assert [q[0]] + q[1..] == q;
    }
  }

  lemma FieldsCut(p: string, s: string)
    requires ';' !in p && !Ends(p)
    ensures Fields(p + ([';'] + s)) == [p] + Fields(s)
  {
    var line := [';'] + s;
    assert line[1..] == s;
    FieldsPlain(p, line);
    assert p + "" == p;
  }

  lemma FieldsEscaped(p: string, s: string)
    requires ';' !in p && Ends(p)
    ensures Fields(p + ([';'] + s)) == Prepend(Cut(p) + ";", Fields(s))
  {
    var line := "\\;" + s;
    assert line[0] == '\\' && line[1] == ';' && line[2..] == s;
    assert p + ([';'] + s) == Cut(p) + line;
    FieldsPlain(Cut(p), line);
    PrependTwice(Cut(p), ";", Fields(s));
  }

  lemma {:induction false} UnlimitedFields(p: string, rest: seq<string>)
    requires ';' !in p && forall i :: 0 <= i < |rest| ==> ';' !in rest[i]
    ensures Unlimited(p, rest) == Fields(Join([p] + rest, ';'))
    decreases rest
  {
    var all := [p] + rest;
    if rest == [] {
      FieldsPlain(p, "");
      assert p + "" == p;
    } else {
      var s := Join(rest, ';');
      assert all[1..] == rest && [rest[0]] + rest[1..] == rest;
      UnlimitedFields(rest[0], rest[1..]);
      if Ends(p) {
        FieldsEscaped(p, s);
        UnlimitedPrepend(Cut(p) + ";", rest[0], rest[1..]);
      } else {
        FieldsCut(p, s);
      }
    }
  }

  lemma UnlimitedIsFields(line: string, parts: seq<string>)
    requires parts == Split(line, ';')
    ensures Unlimited(parts[0], parts[1..]) == Fields(line)
  {
    JoinSplit(line, ';');
    assert [parts[0]] + parts[1..] == parts;
    UnlimitedFields(parts[0], parts[1..]);
  }

  // ----- Round trip -----

  function Escape(field: string): string {
    if field == "" then "" else if field[0] == ';' then "\\;" + Escape(field[1..]) else [field[0]] + Escape(field[1..])
  }

  /** The `;`-join of the escaped fields. */
  function Escaped(fields: seq<string>): string {
    if fields == [] then "" else if |fields| == 1 then Escape(fields[0])
    else Escape(fields[0]) + ([';'] + Escaped(fields[1..]))
  }

  lemma {:induction false} EscapeNoBreak(f: string)
    ensures Ends(Escape(f)) <==> Ends(f)
    ensures f != "" ==> Escape(f) != "" && Escape(f)[0] != ';'
  {
    if f != "" {
      EscapeNoBreak(f[1..]);
      var head := if f[0] == ';' then "\\;" else [f[0]];
      assert Escape(f) == head + Escape(f[1..]);
    }
  }

  lemma EscapedStep(tail: string)
    ensures Fields("\\;" + tail) == Prepend(";", Fields(tail))
  {
    var line := "\\;" + tail;
    assert line[0] == '\\' && line[1] == ';' && line[2..] == tail;
  }

  lemma PlainStep(c: char, tail: string)
    requires c != ';' && !(c == '\\' && tail != "" && tail[0] == ';')
    ensures Fields([c] + tail) == Prepend([c], Fields(tail))
  {
    var line := [c] + tail;
    assert line[0] == c && line[1..] == tail;
    assert |line| > 1 ==> line[1] == tail[0];
  }

  lemma {:induction false} FieldsEscape(f: string, s: string)
    requires !(Ends(f) && s != "" && s[0] == ';')
    ensures Fields(Escape(f) + s) == Prepend(f, Fields(s))
    decreases |f|
  {
    if f == "" {
      assert Escape(f) + s == s;
      PrependTwice("", "", Fields(s));
    } else {
      FieldsEscape(f[1..], s);
      var tail := Escape(f[1..]) + s;
      PrependTwice([f[0]], f[1..], Fields(s));
      assert [f[0]] + f[1..] == f;
      if f[0] == ';' {
        assert Escape(f) + s == "\\;" + tail;
        EscapedStep(tail);
      } else {
        EscapeNoBreak(f[1..]);
        assert Escape(f) + s == [f[0]] + tail;
        assert tail != "" && tail[0] == ';' ==> f[1..] == "";
        PlainStep(f[0], tail);
      }
    }
  }

  lemma FieldsEscapeEnds(f: string, s: string)
    requires Ends(f)
    ensures Fields(Escape(f) + ([';'] + s)) == Prepend(Cut(f) + ";", Fields(s))
  {
    var line := "\\;" + s;
    EscapeCutText(f, s);
    EscapedStep(s);
    assert line[0] == '\\';
    FieldsEscape(Cut(f), line);
    PrependTwice(Cut(f), ";", Fields(s));
  }

  lemma EscapeCutText(f: string, s: string)
    requires Ends(f)
    ensures Escape(f) + ([';'] + s) == Escape(Cut(f)) + ("\\;" + s)
  {
    EscapeCut(f);
    var e := Escape(Cut(f));
    assert e + "\\" + ([';'] + s) == e + ("\\;" + s);
  }

  lemma {:induction false} EscapeCut(f: string)
    requires Ends(f)
    ensures Escape(f) == Escape(Cut(f)) + "\\"
  {
    if |f| > 1 {
      EscapeCut(f[1..]);
      assert Cut(f)[0] == f[0] && Cut(f)[1..] == Cut(f[1..]);
    } else {
      assert f == "\\" && Cut(f) == "";
    }
  }

  /** What splitting the escaped join gives for any fields: a field that ends in a backslash
      swallows the next one. */
  lemma {:induction false} SplitEscaped(f: string, rest: seq<string>)
    ensures Fields(Escaped([f] + rest)) == Unlimited(f, rest)
    decreases rest
  {
    var all := [f] + rest;
    if rest == [] {
      FieldsEscape(f, "");
      assert Escape(f) + "" == Escape(f);
      PrependTwice("", "", Fields(""));
      assert f + "" == f;
    } else {
      var s := Escaped(rest);
      assert all[1..] == rest && [rest[0]] + rest[1..] == rest;
      SplitEscaped(rest[0], rest[1..]);
      if Ends(f) {
        FieldsEscapeEnds(f, s);
        UnlimitedPrepend(Cut(f) + ";", rest[0], rest[1..]);
      } else {
        var line := [';'] + s;
        assert line[1..] == s;
        FieldsEscape(f, line);
        assert f + "" == f;
      }
    }
  }

  /** No field but the last ends in a backslash. */
  predicate Separable(fields: seq<string>) {
    forall i :: 0 <= i < |fields| - 1 ==> !Ends(fields[i])
  }

  lemma {:induction false} UnlimitedSame(f: string, rest: seq<string>)
    ensures Separable([f] + rest) ==> Unlimited(f, rest) == [f] + rest
    ensures !Separable([f] + rest) ==> |Unlimited(f, rest)| < |rest| + 1
    decreases rest
  {
    if rest != [] {
      var all := [f] + rest;
      var tail := [rest[0]] + rest[1..];
      assert tail == rest && all[0] == f;
      assert forall i :: 0 <= i < |tail| ==> all[i + 1] == tail[i];
      if !Ends(f) {
        UnlimitedSame(rest[0], rest[1..]);
        if !Separable(all) {
          var i :| 0 <= i < |all| - 1 && Ends(all[i]);
          assert Ends(tail[i - 1]);
        }
      }
    }
  }

  /** Splitting gives the fields back exactly if none but the last ends in a backslash. */
  lemma RoundTripIff(fields: seq<string>)
    requires fields != []
    ensures Fields(Escaped(fields)) == fields <==> Separable(fields)
  {
    assert [fields[0]] + fields[1..] == fields;
    SplitEscaped(fields[0], fields[1..]);
    UnlimitedSame(fields[0], fields[1..]);
  }
}
