/** Reading commands from the pipe of `shinken/external_command.py`: lines that a read may
    cut are put together again over the following reads. */
module CommandPipes {
  import opened Text

  const READ_SIZE := 8096

  function NonEmpty(parts: seq<string>): seq<string> {
    if parts == [] then [] else (if parts[0] == "" then [] else [parts[0]]) + NonEmpty(parts[1..])
  }

  lemma OnePart(x: string)
    ensures NonEmpty([x]) == if x == "" then [] else [x]
  {
    assert [x][1..] == [];
  }

  /** The commands of a stream: its lines that are not empty. */
  function Lines(s: string): seq<string> {
    NonEmpty(Split(s, '\n'))
  }

  // ----- One read -----

  /** The read filled the buffer and stopped inside a line. */
  predicate Fragment(buf: string) {
    |buf| == READ_SIZE && buf[READ_SIZE - 1] != '\n'
  }

  function Commands(pending: string, buf: string): seq<string> {
    var parts := Split(pending + buf, '\n');
    NonEmpty(if Fragment(buf) then parts[..|parts| - 1] else parts)
  }

  function Rest(pending: string, buf: string): string {
    var parts := Split(pending + buf, '\n');
    if Fragment(buf) then parts[|parts| - 1] else ""
  }

  class CommandPipe {
    var cmdFragments: string
    var closed: bool

    constructor ()
      ensures cmdFragments == "" && !closed
    {
      cmdFragments := "";
      closed := false;
    }

    /** `buf` is what the read of at most 8096 characters returned. */
    method Get(buf: string) returns (r: seq<string>)
      requires |buf| <= 8096
      modifies this
      ensures r == Commands(old(cmdFragments), buf) && cmdFragments == Rest(old(cmdFragments), buf)
      ensures cmdFragments != "" <==> |buf| == 8096 && buf[8095] != '\n'
      ensures closed == (old(closed) || old(cmdFragments) + buf == "")
    {
      var fullbuf := |buf| == READ_SIZE;
      var all := cmdFragments + buf;
      var parts := Split(all, '\n');
      cmdFragments := "";
      r := [];
      if fullbuf && all[|all| - 1] != '\n' {
        r := NonEmpty(parts[..|parts| - 1]);
        cmdFragments := parts[|parts| - 1];
        LastPart(all);
      } else if |all| != 0 {
        r := NonEmpty(parts);
      } else {
        closed := true;
        OnePart("");
      }
    }
  }

  // ----- A run of reads -----

  function Stream(chunks: seq<string>): string {
    if chunks == [] then "" else chunks[0] + Stream(chunks[1..])
  }

  /** The commands that the reads of a run return. */
  function Emitted(pending: string, chunks: seq<string>): seq<string>
    decreases |chunks|
  {
    if chunks == [] then [] else Commands(pending, chunks[0]) + Emitted(Rest(pending, chunks[0]), chunks[1..])
  }

  /** The text that a run leaves pending. */
  function Pending(pending: string, chunks: seq<string>): string
    decreases |chunks|
  {
    if chunks == [] then pending else Pending(Rest(pending, chunks[0]), chunks[1..])
  }

  /** The command that pending text will begin, if any. */
  function Begun(pending: string): seq<string> {
    if pending == "" then [] else [pending]
  }

  /** Text that ends inside a line which the stream goes on with. */
  predicate Torn(text: string, more: string) {
    text != "" && text[|text| - 1] != '\n' && more != "" && more[0] != '\n'
  }

  /** How many reads came back short in the middle of a line. */
  function Tears(pending: string, chunks: seq<string>): nat
    decreases |chunks|
  {
    if chunks == [] then 0
    else
      (if !Fragment(chunks[0]) && Torn(pending + chunks[0], Stream(chunks[1..])) then 1 else 0)
      + Tears(Rest(pending, chunks[0]), chunks[1..])
  }

  /** Every read that does not fill the buffer leaves it empty or at the end of a line. */
  predicate Whole(pending: string, chunks: seq<string>)
    decreases |chunks|
  {
    chunks != [] ==>
      && (|chunks[0]| < READ_SIZE ==> pending + chunks[0] == "" || (pending + chunks[0])[|pending + chunks[0]| - 1] == '\n')
      && Whole(Rest(pending, chunks[0]), chunks[1..])
  }

  // ----- Lines of joined text -----

  lemma {:induction false} NonEmptyConcat(a: seq<string>, b: seq<string>)
    ensures NonEmpty(a + b) == NonEmpty(a) + NonEmpty(b)
    decreases |a|
  {
    if a == [] {
      assert a + b == b;
    } else {
      assert (a + b)[0] == a[0] && (a + b)[1..] == a[1..] + b;
      NonEmptyConcat(a[1..], b);
    }
  }

  /** The parts `p` of a text once `b` follows: only the last one changes. */
  function Continued(p: seq<string>, b: string): (r: seq<string>)
    requires p != []
    ensures r != []
  {
    p[..|p| - 1] + Split(p[|p| - 1] + b, '\n')
  }

  lemma {:induction false} SplitConcat(a: string, b: string)
    ensures Split(a + b, '\n') == Continued(Split(a, '\n'), b)
    decreases |a|
  {
    if a == "" {
      assert a + b == b && "" + b == b;
    } else {
      assert (a + b)[0] == a[0] && (a + b)[1..] == a[1..] + b;
      SplitConcat(a[1..], b);
      if a[0] == '\n' {
        ContinuedBreak(Split(a[1..], '\n'), b);
      } else {
        ContinuedChar(a[0], Split(a[1..], '\n'), b);
      }
    }
  }

  lemma ContinuedBreak(q: seq<string>, b: string)
    requires q != []
    ensures [""] + Continued(q, b) == Continued([""] + q, b)
  {
    var p := [""] + q;
    assert p[..|p| - 1] == [""] + q[..|q| - 1];
  }

  lemma ContinuedChar(c: char, q: seq<string>, b: string)
    requires q != [] && c != '\n'
    ensures Prepend([c], Continued(q, b)) == Continued(Prepend([c], q), b)
  {
    var p := Prepend([c], q);
    var text := q[|q| - 1] + b;
    if |q| == 1 {
      assert p[0] + b == [c] + text && ([c] + text)[1..] == text;
    } else {
      assert p[..|p| - 1] == [p[0]] + q[1..|q| - 1];
      assert q[..|q| - 1] == [q[0]] + q[1..|q| - 1];
      AppendPrepend([c], q[0], q[1..|q| - 1], Split(text, '\n'));
    }
  }

  lemma AppendPrepend(x: string, head: string, mid: seq<string>, tail: seq<string>)
    ensures Prepend(x, [head] + mid + tail) == [x + head] + mid + tail
  {
  }

  lemma {:induction false} LastPart(s: string)
    ensures var p := Split(s, '\n');
            p[|p| - 1] == "" <==> s == "" || s[|s| - 1] == '\n'
  {
    if s != "" {
      LastPart(s[1..]);
      var q := Split(s[1..], '\n');
      if |s| == 1 {
        assert s[1..] == "";
      } else {
        assert s[|s| - 1] == s[1..][|s| - 2];
        assert s[0] != '\n' && |q| == 1 ==> Prepend([s[0]], q)[0] != "";
      }
    }
  }

  lemma FirstPart(s: string)
    ensures Split(s, '\n')[0] == "" <==> s == "" || s[0] == '\n'
  {
  }

  /** Following text either starts new lines or goes on with the last one. */
  lemma LinesConcat(a: string, b: string)
    ensures !Torn(a, b) ==> Lines(a + b) == Lines(a) + Lines(b)
    ensures Torn(a, b) ==> |Lines(a + b)| == |Lines(a)| + |Lines(b)| - 1
  {
    var p := Split(a, '\n');
    var init, last := p[..|p| - 1], p[|p| - 1];
    assert p == init + [last];
    LinesSplit(a, b, init, last);
    LastPart(a);
    FirstPart(b);
    GlueAfter(NonEmpty(init), last, b);
  }

  lemma GlueAfter(before: seq<string>, x: string, b: string)
    requires '\n' !in x
    ensures x == "" || b == "" || Split(b, '\n')[0] == "" ==>
              before + Lines(x + b) == before + (if x == "" then [] else [x]) + Lines(b)
    ensures x != "" && b != "" && Split(b, '\n')[0] != "" ==> |before + Lines(x + b)| == |before + [x]| + |Lines(b)| - 1
  {
    Glue(x, b);
    var one := if x == "" then [] else [x];
    assert before + (one + Lines(b)) == before + one + Lines(b);
  }

  lemma LinesSplit(a: string, b: string, init: seq<string>, last: string)
    requires Split(a, '\n') == init + [last]
    ensures Lines(a + b) == NonEmpty(init) + Lines(last + b)
    ensures Lines(a) == NonEmpty(init) + if last == "" then [] else [last]
  {
    SplitConcat(a, b);
    NonEmptyConcat(init, Split(last + b, '\n'));
    NonEmptyConcat(init, [last]);
    OnePart(last);
  }

  lemma {:induction false} SplitPlainPrefix(x: string, b: string)
    requires '\n' !in x
    ensures Split(x + b, '\n') == Prepend(x, Split(b, '\n'))
  {
    if x == "" {
      assert x + b == b;
      PrependTwice("", "", Split(b, '\n'));
    } else {
      assert (x + b)[0] == x[0] && (x + b)[1..] == x[1..] + b;
      SplitPlainPrefix(x[1..], b);
      PrependTwice([x[0]], x[1..], Split(b, '\n'));
      assert [x[0]] + x[1..] == x;
    }
  }

  /** The lines of a started line followed by more text. */
  lemma Glue(x: string, b: string)
    requires '\n' !in x
    ensures x == "" ==> Lines(x + b) == Lines(b)
    ensures x != "" && Split(b, '\n')[0] == "" ==> Lines(x + b) == [x] + Lines(b)
    ensures x != "" && Split(b, '\n')[0] != "" ==> |Lines(x + b)| == |Lines(b)|
  {
    SplitPlainPrefix(x, b);
    PrependTwice("", "", Split(b, '\n'));
    assert x + "" == x;
  }

  // ----- Reassembly -----

  lemma UnbrokenLines(x: string)
    requires '\n' !in x
    ensures Lines(x) == Begun(x)
  {
    SplitPlainPrefix(x, "");
    assert x + "" == x;
    OnePart(x);
  }

  lemma AppendRuns(a: seq<string>, b: seq<string>, c: seq<string>)
    ensures (a + b) + c == a + (b + c)
  {
  }

  lemma {:induction false} StreamLines(pending: string, chunks: seq<string>)
    requires '\n' !in pending
    ensures var all := Emitted(pending, chunks) + Begun(Pending(pending, chunks));
            && |all| == |Lines(pending + Stream(chunks))| + Tears(pending, chunks)
            && (Tears(pending, chunks) == 0 ==> all == Lines(pending + Stream(chunks)))
    decreases |chunks|
  {
    if chunks == [] {
      assert pending + Stream(chunks) == pending;
      UnbrokenLines(pending);
    } else {
      var all, more := pending + chunks[0], Stream(chunks[1..]);
      var rest := Rest(pending, chunks[0]);
      assert pending + Stream(chunks) == all + more;
      StreamLines(rest, chunks[1..]);
      AppendRuns(Commands(pending, chunks[0]), Emitted(rest, chunks[1..]), Begun(Pending(rest, chunks[1..])));
      if Fragment(chunks[0]) {
        FragmentLines(pending, chunks[0], more);
      } else {
        assert rest + more == more;
        LinesConcat(all, more);
      }
    }
  }

  lemma FragmentLines(pending: string, buf: string, more: string)
    requires Fragment(buf)
    ensures Lines(pending + buf + more) == Commands(pending, buf) + Lines(Rest(pending, buf) + more)
  {
    var p := Split(pending + buf, '\n');
    SplitConcat(pending + buf, more);
    NonEmptyConcat(p[..|p| - 1], Split(p[|p| - 1] + more, '\n'));
  }

  /** However the stream is cut, the commands returned and the line still pending are its
      non-empty lines exactly if no read came back short in the middle of a line; each such
      read adds one command. */
  lemma Reassembly(chunks: seq<string>)
    ensures var all := Emitted("", chunks) + Begun(Pending("", chunks));
            && (all == Lines(Stream(chunks)) <==> Tears("", chunks) == 0)
            && |all| == |Lines(Stream(chunks))| + Tears("", chunks)
  {
    StreamLines("", chunks);
    assert "" + Stream(chunks) == Stream(chunks);
  }

  /** A line is pending exactly if the last read filled the buffer and stopped inside it. */
  lemma {:induction false} PendingIff(pending: string, chunks: seq<string>)
    requires chunks != []
    ensures Pending(pending, chunks) != "" <==> Fragment(chunks[|chunks| - 1])
    decreases |chunks|
  {
    if |chunks| == 1 {
      var all := pending + chunks[0];
      LastPart(all);
      assert chunks[0] != "" ==> all[|all| - 1] == chunks[0][|chunks[0]| - 1];
    } else {
      assert chunks[1..][|chunks| - 2] == chunks[|chunks| - 1];
      PendingIff(Rest(pending, chunks[0]), chunks[1..]);
    }
  }

  /** A run whose short reads end at line ends tears no line. */
  lemma {:induction false} WholeNotTorn(pending: string, chunks: seq<string>)
    requires Whole(pending, chunks) && forall i :: 0 <= i < |chunks| ==> |chunks[i]| <= READ_SIZE
    ensures Tears(pending, chunks) == 0
    decreases |chunks|
  {
    if chunks != [] {
      var all := pending + chunks[0];
      assert |chunks[0]| == READ_SIZE ==> all[|all| - 1] == chunks[0][READ_SIZE - 1];
      WholeNotTorn(Rest(pending, chunks[0]), chunks[1..]);
    }
  }
}
