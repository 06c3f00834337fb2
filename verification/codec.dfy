/**
  The batch codec: the numbered prompt a batch is sent as, and the parser
  that turns the numbered reply back into one translation per unit.
 */
module BatchCodec {
  import opened Wrappers
  import opened Strings

  /** `"{k}. {text}\n"` for each text, numbered from `k`. */
  function NumberedLines(texts: seq<string>, k: nat): string {
    if texts == [] then "" else NatToString(k) + ". " + texts[0] + "\n" + NumberedLines(texts[1..], k + 1)
  }

  /** The instruction above the numbered lines of a batch prompt. */
  const BatchHeader: string := "Translate each line below:\n\n"
  /** The instruction below them. */
  const BatchFooter: string := "\nProvide translations in the same numbered format, one per line."

  /** The user content of a batch request. */
  function BatchPrompt(context: string, pre: seq<string>): string {
    context + BatchHeader + NumberedLines(pre, 1) + BatchFooter
  }

  /** Length of the longest prefix of digits. */
  function LeadingDigits(s: string): (k: nat)
    ensures k <= |s|
    ensures forall i :: 0 <= i < k ==> IsDigit(s[i])
    ensures k == |s| || !IsDigit(s[k])
  {
    if s != [] && IsDigit(s[0]) then 1 + LeadingDigits(s[1..]) else 0
  }

  predicate IsNumberSeparator(c: char) {
    c == '.' || c == ')' || c == ':'
  }

  /** Group 1 of `^\d+[.):]\s*(.+)$` on a stripped line. Digits, then one
      separator, then optional white space, then a non-empty rest; on a
      stripped line the greedy `\s*` leaves exactly the rest without its
      leading white space, and no shorter run of digits can be followed by
      a separator. */
  function MatchNumbered(line: string): (r: Option<string>)
    ensures r.Some? ==> r.value != []
  {
    var k := LeadingDigits(line);
    if 0 < k < |line| && IsNumberSeparator(line[k]) then
      var rest := TrimStart(line[k + 1..]);
      if rest != [] then Some(rest) else None
    else None
  }

  /** What one reply line contributes: nothing when blank, the text after
      the number when numbered, otherwise the stripped line itself. */
  function ParseLine(line: string): (r: Option<string>)
    ensures r.Some? ==> r.value != []
    ensures r.None? <==> Strip(line) == []
  {
    var l := Strip(line);
    if l == [] then None else Some(MatchNumbered(l).GetOr(l))
  }

  /** The translations the lines contribute, in order. */
  function ParseLines(lines: seq<string>): (r: seq<string>)
    ensures |r| <= |lines|
    ensures forall i :: 0 <= i < |r| ==> r[i] != []
  {
    if lines == [] then []
    else
      var last := lines[|lines| - 1];
      ParseLines(lines[..|lines| - 1]) + (match ParseLine(last) case Some(t) => [t] case None => [])
  }

  /** The translations recovered from a reply, in reply order. */
  function ParseReply(reply: string): (r: seq<string>)
    ensures forall i :: 0 <= i < |r| ==> r[i] != []
  {
    ParseLines(SplitChar(Strip(reply), '\n'))
  }

  /** Pads a short parse with the preprocessed texts at the same positions
      and truncates a long one: exactly one result per submitted unit. */
  function Fit(parsed: seq<string>, pre: seq<string>): (r: seq<string>)
    ensures |r| == |pre|
    ensures forall i :: 0 <= i < |pre| ==> r[i] == (if i < |parsed| then parsed[i] else pre[i])
  {
    if |parsed| >= |pre| then parsed[..|pre|] else parsed + pre[|parsed|..]
  }

  /** The parsing loop of `translate_batch`: each reply line stripped,
      blank lines skipped, the number removed when the line matches. */
  method ParseReplyLines(reply: string) returns (translations: seq<string>)
    ensures translations == ParseReply(reply)
  {
    var lines := SplitChar(Strip(reply), '\n');
    translations := [];
    var i := 0;
    while i < |lines|
      invariant 0 <= i <= |lines|
      invariant translations == ParseLines(lines[..i])
    {
      ParseLinesStep(lines, i);
      var line := Strip(lines[i]);
      if line != [] {
        var m := MatchNumbered(line);
        translations := translations + [if m.Some? then m.value else line];
      }
      i := i + 1;
    }
    assert lines[..i] == lines;
  }

  lemma ParseLinesStep(lines: seq<string>, i: nat)
    requires i < |lines|
    ensures ParseLines(lines[..i + 1])
      == ParseLines(lines[..i]) + (match ParseLine(lines[i]) case Some(t) => [t] case None => [])
  {
    assert lines[..i + 1][..i] == lines[..i];
  }

  /** The padding loop and the truncation of `translate_batch`. */
  method PadToCount(parsed: seq<string>, pre: seq<string>) returns (translations: seq<string>)
    ensures translations == Fit(parsed, pre)
  {
    translations := parsed;
    while |translations| < |pre|
      invariant |parsed| <= |translations| && translations[..|parsed|] == parsed
      invariant forall i :: |parsed| <= i < |translations| ==> i < |pre| && translations[i] == pre[i]
      decreases |pre| - |translations|
    {
      translations := translations + [pre[|translations|]];
    }
    translations := translations[..|pre|];
    assert forall i :: 0 <= i < |pre| ==> translations[i] == Fit(parsed, pre)[i];
  }

  // ---- the reply format the prompt asks for, and its round trip ----

  function NumberedLine(k: nat, t: string): string {
    NatToString(k) + ". " + t
  }

  function NumberedReplyLines(ts: seq<string>, k: nat): (r: seq<string>)
    ensures |r| == |ts|
  {
    if ts == [] then [] else [NumberedLine(k, ts[0])] + NumberedReplyLines(ts[1..], k + 1)
  }

  /** A reply that follows the numbered format, one translation per line. */
  function NumberedReply(ts: seq<string>): string {
    Join(NumberedReplyLines(ts, 1), "\n")
  }

  /** A translation that can stand on one reply line: non-empty, no line
      break, no white space at either end. */
  predicate OneLine(t: string) {
    t != [] && !IsSpace(t[0]) && !IsSpace(t[|t| - 1]) && '\n' !in t
  }

  lemma {:induction false} LeadingDigitsOf(d: string, rest: string)
    requires forall i :: 0 <= i < |d| ==> IsDigit(d[i])
    requires rest == [] || !IsDigit(rest[0])
    ensures LeadingDigits(d + rest) == |d|
  {
    if d != [] {
      assert (d + rest)[1..] == d[1..] + rest;
      LeadingDigitsOf(d[1..], rest);
    } else {
      assert d + rest == rest;
    }
  }

  lemma NumberedLineFacts(k: nat, t: string)
    requires OneLine(t)
    ensures var l := NumberedLine(k, t);
      l != [] && IsDigit(l[0]) && l[|l| - 1] == t[|t| - 1] && '\n' !in l
  {
    var d := NatToString(k);
    var l := NumberedLine(k, t);
    assert l == d + ". " + t;
    assert l[0] == d[0];
    forall i | 0 <= i < |l| ensures l[i] != '\n' {
      if i < |d| {
        assert l[i] == d[i];
      } else if i >= |d| + 2 {
        assert l[i] == t[i - |d| - 2];
      }
    }
  }

  /** After a run of digits, `". "` and a text that starts with a non-space
      character, the match yields exactly that text. */
  lemma MatchAfterDigits(line: string, k: nat)
    requires LeadingDigits(line) == k && 0 < k && k + 2 < |line|
    requires line[k] == '.' && line[k + 1] == ' ' && !IsSpace(line[k + 2])
    ensures MatchNumbered(line) == Some(line[k + 2..])
  {
    var after := line[k + 1..];
    assert after[1..] == line[k + 2..];
    assert TrimStart(after) == TrimStart(after[1..]) == after[1..];
  }

  lemma MatchNumberedLine(k: nat, t: string)
    requires OneLine(t)
    ensures MatchNumbered(NumberedLine(k, t)) == Some(t)
  {
    var d := NatToString(k);
    var line := NumberedLine(k, t);
    assert line == d + (". " + t);
    LeadingDigitsOf(d, ". " + t);
    assert line[|d| + 2..] == t;
    MatchAfterDigits(line, |d|);
  }

  lemma ParseNumberedLine(line: string, k: nat, t: string)
    requires OneLine(t) && line == NumberedLine(k, t)
    ensures ParseLine(line) == Some(t)
  {
    NumberedLineFacts(k, t);
    StripOfStripped(line);
    MatchNumberedLine(k, t);
  }

  /** Lines that each parse to one text parse to those texts, in order. */
  lemma {:induction false} ParseLinesAll(lines: seq<string>, ts: seq<string>)
    requires |lines| == |ts|
    requires forall i :: 0 <= i < |lines| ==> ParseLine(lines[i]) == Some(ts[i])
    ensures ParseLines(lines) == ts
  {
    if lines != [] {
      var n := |lines|;
      assert ParseLine(lines[n - 1]) == Some(ts[n - 1]);
      ParseLinesAll(lines[..n - 1], ts[..n - 1]);
      assert ts[..n - 1] + [ts[n - 1]] == ts;
    }
  }

  lemma ParseNumberedLines(ts: seq<string>, k: nat)
    requires forall i :: 0 <= i < |ts| ==> OneLine(ts[i])
    ensures ParseLines(NumberedReplyLines(ts, k)) == ts
  {
    var lines := NumberedReplyLines(ts, k);
    forall i | 0 <= i < |lines| ensures ParseLine(lines[i]) == Some(ts[i]) {
      NumberedLineAt(ts, k, i);
      ParseNumberedLine(lines[i], k + i, ts[i]);
    }
    ParseLinesAll(lines, ts);
  }

  lemma {:induction false} NumberedLineAt(ts: seq<string>, k: nat, i: nat)
    requires i < |ts|
    ensures NumberedReplyLines(ts, k)[i] == NumberedLine(k + i, ts[i])
  {
    if i > 0 {
      NumberedLineAt(ts[1..], k + 1, i - 1);
    }
  }

  lemma {:induction false} JoinEnds(parts: seq<string>, sep: string)
    requires |parts| >= 1 && forall i :: 0 <= i < |parts| ==> parts[i] != []
    ensures var j := Join(parts, sep);
      j != [] && j[0] == parts[0][0] && j[|j| - 1] == parts[|parts| - 1][|parts[|parts| - 1]| - 1]
  {
    if |parts| > 1 {
      var rest := parts[1..];
      assert rest[|rest| - 1] == parts[|parts| - 1];
      JoinEnds(rest, sep);
    }
  }

  lemma NumberedLinesAt(ts: seq<string>, k: nat, lines: seq<string>)
    requires forall i :: 0 <= i < |ts| ==> OneLine(ts[i])
    requires lines == NumberedReplyLines(ts, k)
    ensures forall i :: 0 <= i < |lines| ==>
        lines[i] != [] && IsDigit(lines[i][0]) && '\n' !in lines[i] && !IsSpace(lines[i][|lines[i]| - 1])
  {
    forall i | 0 <= i < |lines|
      ensures lines[i] != [] && IsDigit(lines[i][0]) && '\n' !in lines[i] && !IsSpace(lines[i][|lines[i]| - 1])
    {
      NumberedLineAt(ts, k, i);
      NumberedLineFacts(k + i, ts[i]);
    }
  }

  /** A numbered reply has no white space at either end. */
  lemma NumberedReplyStripped(ts: seq<string>)
    requires forall i :: 0 <= i < |ts| ==> OneLine(ts[i])
    ensures Strip(NumberedReply(ts)) == NumberedReply(ts)
  {
    var reply := NumberedReply(ts);
    if ts == [] {
      assert reply == [];
    } else {
      var lines := NumberedReplyLines(ts, 1);
      NumberedLinesAt(ts, 1, lines);
      JoinEnds(lines, "\n");
      StripOfStripped(reply);
    }
  }

  /** A reply written in the requested numbered format parses back to
      exactly the translations it carries, in order. */
  lemma ParseNumberedReply(ts: seq<string>)
    requires forall i :: 0 <= i < |ts| ==> OneLine(ts[i])
    ensures ParseReply(NumberedReply(ts)) == ts
  {
    var lines := NumberedReplyLines(ts, 1);
    var reply := NumberedReply(ts);
    NumberedReplyStripped(ts);
    if ts == [] {
      EmptyReply();
    } else {
      NumberedLinesAt(ts, 1, lines);
      SplitJoin(lines, '\n');
      ParseNumberedLines(ts, 1);
      assert ParseReply(reply) == ParseLines(SplitChar(reply, '\n'));
    }
  }

  /** An empty reply carries no translation. */
  lemma EmptyReply()
    ensures ParseReply("") == []
  {
    assert SplitChar([], '\n') == [""];
  }

  /** The numbered lines of ["Hello", "World", "Foo"]. */
  lemma ThreeNumberedLines()
    ensures NumberedReplyLines(["Hello", "World", "Foo"], 1) == ["1. Hello", "2. World", "3. Foo"]
  {
    var ts := ["Hello", "World", "Foo"];
    assert NatToString(1) == "1" && NatToString(2) == "2" && NatToString(3) == "3";
    assert ts[1..] == ["World", "Foo"] && ts[1..][1..] == ["Foo"] && ts[1..][1..][1..] == [];
    assert NumberedLine(1, "Hello") == "1. Hello" && NumberedLine(2, "World") == "2. World";
    assert NumberedLine(3, "Foo") == "3. Foo";
    assert NumberedReplyLines(["Foo"], 3) == ["3. Foo"];
    assert NumberedReplyLines(["World", "Foo"], 2) == ["2. World", "3. Foo"];
  }

  /** The reply "1. Hello\n2. World\n3. Foo" is the numbered reply of
      ["Hello", "World", "Foo"]. */
  lemma ThreeLineReply()
    ensures NumberedReply(["Hello", "World", "Foo"]) == "1. Hello\n2. World\n3. Foo"
  {
    var lines := ["1. Hello", "2. World", "3. Foo"];
    ThreeNumberedLines();
    assert lines[1..] == ["2. World", "3. Foo"] && lines[1..][1..] == ["3. Foo"];
    assert Join(lines[1..][1..], "\n") == "3. Foo";
    assert Join(lines[1..], "\n") == "2. World\n3. Foo";
    assert Join(lines, "\n") == "1. Hello\n2. World\n3. Foo";
  }

  /** Batch reassembly: for a batch of three units, the reply
      "1. Hello\n2. World\n3. Foo" gives exactly ["Hello", "World", "Foo"],
      in the order the units were sent, whatever their substitutions. */
  lemma ThreeLineExample(pre: seq<string>)
    requires |pre| == 3
    ensures Fit(ParseReply("1. Hello\n2. World\n3. Foo"), pre) == ["Hello", "World", "Foo"]
  {
    var ts := ["Hello", "World", "Foo"];
    ThreeLineReply();
    assert OneLine(ts[0]) && OneLine(ts[1]) && OneLine(ts[2]);
    ParseNumberedReply(ts);
  }
}
