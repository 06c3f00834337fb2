/**
  One file's record set: an ordered sequence of blocks, each with a speaker
  name pair, a line text pair and its choices. A translation unit is
  addressed by a `Slot`: the target name of a block, the target text of a
  block, or the target text of one of its choices.
 */
module Records {
  import opened Strings

  datatype Choice = Choice(jpText: string, enText: string)

  datatype Block = Block(
    blockIdx: int,
    jpName: string,
    enName: string,
    jpText: string,
    enText: string,
    choices: seq<Choice>)

  /** Blocks and choices are counted from 0, in document order. */
  datatype Slot = NameSlot(block: nat) | TextSlot(block: nat) | ChoiceSlot(block: nat, choice: nat)

  predicate ValidSlot(bs: seq<Block>, s: Slot) {
    s.block < |bs| && (s.ChoiceSlot? ==> s.choice < |bs[s.block].choices|)
  }

  /** The source-language text a slot translates. */
  function SourceText(bs: seq<Block>, s: Slot): string
    requires ValidSlot(bs, s)
  {
    match s
    case NameSlot(b) => bs[b].jpName
    case TextSlot(b) => bs[b].jpText
    case ChoiceSlot(b, c) => bs[b].choices[c].jpText
  }

  /** The target-language text a slot holds. */
  function TargetText(bs: seq<Block>, s: Slot): string
    requires ValidSlot(bs, s)
  {
    match s
    case NameSlot(b) => bs[b].enName
    case TextSlot(b) => bs[b].enText
    case ChoiceSlot(b, c) => bs[b].choices[c].enText
  }

  /** Same blocks with the same source texts, block indices and number of
      choices: only target texts may differ. */
  predicate SameBlockShape(x: Block, y: Block) {
    && x.blockIdx == y.blockIdx && x.jpName == y.jpName && x.jpText == y.jpText
    && |x.choices| == |y.choices|
    && forall j :: 0 <= j < |x.choices| ==> x.choices[j].jpText == y.choices[j].jpText
  }

  predicate SameShape(a: seq<Block>, b: seq<Block>) {
    |a| == |b| && forall i :: 0 <= i < |a| ==> SameBlockShape(a[i], b[i])
  }

  lemma SameShapeTrans(a: seq<Block>, b: seq<Block>, c: seq<Block>)
    requires SameShape(a, b) && SameShape(b, c)
    ensures SameShape(a, c)
  {
  }

  lemma SameShapeSlots(a: seq<Block>, b: seq<Block>, s: Slot)
    requires SameShape(a, b)
    ensures ValidSlot(a, s) <==> ValidSlot(b, s)
    ensures ValidSlot(a, s) ==> SourceText(a, s) == SourceText(b, s)
  {
  }

  /** Writes `v` into one slot; every other slot and every source field keeps
      its value. */
  function SetTarget(bs: seq<Block>, s: Slot, v: string): (r: seq<Block>)
    requires ValidSlot(bs, s)
    ensures SameShape(bs, r)
    ensures ValidSlot(r, s) && TargetText(r, s) == v
    ensures forall t :: ValidSlot(bs, t) && t != s ==> TargetText(r, t) == TargetText(bs, t)
  {
    var b := bs[s.block];
    match s
    case NameSlot(i) => bs[i := b.(enName := v)]
    case TextSlot(i) => bs[i := b.(enText := v)]
    case ChoiceSlot(i, c) => bs[i := b.(choices := b.choices[c := b.choices[c].(enText := v)])]
  }

  /** Replacing the first element of `s[c..]` after a prefix `a`. */
  lemma SpliceAt<T>(a: seq<T>, s: seq<T>, c: nat, x: T)
    requires c < |s|
    ensures (a + s[c..])[|a| := x] == a + [x] + s[c + 1..]
    ensures x == s[c] ==> a + s[c..] == a + [x] + s[c + 1..]
  {
    assert s[c..] == [s[c]] + s[c + 1..];
  }

  /** Total number of choices over all blocks. */
  function TotalChoices(bs: seq<Block>): nat {
    if bs == [] then 0 else TotalChoices(bs[..|bs| - 1]) + |bs[|bs| - 1].choices|
  }

  /** The key that names choice `c` (from 0) of block `blockIdx` on a QC sheet:
      `"{blockIdx}-C{c+1}"`. */
  function ChoiceKey(blockIdx: int, c: nat): string {
    IntToString(blockIdx) + "-C" + NatToString(c + 1)
  }

  /** A choice key names exactly one (block index, choice) pair: the only
      'C' in a key is the one after the block index. */
  lemma ChoiceKeyInjective(b1: int, c1: nat, b2: int, c2: nat)
    requires ChoiceKey(b1, c1) == ChoiceKey(b2, c2)
    ensures b1 == b2 && c1 == c2
  {
    var a1, a2 := IntToString(b1), IntToString(b2);
    var n1, n2 := NatToString(c1 + 1), NatToString(c2 + 1);
    var k := ChoiceKey(b1, c1);
    assert k == a1 + "-C" + n1 && k == a2 + "-C" + n2;
    assert k[|a1| + 1] == 'C' && k[|a2| + 1] == 'C';
    assert |a1| == |a2|;
    assert a1 == k[..|a1|] == a2;
    assert n1 == k[|a1| + 2..] == n2;
    IntToStringInjective(b1, b2);
    IntToStringInjective(c1 + 1, c2 + 1);
  }

  /** The `data` dictionary of one file, changed in place. */
  class RecordSet {
    var blocks: seq<Block>

    constructor (blocks: seq<Block>)
      ensures this.blocks == blocks
    {
      this.blocks := blocks;
    }

    /** `obj[field] = v` for the object and field a slot names. */
    method Write(s: Slot, v: string)
      requires ValidSlot(blocks, s)
      modifies this
      ensures blocks == SetTarget(old(blocks), s, v)
    {
      blocks := SetTarget(blocks, s, v);
    }
  }
}

/** The script detector: whether a text still holds Japanese characters. */
module Script {
  /** A Hiragana, Katakana or CJK Unified Ideograph code point. */
  predicate IsJapaneseChar(c: char) {
    0x3040 <= c as int <= 0x309F || 0x30A0 <= c as int <= 0x30FF || 0x4E00 <= c as int <= 0x9FFF
  }

  /** True exactly when some character lies in one of the three ranges;
      the empty text gives false. */
  function ContainsJapanese(text: string): (r: bool)
    ensures r <==> exists i :: 0 <= i < |text| && IsJapaneseChar(text[i])
    ensures text == [] ==> !r
  {
    if text == [] then false
    else if IsJapaneseChar(text[0]) then true
    else
      var rest := ContainsJapanese(text[1..]);
      assert rest ==> exists i :: 0 <= i < |text| && IsJapaneseChar(text[i]) by {
        if rest {
          var i :| 0 <= i < |text| - 1 && IsJapaneseChar(text[1..][i]);
          assert IsJapaneseChar(text[i + 1]);
        }
      }
      assert !rest ==> forall i :: 0 <= i < |text| ==> !IsJapaneseChar(text[i]) by {
        if !rest {
          forall i | 0 <= i < |text| ensures !IsJapaneseChar(text[i]) {
            if i > 0 { assert text[i] == text[1..][i - 1]; }
          }
        }
      }
      rest
  }

  /** Hiragana "あ" is flagged, "Hello" is not. */
  lemma ValidityExamples()
    ensures ContainsJapanese("\U{3042}")
    ensures !ContainsJapanese("Hello")
  {
    assert IsJapaneseChar("\U{3042}"[0]);
  }

  /** `contains_japanese`: a scan that stops at the first Japanese
      character. */
  method ScanForJapanese(text: string) returns (found: bool)
    ensures found == ContainsJapanese(text)
  {
    var i := 0;
    while i < |text|
      invariant 0 <= i <= |text|
      invariant forall j :: 0 <= j < i ==> !IsJapaneseChar(text[j])
    {
      if IsJapaneseChar(text[i]) {
        return true;
      }
      i := i + 1;
    }
    return false;
  }

  /** Whether any text of a list still holds Japanese. */
  predicate AnyJapanese(ts: seq<string>) {
    exists i :: 0 <= i < |ts| && ContainsJapanese(ts[i])
  }
}

/** Dictionary pre-substitution: every term replaced in dictionary order. */
module Dictionary {
  import opened Strings

  /** The dictionary in its iteration order: (source term, target term). */
  type Terms = seq<(string, string)>

  function Preprocess(text: string, terms: Terms): string
    decreases terms, 1
  {
    if terms == [] then text else PreprocessFirst(text, terms)
  }

  /** The first entry's replacement, then the rest of the dictionary. */
  function PreprocessFirst(text: string, terms: Terms): string
    requires terms != []
    decreases terms, 0
  {
    Preprocess(Replace(text, terms[0].0, terms[0].1), terms[1..])
  }

  /** `preprocess_text`: one replacement per dictionary entry, in order. */
  method PreprocessText(text: string, terms: Terms) returns (r: string)
    ensures r == Preprocess(text, terms)
  {
    r := text;
    var i := 0;
    while i < |terms|
      invariant 0 <= i <= |terms|
      invariant Preprocess(r, terms[i..]) == Preprocess(text, terms)
    {
      assert terms[i..][1..] == terms[i + 1..];
      assert Preprocess(r, terms[i..]) == PreprocessFirst(r, terms[i..]);
      r := Replace(r, terms[i].0, terms[i].1);
      i := i + 1;
    }
  }

  /** A text in which no (non-empty) dictionary term occurs is passed on as it
      is. */
  lemma {:induction false} PreprocessNoTerm(text: string, terms: Terms)
    requires forall k :: 0 <= k < |terms| ==> terms[k].0 != [] && !Occurs(text, terms[k].0)
    ensures Preprocess(text, terms) == text
  {
    if terms != [] {
      assert Preprocess(text, terms) == PreprocessFirst(text, terms);
      ReplaceAbsent(text, terms[0].0, terms[0].1);
      PreprocessNoTerm(text, terms[1..]);
    }
  }

  /** Entries that map a term to itself change nothing. */
  lemma {:induction false} PreprocessIdentityTerms(text: string, terms: Terms)
    requires forall k :: 0 <= k < |terms| ==> terms[k].0 == terms[k].1
    ensures Preprocess(text, terms) == text
  {
    if terms != [] {
      assert Preprocess(text, terms) == PreprocessFirst(text, terms);
      ReplaceBySelf(text, terms[0].0);
      PreprocessIdentityTerms(text, terms[1..]);
    }
  }
}

/** The bounded FIFO of recently translated blocks and its prompt preamble. */
module Context {
  import opened Strings

  datatype ContextEntry = ContextEntry(jpName: string, jpText: string, enName: string, enText: string)

  /** The window after `add_to_context(e)` with capacity `cap`. */
  function Push(cap: int, window: seq<ContextEntry>, e: ContextEntry): seq<ContextEntry> {
    if cap <= 0 then window
    else
      var w := window + [e];
      if |w| > cap then w[1..] else w
  }

  /** A window of capacity zero or less never changes; otherwise the new
      entry is last, after a suffix of the old window, the capacity is never
      exceeded, and a full window loses its oldest entry. */
  lemma PushFacts(cap: int, window: seq<ContextEntry>, e: ContextEntry)
    ensures var r := Push(cap, window, e);
      && (cap <= 0 ==> r == window)
      && (cap > 0 ==> |r| >= 1 && r[|r| - 1] == e && |r| - 1 <= |window| && r[..|r| - 1] == window[|window| - (|r| - 1)..])
      && (cap > 0 && |window| <= cap ==> |r| <= cap)
      && (cap > 0 && |window| == cap ==> r == window[1..] + [e])
  {
    var r := Push(cap, window, e);
    if cap > 0 {
      if |window| + 1 > cap {
        assert r == (window + [e])[1..];
        assert r[..|r| - 1] == window[1..];
      } else {
        assert r[..|r| - 1] == window;
      }
    }
  }

  function PushAll(cap: int, window: seq<ContextEntry>, es: seq<ContextEntry>): seq<ContextEntry> {
    if es == [] then window else Push(cap, PushAll(cap, window, es[..|es| - 1]), es[|es| - 1])
  }

  /** FIFO: starting from an empty window of capacity `cap > 0`, the window
      holds the last `min(cap, n)` of the `n` entries added, in order. */
  lemma {:induction false} PushAllKeepsLast(cap: int, es: seq<ContextEntry>)
    requires cap > 0
    ensures PushAll(cap, [], es) == es[|es| - Min(cap, |es|)..]
  {
    if es != [] {
      var init := es[..|es| - 1];
      var w := PushAll(cap, [], init);
      assert PushAll(cap, [], es) == Push(cap, w, es[|es| - 1]);
      PushAllKeepsLast(cap, init);
      PushOntoLast(cap, es);
    }
  }

  /** One step of the FIFO lemma: pushing the last entry onto the window of
      the earlier ones. */
  lemma PushOntoLast(cap: int, es: seq<ContextEntry>)
    requires cap > 0 && es != []
    ensures var init := es[..|es| - 1];
      Push(cap, init[|init| - Min(cap, |init|)..], es[|es| - 1]) == es[|es| - Min(cap, |es|)..]
  {
    var n := |es|;
    var init, e := es[..n - 1], es[n - 1];
    var w := init[n - 1 - Min(cap, n - 1)..];
    if n - 1 < cap {
      assert w == init;
      assert init + [e] == es;
    } else {
      assert |w| == cap;
      PushFacts(cap, w, e);
      var tail := es[n - cap..];
      assert w[1..] == tail[..cap - 1];
      assert tail == tail[..cap - 1] + [e];
      assert Push(cap, w, e) == w[1..] + [e];
    }
  }

  /** With capacity 2, adding A, B, C leaves [B, C]. */
  lemma FifoExample(a: ContextEntry, b: ContextEntry, c: ContextEntry)
    ensures PushAll(2, [], [a, b, c]) == [b, c]
  {
    PushAllKeepsLast(2, [a, b, c]);
  }

  function EntryLine(e: ContextEntry): string {
    if e.enText != [] then e.jpName + ": " + e.jpText + "\n[Translation]: " + e.enName + ": " + e.enText
    else e.jpName + ": " + e.jpText
  }

  function EntryLines(window: seq<ContextEntry>): (r: seq<string>)
    ensures |r| == |window| && forall i :: 0 <= i < |window| ==> r[i] == EntryLine(window[i])
  {
    seq(|window|, i requires 0 <= i < |window| => EntryLine(window[i]))
  }

  /** `build_context_string`: the preamble is empty exactly when the window
      is, which is what decides whether a single-unit request carries it. */
  function RenderContext(window: seq<ContextEntry>): (r: string)
    ensures r == [] <==> window == []
  {
    if window == [] then ""
    else "\n\nPrevious dialogue for context:\n" + Join(EntryLines(window), "\n") + "\n\nNow translate:"
  }

  /** `build_context_string`: one part per entry, joined by line breaks. */
  method BuildContextString(window: seq<ContextEntry>) returns (r: string)
    ensures r == RenderContext(window)
  {
    if window == [] {
      return "";
    }
    var parts: seq<string> := [];
    var i := 0;
    while i < |window|
      invariant 0 <= i <= |window|
      invariant parts == EntryLines(window[..i])
    {
      parts := parts + [EntryLine(window[i])];
      i := i + 1;
    }
    assert window[..i] == window;
    r := "\n\nPrevious dialogue for context:\n" + Join(parts, "\n") + "\n\nNow translate:";
  }
}
