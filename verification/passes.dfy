/**
  The units the batched driver collects from a record set, the batches it
  sends them in, and how translations are written back.
 */
module Passes {
  import opened Strings
  import opened Records
  import opened Script

  /** One unit to translate: where its translation goes and its source text. */
  datatype Item = Item(slot: Slot, source: string)

  /** Whether the batched driver collects a slot: its target is empty and its
      source is non-empty (for a name, not blank either). */
  predicate Pending(bs: seq<Block>, s: Slot)
    requires ValidSlot(bs, s)
  {
    match s
    case NameSlot(b) => NameWanted(bs[b])
    case TextSlot(b) => TextWanted(bs[b])
    case ChoiceSlot(b, c) => ChoiceWanted(bs[b].choices[c])
  }

  predicate NameWanted(b: Block) {
    b.enName == [] && !Blank(b.jpName)
  }

  /** Empty or white space only: exactly the texts `Strip` empties (see
      `Strings.Strip`). */
  predicate Blank(s: string) {
    forall i :: 0 <= i < |s| ==> IsSpace(s[i])
  }

  predicate TextWanted(b: Block) {
    b.enText == [] && b.jpText != []
  }

  predicate ChoiceWanted(c: Choice) {
    c.enText == [] && c.jpText != []
  }

  /** A slot of a prefix of the blocks is the same slot of the whole. */
  lemma PrefixSlot(bs: seq<Block>, n: nat, s: Slot)
    requires n <= |bs| && ValidSlot(bs[..n], s)
    ensures ValidSlot(bs, s) && SourceText(bs, s) == SourceText(bs[..n], s)
    ensures Pending(bs, s) == Pending(bs[..n], s)
  {
    assert bs[..n][s.block] == bs[s.block];
  }

  lemma CollectedPrefix(bs: seq<Block>, n: nat, items: seq<Item>)
    requires n <= |bs| && Collected(bs[..n], items)
    ensures Collected(bs, items)
  {
    forall k | 0 <= k < |items|
      ensures ValidSlot(bs, items[k].slot) && Pending(bs, items[k].slot)
      ensures items[k].source == SourceText(bs, items[k].slot)
    {
      PrefixSlot(bs, n, items[k].slot);
    }
  }

  /** Where an item sits in the collection order: names, then texts, then
      choices, each group in document order. */
  function Kind(s: Slot): nat {
    match s
    case NameSlot(_) => 0
    case TextSlot(_) => 1
    case ChoiceSlot(_, _) => 2
  }

  predicate Precedes(s: Slot, t: Slot) {
    || Kind(s) < Kind(t)
    || (Kind(s) == Kind(t) && s.block < t.block)
    || (Kind(s) == Kind(t) && s.block == t.block && s.ChoiceSlot? && t.ChoiceSlot? && s.choice < t.choice)
  }

  /** Every item names a valid, pending slot of `bs` and carries its source. */
  predicate Collected(bs: seq<Block>, items: seq<Item>) {
    forall k :: 0 <= k < |items| ==>
      && ValidSlot(bs, items[k].slot)
      && Pending(bs, items[k].slot)
      && items[k].source == SourceText(bs, items[k].slot)
  }

  predicate Ordered(items: seq<Item>) {
    forall j, k :: 0 <= j < k < |items| ==> Precedes(items[j].slot, items[k].slot)
  }

  lemma CollectedAppend(bs: seq<Block>, a: seq<Item>, b: seq<Item>)
    requires Collected(bs, a) && Collected(bs, b)
    ensures Collected(bs, a + b)
  {
    assert forall k :: 0 <= k < |a + b| ==> (a + b)[k] == if k < |a| then a[k] else b[k - |a|];
  }

  lemma OrderedAppend(a: seq<Item>, b: seq<Item>)
    requires Ordered(a) && Ordered(b)
    requires forall j, k :: 0 <= j < |a| && 0 <= k < |b| ==> Precedes(a[j].slot, b[k].slot)
    ensures Ordered(a + b)
  {
    var ab := a + b;
    forall j, k | 0 <= j < k < |ab| ensures Precedes(ab[j].slot, ab[k].slot) {
      if k < |a| {
        assert ab[j] == a[j] && ab[k] == a[k];
      } else if j < |a| {
        assert ab[j] == a[j] && ab[k] == b[k - |a|];
      } else {
        assert ab[j] == b[j - |a|] && ab[k] == b[k - |a|];
      }
    }
  }

  function NameItems(bs: seq<Block>): (r: seq<Item>)
    ensures Collected(bs, r) && Ordered(r)
    ensures forall k :: 0 <= k < |r| ==> r[k].slot.NameSlot? && r[k].slot.block < |bs|
  {
    if bs == [] then []
    else
      var n := |bs| - 1;
      var init := NameItems(bs[..n]);
      var last := if NameWanted(bs[n]) then [Item(NameSlot(n), bs[n].jpName)] else [];
      CollectedPrefix(bs, n, init);
      assert Collected(bs, last);
      OrderedAppend(init, last);
      CollectedAppend(bs, init, last);
      init + last
  }

  function TextItems(bs: seq<Block>): (r: seq<Item>)
    ensures Collected(bs, r) && Ordered(r)
    ensures forall k :: 0 <= k < |r| ==> r[k].slot.TextSlot? && r[k].slot.block < |bs|
  {
    if bs == [] then []
    else
      var n := |bs| - 1;
      var init := TextItems(bs[..n]);
      var last := if TextWanted(bs[n]) then [Item(TextSlot(n), bs[n].jpText)] else [];
      CollectedPrefix(bs, n, init);
      assert Collected(bs, last);
      OrderedAppend(init, last);
      CollectedAppend(bs, init, last);
      init + last
  }

  /** The pending choices of block `b`, whose choices are `cs`. */
  function BlockChoiceItems(bs: seq<Block>, b: nat, cs: seq<Choice>): (r: seq<Item>)
    requires b < |bs| && |cs| <= |bs[b].choices|
    requires forall c :: 0 <= c < |cs| ==> cs[c] == bs[b].choices[c]
    ensures Collected(bs, r) && Ordered(r)
    ensures forall k :: 0 <= k < |r| ==> r[k].slot.ChoiceSlot? && r[k].slot.block == b && r[k].slot.choice < |cs|
  {
    if cs == [] then []
    else
      var m := |cs| - 1;
      var init := BlockChoiceItems(bs, b, cs[..m]);
      var last := if ChoiceWanted(cs[m]) then [Item(ChoiceSlot(b, m), cs[m].jpText)] else [];
      assert Collected(bs, last);
      OrderedAppend(init, last);
      CollectedAppend(bs, init, last);
      init + last
  }

  /** The choices of block `b` are visited in order. */
  lemma {:induction false} BlockChoiceItemsStep(bs: seq<Block>, b: nat, cs: seq<Choice>, c: nat)
    requires b < |bs| && cs == bs[b].choices && c < |cs|
    ensures BlockChoiceItems(bs, b, cs[..c + 1])
      == BlockChoiceItems(bs, b, cs[..c]) + if ChoiceWanted(cs[c]) then [Item(ChoiceSlot(b, c), cs[c].jpText)] else []
  {
    assert cs[..c + 1][..c] == cs[..c];
  }

  function ChoiceItems(bs: seq<Block>): (r: seq<Item>)
    ensures Collected(bs, r) && Ordered(r)
    ensures forall k :: 0 <= k < |r| ==> r[k].slot.ChoiceSlot? && r[k].slot.block < |bs|
  {
    if bs == [] then []
    else
      var n := |bs| - 1;
      var init := ChoiceItems(bs[..n]);
      var last := BlockChoiceItems(bs, n, bs[n].choices);
      CollectedPrefix(bs, n, init);
      assert Collected(bs, last);
      OrderedAppend(init, last);
      CollectedAppend(bs, init, last);
      init + last
  }

  /** `all_items` of the batched driver. */
  function PendingItems(bs: seq<Block>): (r: seq<Item>)
    ensures Collected(bs, r) && Ordered(r)
  {
    OrderedAppend(NameItems(bs), TextItems(bs));
    OrderedAppend(NameItems(bs) + TextItems(bs), ChoiceItems(bs));
    CollectedAppend(bs, NameItems(bs), TextItems(bs));
    CollectedAppend(bs, NameItems(bs) + TextItems(bs), ChoiceItems(bs));
    NameItems(bs) + TextItems(bs) + ChoiceItems(bs)
  }

  /** Ordered items name pairwise different slots. */
  lemma OrderedDistinct(items: seq<Item>)
    requires Ordered(items)
    ensures forall j, k :: 0 <= j < |items| && 0 <= k < |items| && j != k ==> items[j].slot != items[k].slot
  {
  }

  /** Every pending slot is collected: the collection misses no unit. */
  lemma PendingCollected(bs: seq<Block>, s: Slot)
    requires ValidSlot(bs, s) && Pending(bs, s)
    ensures exists k :: 0 <= k < |PendingItems(bs)| && PendingItems(bs)[k].slot == s
  {
    var names, texts, choices := NameItems(bs), TextItems(bs), ChoiceItems(bs);
    assert PendingItems(bs) == names + texts + choices;
    match s
    case NameSlot(b) =>
      var k := NameFound(bs, b);
      assert PendingItems(bs)[k] == names[k];
    case TextSlot(b) =>
      var k := TextFound(bs, b);
      assert PendingItems(bs)[|names| + k] == texts[k];
    case ChoiceSlot(b, c) =>
      var k := ChoiceFound(bs, b, c);
      assert PendingItems(bs)[|names| + |texts| + k] == choices[k];
  }

  lemma {:induction false} NameFound(bs: seq<Block>, b: nat) returns (k: nat)
    requires ValidSlot(bs, NameSlot(b)) && Pending(bs, NameSlot(b))
    ensures k < |NameItems(bs)| && NameItems(bs)[k].slot == NameSlot(b)
  {
    var n := |bs| - 1;
    if b == n {
      k := |NameItems(bs[..n])|;
    } else {
      k := NameFound(bs[..n], b);
    }
  }

  lemma {:induction false} TextFound(bs: seq<Block>, b: nat) returns (k: nat)
    requires ValidSlot(bs, TextSlot(b)) && Pending(bs, TextSlot(b))
    ensures k < |TextItems(bs)| && TextItems(bs)[k].slot == TextSlot(b)
  {
    var n := |bs| - 1;
    if b == n {
      k := |TextItems(bs[..n])|;
    } else {
      k := TextFound(bs[..n], b);
    }
  }

  lemma {:induction false} ChoiceFound(bs: seq<Block>, b: nat, c: nat) returns (k: nat)
    requires ValidSlot(bs, ChoiceSlot(b, c)) && Pending(bs, ChoiceSlot(b, c))
    ensures k < |ChoiceItems(bs)| && ChoiceItems(bs)[k].slot == ChoiceSlot(b, c)
  {
    var n := |bs| - 1;
    var init := ChoiceItems(bs[..n]);
    if b == n {
      var j := BlockChoiceFound(bs, n, bs[n].choices, c);
      k := |init| + j;
    } else {
      k := ChoiceFound(bs[..n], b, c);
    }
  }

  lemma {:induction false} BlockChoiceFound(bs: seq<Block>, b: nat, cs: seq<Choice>, c: nat) returns (k: nat)
    requires b < |bs| && |cs| <= |bs[b].choices|
    requires forall i :: 0 <= i < |cs| ==> cs[i] == bs[b].choices[i]
    requires c < |cs| && ValidSlot(bs, ChoiceSlot(b, c)) && Pending(bs, ChoiceSlot(b, c))
    ensures k < |BlockChoiceItems(bs, b, cs)| && BlockChoiceItems(bs, b, cs)[k].slot == ChoiceSlot(b, c)
  {
    var m := |cs| - 1;
    if c == m {
      k := |BlockChoiceItems(bs, b, cs[..m])|;
    } else {
      k := BlockChoiceFound(bs, b, cs[..m], c);
    }
  }

  // ---- writing translations back ----

  /** No two items name the same slot. */
  predicate Distinct(items: seq<Item>) {
    forall j, k :: 0 <= j < |items| && 0 <= k < |items| && j != k ==> items[j].slot != items[k].slot
  }

  predicate AllValid(bs: seq<Block>, items: seq<Item>) {
    forall k :: 0 <= k < |items| ==> ValidSlot(bs, items[k].slot)
  }

  lemma SameShapeAllValid(a: seq<Block>, b: seq<Block>, items: seq<Item>)
    requires SameShape(a, b) && AllValid(a, items)
    ensures AllValid(b, items)
  {
    forall k | 0 <= k < |items| ensures ValidSlot(b, items[k].slot) {
      SameShapeSlots(a, b, items[k].slot);
    }
  }

  /** The first `n` writes back: `obj[field] = translation` for each of the
      first `n` items and its translation, in order. */
  function WriteFirst(bs: seq<Block>, items: seq<Item>, ts: seq<string>, n: nat): (r: seq<Block>)
    requires |ts| == |items| && AllValid(bs, items) && n <= |items|
    ensures SameShape(bs, r)
    decreases n, 1
  {
    if n == 0 then bs else WriteLast(bs, items, ts, n)
  }

  /** The first `n - 1` writes, then the write of item `n - 1`. */
  function WriteLast(bs: seq<Block>, items: seq<Item>, ts: seq<string>, n: nat): (r: seq<Block>)
    requires |ts| == |items| && AllValid(bs, items) && 0 < n <= |items|
    ensures SameShape(bs, r)
    decreases n, 0
  {
    var w := WriteFirst(bs, items, ts, n - 1);
    SameShapeSlots(bs, w, items[n - 1].slot);
    var r := SetTarget(w, items[n - 1].slot, ts[n - 1]);
    SameShapeTrans(bs, w, r);
    r
  }

  /** The `n`-th write comes after the first `n - 1`. */
  lemma WriteFirstStep(bs: seq<Block>, items: seq<Item>, ts: seq<string>, n: nat)
    requires |ts| == |items| && AllValid(bs, items) && 0 < n <= |items|
    ensures var w := WriteFirst(bs, items, ts, n - 1);
      && ValidSlot(w, items[n - 1].slot)
      && WriteFirst(bs, items, ts, n) == SetTarget(w, items[n - 1].slot, ts[n - 1])
  {
    var w := WriteFirst(bs, items, ts, n - 1);
    SameShapeSlots(bs, w, items[n - 1].slot);
    assert WriteFirst(bs, items, ts, n) == WriteLast(bs, items, ts, n);
  }

  /** Every item's translation written back into its slot. */
  function WriteAll(bs: seq<Block>, items: seq<Item>, ts: seq<string>): (r: seq<Block>)
    requires |ts| == |items| && AllValid(bs, items)
    ensures SameShape(bs, r)
  {
    WriteFirst(bs, items, ts, |items|)
  }

  /** After the first `n` writes each of those items' slots holds its own
      translation. */
  lemma {:induction false} WriteFirstTargets(bs: seq<Block>, items: seq<Item>, ts: seq<string>, n: nat)
    requires |ts| == |items| && AllValid(bs, items) && Distinct(items) && n <= |items|
    ensures forall k :: 0 <= k < n ==> TargetText(WriteFirst(bs, items, ts, n), items[k].slot) == ts[k]
  {
    if n > 0 {
      var w := WriteFirst(bs, items, ts, n - 1);
      WriteFirstStep(bs, items, ts, n);
      WriteFirstTargets(bs, items, ts, n - 1);
      var last := items[n - 1].slot;
      SameShapeSlots(bs, w, last);
      forall k | 0 <= k < n - 1 ensures TargetText(SetTarget(w, last, ts[n - 1]), items[k].slot) == ts[k] {
        SameShapeSlots(bs, w, items[k].slot);
      }
    }
  }

  /** The first `n` writes leave every other slot as it was. */
  lemma {:induction false} WriteFirstOthers(bs: seq<Block>, items: seq<Item>, ts: seq<string>, n: nat, s: Slot)
    requires |ts| == |items| && AllValid(bs, items) && n <= |items|
    requires ValidSlot(bs, s) && forall k :: 0 <= k < n ==> items[k].slot != s
    ensures TargetText(WriteFirst(bs, items, ts, n), s) == TargetText(bs, s)
  {
    if n > 0 {
      var w := WriteFirst(bs, items, ts, n - 1);
      WriteFirstStep(bs, items, ts, n);
      WriteFirstOthers(bs, items, ts, n - 1, s);
      SameShapeSlots(bs, w, s);
      SameShapeSlots(bs, w, items[n - 1].slot);
    }
  }

  /** After the writes every item's slot holds its own translation and every
      other slot keeps its text. */
  lemma WriteAllEffect(bs: seq<Block>, items: seq<Item>, ts: seq<string>)
    requires |ts| == |items| && AllValid(bs, items) && Distinct(items)
    ensures forall k :: 0 <= k < |items| ==> TargetText(WriteAll(bs, items, ts), items[k].slot) == ts[k]
    ensures forall s :: ValidSlot(bs, s) && (forall k :: 0 <= k < |items| ==> items[k].slot != s) ==>
      TargetText(WriteAll(bs, items, ts), s) == TargetText(bs, s)
  {
    WriteFirstTargets(bs, items, ts, |items|);
    forall s | ValidSlot(bs, s) && (forall k :: 0 <= k < |items| ==> items[k].slot != s)
      ensures TargetText(WriteAll(bs, items, ts), s) == TargetText(bs, s)
    {
      WriteFirstOthers(bs, items, ts, |items|, s);
    }
  }

  /** The items among the first `n` whose translation still holds Japanese,
      in order. */
  function FailedFirst(items: seq<Item>, ts: seq<string>, n: nat): (r: seq<Item>)
    requires |ts| == |items| && n <= |items|
    ensures |r| <= n
    decreases n, 1
  {
    if n == 0 then [] else FailedLast(items, ts, n)
  }

  /** The failures among the first `n - 1`, then item `n - 1` if it fails. */
  function FailedLast(items: seq<Item>, ts: seq<string>, n: nat): (r: seq<Item>)
    requires |ts| == |items| && 0 < n <= |items|
    ensures |r| <= n
    decreases n, 0
  {
    FailedFirst(items, ts, n - 1) + (if ContainsJapanese(ts[n - 1]) then [items[n - 1]] else [])
  }

  /** Item `n - 1` is checked after the first `n - 1`. */
  lemma FailedFirstStep(items: seq<Item>, ts: seq<string>, n: nat)
    requires |ts| == |items| && 0 < n <= |items|
    ensures FailedFirst(items, ts, n)
         == FailedFirst(items, ts, n - 1) + (if ContainsJapanese(ts[n - 1]) then [items[n - 1]] else [])
  {
    assert FailedFirst(items, ts, n) == FailedLast(items, ts, n);
  }

  /** The items whose translation still holds Japanese, in order. */
  function FailedOf(items: seq<Item>, ts: seq<string>): (r: seq<Item>)
    requires |ts| == |items|
    ensures |r| <= |items|
  {
    FailedFirst(items, ts, |items|)
  }

  lemma {:induction false} FailedFirstMembers(items: seq<Item>, ts: seq<string>, n: nat)
    requires |ts| == |items| && Distinct(items) && n <= |items|
    ensures forall k :: 0 <= k < n ==> (items[k] in FailedFirst(items, ts, n) <==> ContainsJapanese(ts[k]))
    ensures forall f :: f in FailedFirst(items, ts, n) ==> exists k :: 0 <= k < n && f == items[k]
  {
    if n > 0 {
      FailedFirstStep(items, ts, n);
      FailedFirstMembers(items, ts, n - 1);
      forall k | 0 <= k < n - 1 ensures items[k] != items[n - 1] {
        assert items[k].slot != items[n - 1].slot;
      }
    }
  }

  /** An item fails exactly when its translation holds Japanese, and only
      items fail. */
  lemma FailedOfMembers(items: seq<Item>, ts: seq<string>)
    requires |ts| == |items| && Distinct(items)
    ensures forall k :: 0 <= k < |items| ==> (items[k] in FailedOf(items, ts) <==> ContainsJapanese(ts[k]))
    ensures forall f :: f in FailedOf(items, ts) ==> f in items
  {
    FailedFirstMembers(items, ts, |items|);
  }

  // ---- batches ----

  /** `num_batches`: the smallest number of `size`-item batches that covers
      `n` items. */
  function NumBatches(n: nat, size: nat): (m: nat)
    requires size > 0
    ensures m * size >= n && (m == 0 || (m - 1) * size < n)
  {
    var m := (n + size - 1) / size;
    assert m * size <= n + size - 1 < m * size + size;
    assert m > 0 ==> (m - 1) * size == m * size - size;
    m
  }

  /** Batch `b`: `all_items[start:end]` with `start = b * size` and
      `end = min(start + size, n)`. */
  function Batch<T>(xs: seq<T>, size: nat, b: nat): (r: seq<T>)
    requires size > 0 && b * size < |xs|
    ensures 0 < |r| <= size
  {
    xs[b * size .. Min(b * size + size, |xs|)]
  }

  /** The first `k` batches together are the first `min(k * size, n)`
      items: the batches cover every item once, in order. */
  lemma {:induction false} BatchesCover<T>(xs: seq<T>, size: nat, k: nat)
    requires size > 0 && k < NumBatches(|xs|, size)
    ensures k * size < |xs|
    ensures xs[..k * size] + Batch(xs, size, k) == xs[..Min(k * size + size, |xs|)]
  {
    assert (NumBatches(|xs|, size) - 1) * size < |xs|;
    assert k * size <= (NumBatches(|xs|, size) - 1) * size by {
      MulMono(k, NumBatches(|xs|, size) - 1, size);
    }
  }

  /** Where batch `k` ends: at the start of batch `k + 1`, or at `n` for
      the last batch. */
  lemma BatchEnd(n: nat, size: nat, k: nat)
    requires size > 0 && k < NumBatches(n, size)
    ensures k * size < n
    ensures k + 1 < NumBatches(n, size) ==> (k + 1) * size < n
    ensures Min(k * size + size, n) == if k + 1 < NumBatches(n, size) then (k + 1) * size else n
  {
    var m := NumBatches(n, size);
    assert (k + 1) * size == k * size + size;
    MulMono(k, m - 1, size);
    if k + 1 < m {
      MulMono(k + 1, m - 1, size);
    } else {
      assert k + 1 == m && m * size >= n;
    }
  }

  lemma MulMono(a: nat, b: nat, c: nat)
    requires a <= b
    ensures a * c <= b * c
  {
  }
}
