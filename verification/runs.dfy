/**
  What the two drivers do to a record set, as functions of the settings, the
  dictionary and the replies the service will give: the batched driver with
  its optional second pass, and the sequential driver with its context
  window.
 */
module Runs {
  import opened Wrappers
  import opened Strings
  import opened Records
  import opened Script
  import opened Dictionary
  import opened Context
  import opened Remote
  import opened Rounds
  import opened Passes

  function Sources(items: seq<Item>): (r: seq<string>)
    ensures |r| == |items| && forall i :: 0 <= i < |items| ==> r[i] == items[i].source
  {
    seq(|items|, i requires 0 <= i < |items| => items[i].source)
  }

  // ---- the batched driver ----

  /** Translations collected so far and the POSTs made. */
  datatype Run = Run(ts: seq<string>, posts: nat)

  /** The first pass over `sources` from index `start` on: batch after
      batch of `batchSize` texts, each sent with the replies the earlier
      batches left. */
  function FirstPass(s: Settings, terms: Terms, replies: Replies, sources: seq<string>, start: nat): (r: Run)
    requires s.batchSize > 0 && start <= |sources|
    ensures |r.ts| == |sources| - start
    decreases |sources| - start, 1
  {
    if start == |sources| then Run([], 0) else FirstBatch(s, terms, replies, sources, start)
  }

  /** The batch of the first pass that starts at `start`, followed by the
      pass over the rest. */
  function FirstBatch(s: Settings, terms: Terms, replies: Replies, sources: seq<string>, start: nat): (r: Run)
    requires s.batchSize > 0 && start < |sources|
    ensures |r.ts| == |sources| - start
    decreases |sources| - start, 0
  {
    var end := Min(start + s.batchSize, |sources|);
    var o := BatchCall(s, terms, replies, sources[start..end], 0);
    var rest := FirstPass(s, terms, Drop(replies, o.posts), sources, end);
    Run(o.value + rest.ts, o.posts + rest.posts)
  }

  /** One batch of the first pass, and the pass over what follows it. */
  lemma FirstPassStep(s: Settings, terms: Terms, replies: Replies, sources: seq<string>, start: nat)
    requires s.batchSize > 0 && start < |sources|
    ensures var end := Min(start + s.batchSize, |sources|);
      var o := BatchCall(s, terms, replies, sources[start..end], 0);
      var rest := FirstPass(s, terms, Drop(replies, o.posts), sources, end);
      FirstPass(s, terms, replies, sources, start) == Run(o.value + rest.ts, o.posts + rest.posts)
  {
    assert FirstPass(s, terms, replies, sources, start) == FirstBatch(s, terms, replies, sources, start);
  }

  /** Batch `k` of the first pass, for `k` below `num_batches`: the pass
      from `k * batchSize` sends `Batch(sources, batchSize, k)`, then goes on
      from batch `k + 1`, or stops after the last batch. So the pass from 0
      makes exactly `NumBatches(|sources|, batchSize)` batch calls, batch `k`
      being the k-th slice of `all_items`. */
  lemma FirstPassBatch(s: Settings, terms: Terms, replies: Replies, sources: seq<string>, k: nat)
    requires s.batchSize > 0 && k < NumBatches(|sources|, s.batchSize)
    ensures k * s.batchSize < |sources|
    ensures k + 1 < NumBatches(|sources|, s.batchSize) ==> (k + 1) * s.batchSize < |sources|
    ensures var o := BatchCall(s, terms, replies, Batch(sources, s.batchSize, k), 0);
      var next := if k + 1 < NumBatches(|sources|, s.batchSize) then (k + 1) * s.batchSize else |sources|;
      var rest := FirstPass(s, terms, Drop(replies, o.posts), sources, next);
      FirstPass(s, terms, replies, sources, k * s.batchSize) == Run(o.value + rest.ts, o.posts + rest.posts)
  {
    var size := s.batchSize;
    var start := k * size;
    var next := if k + 1 < NumBatches(|sources|, size) then (k + 1) * size else |sources|;
    BatchEnd(|sources|, size, k);
    assert Min(start + size, |sources|) == next;
    assert Batch(sources, size, k) == sources[start..next];
    var o := BatchCall(s, terms, replies, sources[start..next], 0);
    var rest := FirstPass(s, terms, Drop(replies, o.posts), sources, next);
    assert FirstPass(s, terms, replies, sources, start) == Run(o.value + rest.ts, o.posts + rest.posts) by {
      FirstPassStep(s, terms, replies, sources, start);
    }
  }

  /** No items, no batch: the pass over an empty list makes no call. */
  lemma FirstPassNoBatches(s: Settings, terms: Terms, replies: Replies, sources: seq<string>)
    requires s.batchSize > 0
    ensures NumBatches(|sources|, s.batchSize) == 0 <==> sources == []
    ensures sources == [] ==> FirstPass(s, terms, replies, sources, 0) == Run([], 0)
  {
  }

  /** Every translation of the first pass is non-empty or its source's
      substitution. */
  lemma {:induction false} FirstPassAnswered(s: Settings, terms: Terms, replies: Replies, sources: seq<string>, start: nat)
    requires s.batchSize > 0 && start <= |sources|
    ensures var r := FirstPass(s, terms, replies, sources, start);
      forall k :: 0 <= k < |r.ts| ==> r.ts[k] != [] || r.ts[k] == Preprocess(sources[start + k], terms)
    decreases |sources| - start
  {
    if start < |sources| {
      var end := Min(start + s.batchSize, |sources|);
      var o := BatchCall(s, terms, replies, sources[start..end], 0);
      var rest := FirstPass(s, terms, Drop(replies, o.posts), sources, end);
      FirstPassStep(s, terms, replies, sources, start);
      FirstPassAnswered(s, terms, Drop(replies, o.posts), sources, end);
      AnsweredJoin(terms, sources, start, end, o.value, rest.ts);
    }
  }

  /** Joining the answers of one batch to those of the rest of the pass keeps
      every empty answer equal to the text it stands for. */
  lemma AnsweredJoin(terms: Terms, sources: seq<string>, start: nat, end: nat, a: seq<string>, b: seq<string>)
    requires start <= end <= |sources| && |a| == end - start && |b| == |sources| - end
    requires forall i :: 0 <= i < |a| ==> a[i] != [] || a[i] == Preprocess(sources[start..end][i], terms)
    requires forall k :: 0 <= k < |b| ==> b[k] != [] || b[k] == Preprocess(sources[end + k], terms)
    ensures forall k :: 0 <= k < |a + b| ==> (a + b)[k] != [] || (a + b)[k] == Preprocess(sources[start + k], terms)
  {
    forall k | 0 <= k < |a + b| ensures (a + b)[k] != [] || (a + b)[k] == Preprocess(sources[start + k], terms) {
      if k < |a| {
        assert (a + b)[k] == a[k];
        assert sources[start..end][k] == sources[start + k];
      } else {
        assert (a + b)[k] == b[k - |a|];
      }
    }
  }

  /** A second-pass translation is kept when it is non-empty and free of
      Japanese. */
  predicate Usable(t: string) {
    t != [] && !ContainsJapanese(t)
  }

  /** The second-pass writes of the first `n` items of a batch, and how many
      were kept. */
  function FixFirst(bs: seq<Block>, items: seq<Item>, ts: seq<string>, n: nat): (r: (seq<Block>, nat))
    requires |ts| == |items| && AllValid(bs, items) && n <= |items|
    ensures SameShape(bs, r.0) && r.1 <= n
    decreases n, 1
  {
    if n == 0 then (bs, 0) else FixLast(bs, items, ts, n)
  }

  /** The writes of the first `n - 1` items, then the `n`-th item's. */
  function FixLast(bs: seq<Block>, items: seq<Item>, ts: seq<string>, n: nat): (r: (seq<Block>, nat))
    requires |ts| == |items| && AllValid(bs, items) && 0 < n <= |items|
    ensures SameShape(bs, r.0) && r.1 <= n
    decreases n, 0
  {
    var p := FixFirst(bs, items, ts, n - 1);
    if Usable(ts[n - 1]) then
      SameShapeSlots(bs, p.0, items[n - 1].slot);
      var w := SetTarget(p.0, items[n - 1].slot, ts[n - 1]);
      SameShapeTrans(bs, p.0, w);
      (w, p.1 + 1)
    else p
  }

  /** The `n`-th write: a usable translation goes into its item's slot and
      is counted, any other leaves the blocks as they were. */
  lemma FixFirstStep(bs: seq<Block>, items: seq<Item>, ts: seq<string>, n: nat)
    requires |ts| == |items| && AllValid(bs, items) && 0 < n <= |items|
    ensures var p := FixFirst(bs, items, ts, n - 1);
      && ValidSlot(p.0, items[n - 1].slot)
      && FixFirst(bs, items, ts, n)
         == if Usable(ts[n - 1]) then (SetTarget(p.0, items[n - 1].slot, ts[n - 1]), p.1 + 1) else p
  {
    var p := FixFirst(bs, items, ts, n - 1);
    SameShapeSlots(bs, p.0, items[n - 1].slot);
    assert FixFirst(bs, items, ts, n) == FixLast(bs, items, ts, n);
  }

  /** The second-pass writes of one batch and how many were kept. */
  function FixAll(bs: seq<Block>, items: seq<Item>, ts: seq<string>): (r: (seq<Block>, nat))
    requires |ts| == |items| && AllValid(bs, items)
    ensures SameShape(bs, r.0) && r.1 <= |items|
  {
    FixFirst(bs, items, ts, |items|)
  }

  /** From `before` to `after` only the failed slots changed, each to a
      usable translation. */
  ghost predicate Improved(before: seq<Block>, after: seq<Block>, failed: seq<Item>) {
    && SameShape(before, after)
    && (forall t :: ValidSlot(before, t) && (forall k :: 0 <= k < |failed| ==> failed[k].slot != t) ==>
          TargetText(after, t) == TargetText(before, t))
    && (forall t :: ValidSlot(before, t) ==>
          TargetText(after, t) == TargetText(before, t) || Usable(TargetText(after, t)))
  }

  lemma ImprovedTrans(a: seq<Block>, b: seq<Block>, c: seq<Block>, failed: seq<Item>)
    requires Improved(a, b, failed) && Improved(b, c, failed)
    ensures Improved(a, c, failed)
  {
    SameShapeTrans(a, b, c);
    forall t | ValidSlot(a, t) ensures ValidSlot(b, t) {
      SameShapeSlots(a, b, t);
    }
  }

  /** Second-pass writes change only their own items' slots, and each only
      to a usable translation. */
  lemma {:induction false} FixFirstImproves(bs: seq<Block>, items: seq<Item>, ts: seq<string>, n: nat, failed: seq<Item>)
    requires |ts| == |items| && AllValid(bs, items) && n <= |items|
    requires forall k :: 0 <= k < |items| ==> items[k] in failed
    ensures Improved(bs, FixFirst(bs, items, ts, n).0, failed)
  {
    if n > 0 {
      var p := FixFirst(bs, items, ts, n - 1);
      FixFirstImproves(bs, items, ts, n - 1, failed);
      FixFirstStep(bs, items, ts, n);
      if Usable(ts[n - 1]) {
        var item := items[n - 1];
        SameShapeSlots(bs, p.0, item.slot);
        var w := SetTarget(p.0, item.slot, ts[n - 1]);
        assert Improved(p.0, w, failed) by {
          forall t | ValidSlot(p.0, t) && (forall k :: 0 <= k < |failed| ==> failed[k].slot != t)
            ensures TargetText(w, t) == TargetText(p.0, t)
          {
            var j :| 0 <= j < |failed| && failed[j] == item;
            assert failed[j].slot != t;
          }
        }
        ImprovedTrans(bs, p.0, w, failed);
      }
    }
  }

  /** How far the second pass got: blocks, items fixed, POSTs, and whether a
      batch came back with every translation empty, which ends the pass. */
  datatype Sweep = Sweep(blocks: seq<Block>, fixed: nat, posts: nat, stopped: bool)

  predicate AllEmpty(ts: seq<string>) {
    forall i :: 0 <= i < |ts| ==> ts[i] == []
  }

  /** The second pass over the failed items from index `i` on, in batches;
      a batch whose translations are all empty ends the pass. */
  function SecondPass(s: Settings, terms: Terms, replies: Replies, bs: seq<Block>, failed: seq<Item>, i: nat)
    : (r: Sweep)
    requires s.batchSize > 0 && i <= |failed| && AllValid(bs, failed)
    ensures r.fixed <= |failed| - i
    decreases |failed| - i, 1
  {
    if i == |failed| then Sweep(bs, 0, 0, false) else SecondBatch(s, terms, replies, bs, failed, i)
  }

  /** The second-pass batch that starts at `i`, then the pass over the rest
      unless that batch came back all empty. */
  function SecondBatch(s: Settings, terms: Terms, replies: Replies, bs: seq<Block>, failed: seq<Item>, i: nat)
    : (r: Sweep)
    requires s.batchSize > 0 && i < |failed| && AllValid(bs, failed)
    ensures r.fixed <= |failed| - i
    decreases |failed| - i, 0
  {
    var end := Min(i + s.batchSize, |failed|);
    var batch := failed[i..end];
    var o := BatchCall(s, terms, replies, Sources(batch), 0);
    if AllEmpty(o.value) then Sweep(bs, 0, o.posts, true)
    else
      var w := FixAll(bs, batch, o.value);
      SameShapeAllValid(bs, w.0, failed);
      var r := SecondPass(s, terms, Drop(replies, o.posts), w.0, failed, end);
      Sweep(r.blocks, w.1 + r.fixed, o.posts + r.posts, r.stopped)
  }

  /** A second-pass batch that comes back all empty ends the pass. */
  lemma SecondPassStop(s: Settings, terms: Terms, replies: Replies, bs: seq<Block>, failed: seq<Item>, i: nat, end: nat)
    requires s.batchSize > 0 && i < |failed| && AllValid(bs, failed) && end == Min(i + s.batchSize, |failed|)
    requires AllEmpty(BatchCall(s, terms, replies, Sources(failed[i..end]), 0).value)
    ensures SecondPass(s, terms, replies, bs, failed, i)
      == Sweep(bs, 0, BatchCall(s, terms, replies, Sources(failed[i..end]), 0).posts, true)
  {
    assert SecondPass(s, terms, replies, bs, failed, i) == SecondBatch(s, terms, replies, bs, failed, i);
  }

  /** Otherwise the pass goes on from the batch's end over the blocks with
      the batch's usable translations written. */
  lemma SecondPassGo(s: Settings, terms: Terms, replies: Replies, bs: seq<Block>, failed: seq<Item>, i: nat, end: nat)
    requires s.batchSize > 0 && i < |failed| && AllValid(bs, failed) && end == Min(i + s.batchSize, |failed|)
    requires !AllEmpty(BatchCall(s, terms, replies, Sources(failed[i..end]), 0).value)
    ensures var o := BatchCall(s, terms, replies, Sources(failed[i..end]), 0);
      var w := FixAll(bs, failed[i..end], o.value);
      && AllValid(w.0, failed)
      && var r := SecondPass(s, terms, Drop(replies, o.posts), w.0, failed, end);
        SecondPass(s, terms, replies, bs, failed, i) == Sweep(r.blocks, w.1 + r.fixed, o.posts + r.posts, r.stopped)
  {
    assert SecondPass(s, terms, replies, bs, failed, i) == SecondBatch(s, terms, replies, bs, failed, i);
    var o := BatchCall(s, terms, replies, Sources(failed[i..end]), 0);
    SameShapeAllValid(bs, FixAll(bs, failed[i..end], o.value).0, failed);
  }

  /** The second pass changes only failed slots, and each only to a usable
      translation. */
  lemma {:induction false} SecondPassImproves(s: Settings, terms: Terms, replies: Replies, bs: seq<Block>, failed: seq<Item>, i: nat)
    requires s.batchSize > 0 && i <= |failed| && AllValid(bs, failed)
    ensures Improved(bs, SecondPass(s, terms, replies, bs, failed, i).blocks, failed)
    decreases |failed| - i
  {
    if i < |failed| {
      assert SecondPass(s, terms, replies, bs, failed, i) == SecondBatch(s, terms, replies, bs, failed, i);
      var end := Min(i + s.batchSize, |failed|);
      var batch := failed[i..end];
      var o := BatchCall(s, terms, replies, Sources(batch), 0);
      if !AllEmpty(o.value) {
        var w := FixAll(bs, batch, o.value);
        FixFirstImproves(bs, batch, o.value, |batch|, failed);
        SameShapeAllValid(bs, w.0, failed);
        SecondPassImproves(s, terms, Drop(replies, o.posts), w.0, failed, end);
        ImprovedTrans(bs, w.0, SecondPass(s, terms, Drop(replies, o.posts), w.0, failed, end).blocks, failed);
      }
    }
  }

  /** What `_translate_json_batched` leaves: the blocks, the count it
      returns, and the POSTs it made. */
  datatype Result = Result(blocks: seq<Block>, count: nat, posts: nat)

  /** Whether the second pass runs and is not skipped for lack of a
      different model. */
  predicate SecondPassRuns(s: Settings, model: string, failed: seq<Item>) {
    failed != [] && s.enableTwoPass && SecondModel(s, model) != model
  }

  function BatchedRun(s: Settings, terms: Terms, model: string, replies: Replies, bs: seq<Block>): (r: Result)
    requires s.batchSize > 0
    ensures SameShape(bs, r.blocks)
  {
    var items := PendingItems(bs);
    if items == [] then Result(bs, 0, 0)
    else
      var first := FirstPass(s, terms, replies, Sources(items), 0);
      assert AllValid(bs, items);
      var written := WriteAll(bs, items, first.ts);
      var failed := FailedOf(items, first.ts);
      if SecondPassRuns(s, model, failed) then
        FailedValid(bs, items, first.ts, written);
        var sp := SecondPass(s, terms, Drop(replies, first.posts), written, failed, 0);
        SecondPassImproves(s, terms, Drop(replies, first.posts), written, failed, 0);
        SameShapeTrans(bs, written, sp.blocks);
        Result(sp.blocks, |items| + sp.fixed, first.posts + sp.posts)
      else Result(written, |items|, first.posts)
  }

  lemma FailedValid(bs: seq<Block>, items: seq<Item>, ts: seq<string>, written: seq<Block>)
    requires |ts| == |items| && Ordered(items) && AllValid(bs, items) && SameShape(bs, written)
    ensures AllValid(written, FailedOf(items, ts))
    ensures forall f :: f in FailedOf(items, ts) ==> f in items
  {
    OrderedDistinct(items);
    FailedOfMembers(items, ts);
    SameShapeAllValid(bs, written, items);
    var failed := FailedOf(items, ts);
    forall k | 0 <= k < |failed| ensures ValidSlot(written, failed[k].slot) {
      assert failed[k] in failed;
    }
  }

  /** After the first pass's writes, a pending slot holds a non-empty
      translation or its source's substitution and any other slot is as it
      was. */
  lemma FirstPassWrites(s: Settings, terms: Terms, replies: Replies, bs: seq<Block>, t: Slot)
    requires s.batchSize > 0 && ValidSlot(bs, t)
    ensures var items := PendingItems(bs);
      var written := WriteAll(bs, items, FirstPass(s, terms, replies, Sources(items), 0).ts);
      && (!Pending(bs, t) ==> TargetText(written, t) == TargetText(bs, t))
      && (Pending(bs, t) ==> TargetText(written, t) != [] || TargetText(written, t) == Preprocess(SourceText(bs, t), terms))
  {
    var items := PendingItems(bs);
    var first := FirstPass(s, terms, replies, Sources(items), 0);
    OrderedDistinct(items);
    WriteAllEffect(bs, items, first.ts);
    FirstPassAnswered(s, terms, replies, Sources(items), 0);
    if Pending(bs, t) {
      PendingCollected(bs, t);
    } else {
      assert forall k :: 0 <= k < |items| ==> items[k].slot != t;
    }
  }

  /** The batched driver changes no slot that was not pending. */
  lemma BatchedRunKeeps(s: Settings, terms: Terms, model: string, replies: Replies, bs: seq<Block>, t: Slot)
    requires s.batchSize > 0 && ValidSlot(bs, t) && !Pending(bs, t)
    ensures TargetText(BatchedRun(s, terms, model, replies, bs).blocks, t) == TargetText(bs, t)
  {
    var items := PendingItems(bs);
    FirstPassWrites(s, terms, replies, bs, t);
    if items != [] {
      var first := FirstPass(s, terms, replies, Sources(items), 0);
      var written := WriteAll(bs, items, first.ts);
      var failed := FailedOf(items, first.ts);
      if SecondPassRuns(s, model, failed) {
        FailedValid(bs, items, first.ts, written);
        var sp := SecondPass(s, terms, Drop(replies, first.posts), written, failed, 0);
        SecondPassImproves(s, terms, Drop(replies, first.posts), written, failed, 0);
        assert BatchedRun(s, terms, model, replies, bs).blocks == sp.blocks;
        SameShapeSlots(bs, written, t);
        assert forall k :: 0 <= k < |items| ==> items[k].slot != t;
        forall k | 0 <= k < |failed| ensures failed[k].slot != t {
          assert failed[k] in items;
        }
      }
    }
  }

  /** The batched driver leaves every pending slot holding a non-empty
      translation or its source's substitution. */
  lemma BatchedRunFills(s: Settings, terms: Terms, model: string, replies: Replies, bs: seq<Block>, t: Slot)
    requires s.batchSize > 0 && ValidSlot(bs, t) && Pending(bs, t)
    ensures var v := TargetText(BatchedRun(s, terms, model, replies, bs).blocks, t);
      v != [] || v == Preprocess(SourceText(bs, t), terms)
  {
    var items := PendingItems(bs);
    FirstPassWrites(s, terms, replies, bs, t);
    if items != [] {
      var first := FirstPass(s, terms, replies, Sources(items), 0);
      var written := WriteAll(bs, items, first.ts);
      var failed := FailedOf(items, first.ts);
      if SecondPassRuns(s, model, failed) {
        FailedValid(bs, items, first.ts, written);
        var sp := SecondPass(s, terms, Drop(replies, first.posts), written, failed, 0);
        SecondPassImproves(s, terms, Drop(replies, first.posts), written, failed, 0);
        assert BatchedRun(s, terms, model, replies, bs).blocks == sp.blocks;
        SameShapeSlots(bs, written, t);
        assert TargetText(sp.blocks, t) == TargetText(written, t) || Usable(TargetText(sp.blocks, t));
      }
    }
  }

  /** The count is one per pending slot, plus the second-pass fixes when that
      pass runs, which are at most one per pending slot. */
  lemma BatchedRunCount(s: Settings, terms: Terms, model: string, replies: Replies, bs: seq<Block>)
    requires s.batchSize > 0
    ensures var r := BatchedRun(s, terms, model, replies, bs);
      && |PendingItems(bs)| <= r.count <= 2 * |PendingItems(bs)|
      && (!s.enableTwoPass ==> r.count == |PendingItems(bs)|)
  {
    var items := PendingItems(bs);
    if items != [] {
      var first := FirstPass(s, terms, replies, Sources(items), 0);
      var written := WriteAll(bs, items, first.ts);
      var failed := FailedOf(items, first.ts);
      if SecondPassRuns(s, model, failed) {
        FailedValid(bs, items, first.ts, written);
      }
    }
  }

  /** With nothing pending, the batched driver makes no POST, writes
      nothing and counts 0. */
  lemma BatchedRunIdle(s: Settings, terms: Terms, model: string, replies: Replies, bs: seq<Block>)
    requires s.batchSize > 0
    requires forall t :: ValidSlot(bs, t) ==> !Pending(bs, t)
    ensures BatchedRun(s, terms, model, replies, bs) == Result(bs, 0, 0)
  {
    var items := PendingItems(bs);
    if items != [] {
      var t := items[0].slot;
      assert false;
    }
  }

  // ---- the sequential driver ----

  /** Whether the sequential driver translates a block's name. Unlike the
      batched driver it does not skip a name made of white space only. */
  predicate SeqNameDue(b: Block) {
    b.enName == [] && b.jpName != []
  }

  /** A target that was due holds a non-empty translation or the
      substitution of its source; a target that was not due is unchanged. */
  predicate Settled(due: bool, before: string, after: string, source: string, terms: Terms) {
    if due then after != [] || after == Preprocess(source, terms) else after == before
  }

  datatype ChoiceRun = ChoiceRun(choices: seq<Choice>, posts: nat, count: nat)

  /** The choice loop of one block, each due choice translated in turn. */
  function SeqChoices(s: Settings, terms: Terms, replies: Replies, cs: seq<Choice>): (r: ChoiceRun)
    ensures |r.choices| == |cs| && r.count <= |cs|
    ensures forall j :: 0 <= j < |cs| ==> r.choices[j].jpText == cs[j].jpText
    decreases |cs|, 1
  {
    if cs == [] then ChoiceRun([], 0, 0) else SeqChoice(s, terms, replies, cs)
  }

  /** The loop over all choices of `cs` but the last, then the last one. */
  function SeqChoice(s: Settings, terms: Terms, replies: Replies, cs: seq<Choice>): (r: ChoiceRun)
    requires cs != []
    ensures |r.choices| == |cs| && r.count <= |cs|
    ensures forall j :: 0 <= j < |cs| ==> r.choices[j].jpText == cs[j].jpText
    decreases |cs|, 0
  {
    var n := |cs| - 1;
    var p := SeqChoices(s, terms, replies, cs[..n]);
    var c := cs[n];
    if ChoiceWanted(c) then
      var o := TextCall(s, terms, Drop(replies, p.posts), c.jpText, false, 0);
      ChoiceRun(p.choices + [c.(enText := o.value)], p.posts + o.posts, p.count + 1)
    else ChoiceRun(p.choices + [c], p.posts, p.count)
  }

  /** Choice `c` is handled after the ones before it, from the replies they
      left. */
  lemma SeqChoicesStep(s: Settings, terms: Terms, replies: Replies, cs: seq<Choice>, c: nat)
    requires c < |cs|
    ensures var p := SeqChoices(s, terms, replies, cs[..c]);
      var o := TextCall(s, terms, Drop(replies, p.posts), cs[c].jpText, false, 0);
      SeqChoices(s, terms, replies, cs[..c + 1])
        == if ChoiceWanted(cs[c]) then ChoiceRun(p.choices + [cs[c].(enText := o.value)], p.posts + o.posts, p.count + 1)
           else ChoiceRun(p.choices + [cs[c]], p.posts, p.count)
  {
    assert cs[..c + 1][..c] == cs[..c];
    assert SeqChoices(s, terms, replies, cs[..c + 1]) == SeqChoice(s, terms, replies, cs[..c + 1]);
  }

  /** Each due choice ends up with a non-empty translation or its source's
      substitution; every other choice keeps its text. */
  lemma {:induction false} SeqChoicesSettle(s: Settings, terms: Terms, replies: Replies, cs: seq<Choice>)
    ensures var r := SeqChoices(s, terms, replies, cs);
      forall j :: 0 <= j < |cs| ==>
        Settled(ChoiceWanted(cs[j]), cs[j].enText, r.choices[j].enText, cs[j].jpText, terms)
    decreases |cs|
  {
    if cs != [] {
      var n := |cs| - 1;
      var p := SeqChoices(s, terms, replies, cs[..n]);
      SeqChoicesStep(s, terms, replies, cs, n);
      assert cs[..n + 1] == cs;
      SeqChoicesSettle(s, terms, replies, cs[..n]);
      var r := SeqChoices(s, terms, replies, cs);
      forall j | 0 <= j < |cs|
        ensures Settled(ChoiceWanted(cs[j]), cs[j].enText, r.choices[j].enText, cs[j].jpText, terms)
      {
        if j < n {
          assert cs[..n][j] == cs[j] && r.choices[j] == p.choices[j];
        }
      }
    }
  }

  function EntryOf(b: Block): ContextEntry {
    ContextEntry(b.jpName, b.jpText, b.enName, b.enText)
  }

  /** The name and text of one block in the sequential driver, their POSTs
      and how many of the two were translated. */
  datatype HeadRun = HeadRun(enName: string, enText: string, posts: nat, count: nat)

  /** The first half of one block of the sequential driver: its name, then
      its text. */
  function SeqHead(s: Settings, terms: Terms, replies: Replies, b: Block): (r: HeadRun)
    ensures r.count <= 2
  {
    var o1 := TextCall(s, terms, replies, b.jpName, true, 0);
    var enName := if SeqNameDue(b) then o1.value else b.enName;
    var p1 := if SeqNameDue(b) then o1.posts else 0;
    var o2 := TextCall(s, terms, Drop(replies, p1), b.jpText, false, 0);
    var enText := if TextWanted(b) then o2.value else b.enText;
    HeadRun(enName, enText, p1 + (if TextWanted(b) then o2.posts else 0),
      (if SeqNameDue(b) then 1 else 0) + (if TextWanted(b) then 1 else 0))
  }

  datatype BlockRun = BlockRun(block: Block, window: seq<ContextEntry>, posts: nat, count: nat)

  /** One block of the sequential driver: its name, then its text, then the
      block enters the context window, then its choices. */
  function SeqBlock(s: Settings, terms: Terms, cap: int, replies: Replies, window: seq<ContextEntry>, b: Block)
    : (r: BlockRun)
    ensures SameBlockShape(b, r.block)
    ensures r.window == Push(cap, window, EntryOf(r.block))
  {
    var h := SeqHead(s, terms, replies, b);
    var cr := SeqChoices(s, terms, Drop(replies, h.posts), b.choices);
    var block := b.(enName := h.enName, enText := h.enText, choices := cr.choices);
    BlockRun(block, Push(cap, window, EntryOf(block)), h.posts + cr.posts, h.count + cr.count)
  }

  /** Within one block, each due target is settled and the others keep
      their text. */
  lemma SeqBlockSettles(s: Settings, terms: Terms, cap: int, replies: Replies, window: seq<ContextEntry>, b: Block)
    ensures var r := SeqBlock(s, terms, cap, replies, window, b);
      && Settled(SeqNameDue(b), b.enName, r.block.enName, b.jpName, terms)
      && Settled(TextWanted(b), b.enText, r.block.enText, b.jpText, terms)
      && forall j :: 0 <= j < |b.choices| ==>
        Settled(ChoiceWanted(b.choices[j]), b.choices[j].enText, r.block.choices[j].enText, b.choices[j].jpText, terms)
  {
    SeqChoicesSettle(s, terms, Drop(replies, SeqHead(s, terms, replies, b).posts), b.choices);
  }

  datatype SeqState = SeqState(blocks: seq<Block>, window: seq<ContextEntry>, posts: nat, count: nat)

  /** `_translate_json_sequential` over `bs`, from the context window
      `window`: the blocks it leaves, the window, the POSTs and the count. */
  function SeqRun(s: Settings, terms: Terms, cap: int, replies: Replies, window: seq<ContextEntry>, bs: seq<Block>)
    : (r: SeqState)
    ensures SameShape(bs, r.blocks)
    decreases |bs|, 1
  {
    if bs == [] then SeqState([], window, 0, 0) else SeqLast(s, terms, cap, replies, window, bs)
  }

  /** The driver over all blocks of `bs` but the last, then the last block,
      from the window and the replies the earlier blocks left. */
  function SeqLast(s: Settings, terms: Terms, cap: int, replies: Replies, window: seq<ContextEntry>, bs: seq<Block>)
    : (r: SeqState)
    requires bs != []
    ensures SameShape(bs, r.blocks)
    decreases |bs|, 0
  {
    var n := |bs| - 1;
    var p := SeqRun(s, terms, cap, replies, window, bs[..n]);
    var b := SeqBlock(s, terms, cap, Drop(replies, p.posts), p.window, bs[n]);
    SameShapeSnoc(bs, p.blocks, b.block);
    SeqState(p.blocks + [b.block], b.window, p.posts + b.posts, p.count + b.count)
  }

  /** The sequential driver over a non-empty list is the driver over all
      but the last block, then that block. */
  lemma SeqRunStep(s: Settings, terms: Terms, cap: int, replies: Replies, window: seq<ContextEntry>, bs: seq<Block>)
    requires bs != []
    ensures var n := |bs| - 1;
      var p := SeqRun(s, terms, cap, replies, window, bs[..n]);
      var b := SeqBlock(s, terms, cap, Drop(replies, p.posts), p.window, bs[n]);
      SeqRun(s, terms, cap, replies, window, bs) == SeqState(p.blocks + [b.block], b.window, p.posts + b.posts, p.count + b.count)
  {
    var n := |bs| - 1;
    var p := SeqRun(s, terms, cap, replies, window, bs[..n]);
    var b := SeqBlock(s, terms, cap, Drop(replies, p.posts), p.window, bs[n]);
    var last := SeqLast(s, terms, cap, replies, window, bs);
    assert last == SeqState(p.blocks + [b.block], b.window, p.posts + b.posts, p.count + b.count);
    assert SeqRun(s, terms, cap, replies, window, bs) == last;
  }

  /** The blocks before the last are left as the run over them left them. */
  lemma SeqRunPrefix(s: Settings, terms: Terms, cap: int, replies: Replies, window: seq<ContextEntry>, bs: seq<Block>)
    requires bs != []
    ensures var n := |bs| - 1;
      var p := SeqRun(s, terms, cap, replies, window, bs[..n]);
      var r := SeqRun(s, terms, cap, replies, window, bs);
      |p.blocks| == n && forall i :: 0 <= i < n ==> r.blocks[i] == p.blocks[i]
  {
    SeqRunStep(s, terms, cap, replies, window, bs);
  }

  lemma SameShapeSnoc(bs: seq<Block>, rs: seq<Block>, y: Block)
    requires bs != [] && SameShape(bs[..|bs| - 1], rs) && SameBlockShape(bs[|bs| - 1], y)
    ensures SameShape(bs, rs + [y])
  {
    var n := |bs| - 1;
    forall i | 0 <= i < |bs| ensures SameBlockShape(bs[i], (rs + [y])[i]) {
      if i < n {
        assert bs[..n][i] == bs[i];
      }
    }
  }

  function Entries(bs: seq<Block>): (r: seq<ContextEntry>)
    ensures |r| == |bs| && forall i :: 0 <= i < |bs| ==> r[i] == EntryOf(bs[i])
  {
    seq(|bs|, i requires 0 <= i < |bs| => EntryOf(bs[i]))
  }

  /** The sequential driver's context window is the FIFO of the translated
      blocks: every block enters it, in order, after its own name and text
      are translated. */
  lemma {:induction false} SeqRunWindow(s: Settings, terms: Terms, cap: int, replies: Replies, window: seq<ContextEntry>, bs: seq<Block>)
    ensures var r := SeqRun(s, terms, cap, replies, window, bs);
      r.window == PushAll(cap, window, Entries(r.blocks))
  {
    if bs != [] {
      var n := |bs| - 1;
      var p := SeqRun(s, terms, cap, replies, window, bs[..n]);
      SeqRunWindow(s, terms, cap, replies, window, bs[..n]);
      var b := SeqBlock(s, terms, cap, Drop(replies, p.posts), p.window, bs[n]);
      var r := SeqRun(s, terms, cap, replies, window, bs);
      SeqRunStep(s, terms, cap, replies, window, bs);
      assert r.blocks == p.blocks + [b.block] && r.window == b.window;
      var es := Entries(r.blocks);
      assert es[..n] == Entries(p.blocks);
      assert es[n] == EntryOf(b.block);
      assert PushAll(cap, window, es) == Push(cap, PushAll(cap, window, es[..n]), es[n]);
    }
  }

  /** Whether the sequential driver translates a slot. */
  predicate SeqDue(bs: seq<Block>, t: Slot)
    requires ValidSlot(bs, t)
  {
    match t
    case NameSlot(b) => SeqNameDue(bs[b])
    case TextSlot(b) => TextWanted(bs[b])
    case ChoiceSlot(b, c) => ChoiceWanted(bs[b].choices[c])
  }

  /** Two block lists that agree on a slot's block agree on the slot. */
  lemma SlotOfBlock(x: seq<Block>, y: seq<Block>, t: Slot)
    requires ValidSlot(x, t) && t.block < |y| && x[t.block] == y[t.block]
    ensures ValidSlot(y, t) && SeqDue(x, t) == SeqDue(y, t)
    ensures TargetText(x, t) == TargetText(y, t) && SourceText(x, t) == SourceText(y, t)
  {
  }

  /** The sequential driver's promise: each due slot ends holding a
      non-empty translation or its source's substitution, and every other
      slot is unchanged. */
  lemma {:induction false} SeqRunEffect(s: Settings, terms: Terms, cap: int, replies: Replies, window: seq<ContextEntry>, bs: seq<Block>, t: Slot)
    requires ValidSlot(bs, t)
    ensures var r := SeqRun(s, terms, cap, replies, window, bs);
      Settled(SeqDue(bs, t), TargetText(bs, t), TargetText(r.blocks, t), SourceText(bs, t), terms)
  {
    var n := |bs| - 1;
    if t.block < n {
      SlotOfBlock(bs, bs[..n], t);
      SeqRunEffect(s, terms, cap, replies, window, bs[..n], t);
      SeqRunKeeps(s, terms, cap, replies, window, bs, t);
    } else {
      SeqRunLast(s, terms, cap, replies, window, bs, t);
    }
  }

  /** A slot before the last block ends as the run over the earlier blocks
      left it. */
  lemma SeqRunKeeps(s: Settings, terms: Terms, cap: int, replies: Replies, window: seq<ContextEntry>, bs: seq<Block>, t: Slot)
    requires ValidSlot(bs, t) && t.block < |bs| - 1
    ensures var n := |bs| - 1;
      var p := SeqRun(s, terms, cap, replies, window, bs[..n]);
      var r := SeqRun(s, terms, cap, replies, window, bs);
      ValidSlot(p.blocks, t) && TargetText(r.blocks, t) == TargetText(p.blocks, t)
  {
    var n := |bs| - 1;
    var p := SeqRun(s, terms, cap, replies, window, bs[..n]);
    var r := SeqRun(s, terms, cap, replies, window, bs);
    SeqRunPrefix(s, terms, cap, replies, window, bs);
    SlotOfBlock(bs, bs[..n], t);
    SlotOfBlock(p.blocks, r.blocks, t);
  }

  lemma SeqRunLast(s: Settings, terms: Terms, cap: int, replies: Replies, window: seq<ContextEntry>, bs: seq<Block>, t: Slot)
    requires ValidSlot(bs, t) && t.block == |bs| - 1
    ensures var r := SeqRun(s, terms, cap, replies, window, bs);
      Settled(SeqDue(bs, t), TargetText(bs, t), TargetText(r.blocks, t), SourceText(bs, t), terms)
  {
    var n := |bs| - 1;
    var p := SeqRun(s, terms, cap, replies, window, bs[..n]);
    var b := SeqBlock(s, terms, cap, Drop(replies, p.posts), p.window, bs[n]);
    var r := SeqRun(s, terms, cap, replies, window, bs);
    SeqRunStep(s, terms, cap, replies, window, bs);
    assert r.blocks[n] == b.block;
    SeqBlockSettles(s, terms, cap, Drop(replies, p.posts), p.window, bs[n]);
  }

  /** A block with no due unit: nothing is sent for it. */
  predicate SeqIdle(b: Block) {
    && !SeqNameDue(b) && !TextWanted(b)
    && forall j :: 0 <= j < |b.choices| ==> !ChoiceWanted(b.choices[j])
  }

  /** A choice loop with no due choice sends nothing and changes nothing. */
  lemma {:induction false} SeqChoicesIdle(s: Settings, terms: Terms, replies: Replies, cs: seq<Choice>)
    requires forall j :: 0 <= j < |cs| ==> !ChoiceWanted(cs[j])
    ensures SeqChoices(s, terms, replies, cs) == ChoiceRun(cs, 0, 0)
    decreases |cs|
  {
    if cs != [] {
      var n := |cs| - 1;
      SeqChoicesIdle(s, terms, replies, cs[..n]);
      SeqChoicesStep(s, terms, replies, cs, n);
      assert cs[..n] + [cs[n]] == cs[..n + 1] == cs;
    }
  }

  /** With no due unit in any block, the sequential driver makes no POST,
      writes nothing and counts 0; every block still enters the window. */
  lemma {:induction false} SeqRunIdle(s: Settings, terms: Terms, cap: int, replies: Replies, window: seq<ContextEntry>,
                                      bs: seq<Block>)
    requires forall i :: 0 <= i < |bs| ==> SeqIdle(bs[i])
    ensures var r := SeqRun(s, terms, cap, replies, window, bs);
      r.blocks == bs && r.posts == 0 && r.count == 0
    decreases |bs|
  {
    if bs != [] {
      var n := |bs| - 1;
      SeqRunIdle(s, terms, cap, replies, window, bs[..n]);
      var p := SeqRun(s, terms, cap, replies, window, bs[..n]);
      SeqChoicesIdle(s, terms, Drop(replies, p.posts), bs[n].choices);
      SeqRunStep(s, terms, cap, replies, window, bs);
      var b := SeqBlock(s, terms, cap, Drop(replies, p.posts), p.window, bs[n]);
      assert b.block == bs[n];
      assert bs[..n] + [bs[n]] == bs;
    }
  }
}
