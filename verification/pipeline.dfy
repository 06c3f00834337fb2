/**
  `TranslationPipeline`: the object that holds the settings, the dictionary,
  the context window and the current model, talks to the service, and runs
  the drivers over one record set in place. Every method is proved against
  the functions of `Rounds` and `Runs` that say what it computes.
 */
module Pipeline {
  import opened Wrappers
  import opened Strings
  import opened Records
  import opened Script
  import opened Dictionary
  import opened Context
  import opened Remote
  import opened BatchCodec
  import opened Rounds
  import opened Passes
  import opened Runs
  import opened Cleanup

  /** Appending one numbered line to the prompt body numbers it after the
      lines already there. */
  lemma {:induction false} NumberedLinesSnoc(xs: seq<string>, x: string, k: nat)
    ensures NumberedLines(xs + [x], k) == NumberedLines(xs, k) + NatToString(k + |xs|) + ". " + x + "\n"
    decreases |xs|
  {
    if xs == [] {
      assert ([] + [x])[1..] == [];
    } else {
      assert (xs + [x])[0] == xs[0];
      assert (xs + [x])[1..] == xs[1..] + [x];
      NumberedLinesSnoc(xs[1..], x, k + 1);
    }
  }

  /** The substitution loop of `translate_batch`, one text at a time. */
  method PreprocessAll(texts: seq<string>, terms: Terms) returns (pre: seq<string>)
    ensures pre == PreAll(texts, terms)
  {
    pre := [];
    for i := 0 to |texts|
      invariant |pre| == i && forall k :: 0 <= k < i ==> pre[k] == Preprocess(texts[k], terms)
    {
      var p := PreprocessText(texts[i], terms);
      pre := pre + [p];
    }
  }

  /** The prompt-building loop of `translate_batch`: the context, the
      instruction, one numbered line per text from 1, and the closing
      request for the same format. */
  method BuildBatchPrompt(context: string, pre: seq<string>) returns (batchText: string)
    ensures batchText == BatchPrompt(context, pre)
  {
    var lines := "";
    for i := 0 to |pre|
      invariant lines == NumberedLines(pre[..i], 1)
    {
      NumberedLinesSnoc(pre[..i], pre[i], 1);
      assert pre[..i + 1] == pre[..i] + [pre[i]];
      lines := lines + NatToString(i + 1) + ". " + pre[i] + "\n";
    }
    assert pre[..|pre|] == pre;
    batchText := context + BatchHeader + lines + BatchFooter;
  }

  /** The scan of `translate_batch` that stops at the first translation
      holding Japanese. */
  method FindJapanese(translations: seq<string>) returns (hasJapanese: bool)
    ensures hasJapanese <==> AnyJapanese(translations)
  {
    hasJapanese := false;
    var idx := 0;
    while idx < |translations|
      invariant 0 <= idx <= |translations| && !hasJapanese
      invariant forall k :: 0 <= k < idx ==> !ContainsJapanese(translations[k])
    {
      var found := ScanForJapanese(translations[idx]);
      if found {
        hasJapanese := true;
        break;
      }
      idx := idx + 1;
    }
  }

  /** What `translate_batch` does with a non-empty reply: parse it, pad or
      cut it to one result per text, and, when `scan` holds, look for
      Japanese in the results. */
  method ReadBatchReply(reply: string, pre: seq<string>, scan: bool) returns (translations: seq<string>, hasJapanese: bool)
    ensures translations == Fit(ParseReply(reply), pre)
    ensures hasJapanese <==> scan && AnyJapanese(translations)
  {
    var parsed := ParseReplyLines(reply);
    translations := PadToCount(parsed, pre);
    hasJapanese := false;
    if scan {
      hasJapanese := FindJapanese(translations);
    }
  }

  /** One round of `translate_text`, unfolded: a failed or empty answer
      falls back, a Japanese answer with rounds left is retried on the
      remaining replies, any other answer is taken. */
  lemma TextCallStep(s: Settings, terms: Terms, replies: Replies, text: string, isName: bool, round: nat)
    requires !(isName && Preprocess(text, terms) != text)
    ensures var d := Transport(replies, s.retryAttempts);
      var o := TextCall(s, terms, replies, text, isName, round);
      if d.reply.None? || d.reply.value == [] then o.value == Preprocess(text, terms) && o.posts == d.posts
      else if s.retryOnJapanese && round < s.retryAttempts && ContainsJapanese(d.reply.value) then
        var o' := TextCall(s, terms, Drop(replies, d.posts), text, isName, round + 1);
        o.value == o'.value && o.posts == o'.posts + d.posts
      else o.value == d.reply.value && o.posts == d.posts
  {
  }

  /** One round of `translate_batch` on a non-empty list, unfolded. */
  lemma BatchCallStep(s: Settings, terms: Terms, replies: Replies, texts: seq<string>, round: nat)
    requires texts != []
    ensures var d := Transport(replies, s.retryAttempts);
      var o := BatchCall(s, terms, replies, texts, round);
      if d.reply.None? || d.reply.value == [] then o.value == PreAll(texts, terms) && o.posts == d.posts
      else
        var ts := Fit(ParseReply(d.reply.value), PreAll(texts, terms));
        if s.retryOnJapanese && round < s.retryAttempts && AnyJapanese(ts) then
          var o' := BatchCall(s, terms, Drop(replies, d.posts), texts, round + 1);
          o.value == o'.value && o.posts == o'.posts + d.posts
        else o.value == ts && o.posts == d.posts
  {
  }

  /** The accounts of a retried round: when the answer to the first POSTs
      still holds Japanese and retries are left, the call's result and the
      requests it sends are those of the retry on the replies left. */
  lemma BatchRetryAccounts(s: Settings, terms: Terms, replies0: Replies, texts: seq<string>, round: nat,
                           replies: Replies, log0: seq<Request>, log: seq<Request>, req: Request)
    requires texts != []
    requires var d := Transport(replies0, s.retryAttempts);
      && d.reply.Some? && d.reply.value != []
      && s.retryOnJapanese && round < s.retryAttempts
      && AnyJapanese(Fit(ParseReply(d.reply.value), PreAll(texts, terms)))
    requires var d := Transport(replies0, s.retryAttempts);
      var o' := BatchCall(s, terms, Drop(replies0, d.posts), texts, round + 1);
      && replies == Drop(Drop(replies0, d.posts), o'.posts)
      && log == log0 + Repeat(req, o'.posts)
    ensures var d := Transport(replies0, s.retryAttempts);
      var o := BatchCall(s, terms, replies0, texts, round);
      var o' := BatchCall(s, terms, Drop(replies0, d.posts), texts, round + 1);
      && o.value == o'.value
      && d.posts <= o.posts
      && replies == Drop(replies0, o.posts)
      && log == log0 + Repeat(req, o.posts - d.posts)
  {
    var d := Transport(replies0, s.retryAttempts);
    var o := BatchCall(s, terms, replies0, texts, round);
    var o' := BatchCall(s, terms, Drop(replies0, d.posts), texts, round + 1);
    BatchCallStep(s, terms, replies0, texts, round);
    DropSum(replies0, d.posts, o'.posts, o.posts);
  }

  /** The collection loop of `_translate_json_batched`: names, texts and
      choices gathered in three lists in document order, then joined. A name
      made of white space only is not collected. */
  method CollectPending(bs: seq<Block>) returns (items: seq<Item>)
    ensures items == PendingItems(bs)
  {
    var names: seq<Item>, texts: seq<Item>, choices: seq<Item> := [], [], [];
    for i := 0 to |bs|
      invariant names == NameItems(bs[..i]) && texts == TextItems(bs[..i]) && choices == ChoiceItems(bs[..i])
    {
      var b := bs[i];
      ghost var upto := bs[..i + 1];
      assert upto[..i] == bs[..i] && upto[i] == b;
      StripFacts(b.jpName);
      if b.enName == [] && b.jpName != [] && Strip(b.jpName) != [] {
        names := names + [Item(NameSlot(i), b.jpName)];
      }
      if b.enText == [] && b.jpText != [] {
        texts := texts + [Item(TextSlot(i), b.jpText)];
      }
      var found := CollectChoices(bs, i);
      choices := choices + found;
    }
    assert bs[..|bs|] == bs;
    items := names + texts + choices;
  }

  /** The inner loop of the collection: the pending choices of block `i`,
      in order. */
  method CollectChoices(bs: seq<Block>, i: nat) returns (found: seq<Item>)
    requires i < |bs|
    ensures found == BlockChoiceItems(bs[..i + 1], i, bs[i].choices)
  {
    ghost var upto := bs[..i + 1];
    var cs := bs[i].choices;
    assert upto[i] == bs[i];
    found := [];
    for c := 0 to |cs|
      invariant found == BlockChoiceItems(upto, i, cs[..c])
    {
      BlockChoiceItemsStep(upto, i, cs, c);
      if cs[c].enText == [] && cs[c].jpText != [] {
        found := found + [Item(ChoiceSlot(i, c), cs[c].jpText)];
      }
    }
    assert cs[..|cs|] == cs;
  }

  /** The write-back loop of one first-pass batch, the items from `start`
      to `end`: each translation goes into its item's slot, the item is
      recorded as failed when the translation holds Japanese, and every item
      is counted. `ts` are the first pass's translations of all items. */
  method WriteFirstBatch(data: RecordSet, items: seq<Item>, start: nat, end: nat, translations: seq<string>,
                         ghost bs0: seq<Block>, ghost ts: seq<string>, failed0: seq<Item>, count0: nat)
    returns (failed: seq<Item>, count: nat)
    requires start <= end <= |items| && |ts| == |items| && AllValid(bs0, items)
    requires translations == ts[start..end]
    requires data.blocks == WriteFirst(bs0, items, ts, start)
    requires failed0 == FailedFirst(items, ts, start)
    modifies data
    ensures data.blocks == WriteFirst(bs0, items, ts, end)
    ensures failed == FailedFirst(items, ts, end)
    ensures count == count0 + (end - start)
  {
    failed, count := failed0, count0;
    for j := start to end
      invariant data.blocks == WriteFirst(bs0, items, ts, j)
      invariant failed == FailedFirst(items, ts, j)
      invariant count == count0 + (j - start)
    {
      failed := WriteFirstItem(data, items, start, end, j, translations, bs0, ts, failed);
      count := count + 1;
    }
  }

  /** One step of that loop: item `j`'s translation written into its slot,
      and the item recorded as failed when the translation holds Japanese. */
  method WriteFirstItem(data: RecordSet, items: seq<Item>, start: nat, end: nat, j: nat, translations: seq<string>,
                        ghost bs0: seq<Block>, ghost ts: seq<string>, failed0: seq<Item>)
    returns (failed: seq<Item>)
    requires start <= j < end <= |items| && |ts| == |items| && AllValid(bs0, items)
    requires translations == ts[start..end]
    requires data.blocks == WriteFirst(bs0, items, ts, j)
    requires failed0 == FailedFirst(items, ts, j)
    modifies data
    ensures data.blocks == WriteFirst(bs0, items, ts, j + 1)
    ensures failed == FailedFirst(items, ts, j + 1)
  {
    var translation := translations[j - start];
    assert translation == ts[j];
    WriteFirstStep(bs0, items, ts, j + 1);
    FailedFirstStep(items, ts, j + 1);
    data.Write(items[j].slot, translation);
    failed := failed0;
    var japanese := ScanForJapanese(translation);
    if japanese {
      failed := failed + [items[j]];
    }
  }

  /** The write-back loop of one second-pass batch: an empty translation is
      skipped, one free of Japanese is written and counted, any other is
      dropped. */
  method FixBatch(data: RecordSet, batch: seq<Item>, translations: seq<string>) returns (fixed: nat)
    requires |translations| == |batch| && AllValid(data.blocks, batch)
    modifies data
    ensures (data.blocks, fixed) == FixAll(old(data.blocks), batch, translations)
  {
    ghost var bs0 := data.blocks;
    fixed := 0;
    for k := 0 to |batch|
      invariant (data.blocks, fixed) == FixFirst(bs0, batch, translations, k)
    {
      FixFirstStep(bs0, batch, translations, k + 1);
      var t := translations[k];
      if t == [] {
        continue;
      }
      var japanese := ScanForJapanese(t);
      if !japanese {
        SameShapeSlots(bs0, data.blocks, batch[k].slot);
        data.Write(batch[k].slot, t);
        fixed := fixed + 1;
      }
    }
  }

  class TranslationPipeline {
    const settings: Settings
    const dictionary: Terms
    /** `context_lines`: the capacity of the context window. */
    const contextLines: int
    const remote: Service
    /** `llm_config['model']` and `llm_config['temperature']`, which the
        second pass swaps and restores. */
    var model: string
    var temperature: Temperature
    var currentContext: seq<ContextEntry>

    constructor (settings: Settings, dictionary: Terms, contextLines: int, remote: Service, model: string, temperature: Temperature)
      ensures this.settings == settings && this.dictionary == dictionary && this.contextLines == contextLines
      ensures this.remote == remote && this.model == model && this.temperature == temperature
      ensures currentContext == []
    {
      this.settings := settings;
      this.dictionary := dictionary;
      this.contextLines := contextLines;
      this.remote := remote;
      this.model := model;
      this.temperature := temperature;
      currentContext := [];
    }

    /** `add_to_context`: append, then drop the oldest entry on overflow. */
    method AddToContext(e: ContextEntry)
      modifies this
      ensures currentContext == Push(contextLines, old(currentContext), e)
      ensures model == old(model) && temperature == old(temperature)
    {
      if contextLines > 0 {
        currentContext := currentContext + [e];
        if |currentContext| > contextLines {
          currentContext := currentContext[1..];
        }
      }
    }

    method ResetContext()
      modifies this
      ensures currentContext == []
      ensures model == old(model) && temperature == old(temperature)
    {
      currentContext := [];
    }

    /** The context a single-unit request carries. */
    function TextContext(useContext: bool, isName: bool): string
      reads this
    {
      if useContext && !isName && contextLines > 0 then RenderContext(currentContext) else ""
    }

    /** The context that opens a batch prompt. */
    function BatchContext(useContext: bool): string
      reads this
    {
      if useContext && contextLines > 0 then RenderContext(currentContext) + "\n\n" else ""
    }

    /** `call_llm(text, context, retry_count)`: POST until one succeeds or the
        retries run out; every POST carries the same request. */
    method CallLlm(text: string, context: string, retryCount: nat) returns (r: Option<string>)
      modifies remote
      ensures var d := Transport(old(remote.replies), Budget(settings.retryAttempts, retryCount));
        && r == d.reply
        && remote.replies == Drop(old(remote.replies), d.posts)
        && remote.log == old(remote.log) + Repeat(Request(model, temperature, UserMessage(text, context)), d.posts)
      decreases settings.retryAttempts - retryCount
    {
      var req := Request(model, temperature, UserMessage(text, context));
      var reply := remote.Post(req);
      if reply.Some? {
        return Some(Strip(reply.value));
      }
      if retryCount < settings.retryAttempts {
        r := CallLlm(text, context, retryCount + 1);
        ghost var d := Transport(Drop(old(remote.replies), 1), Budget(settings.retryAttempts, retryCount + 1));
        DropDrop(old(remote.replies), 1, d.posts);
        LogRepeats(old(remote.log), req, 1, d.posts);
      } else {
        r := None;
      }
    }

    /** `translate_text(text, is_name, use_context, retry_count)`: the
        dictionary substitution, the context, and a name the dictionary
        changes returned without a request; the rest is `TextRound`. */
    method TranslateText(text: string, isName: bool, useContext: bool, retryCount: nat) returns (r: string)
      modifies remote
      ensures var o := TextCall(settings, dictionary, old(remote.replies), text, isName, retryCount);
        && r == o.value
        && remote.replies == Drop(old(remote.replies), o.posts)
        && remote.log == old(remote.log)
             + Repeat(Request(model, temperature, UserMessage(Preprocess(text, dictionary), TextContext(useContext, isName))), o.posts)
      decreases settings.retryAttempts - retryCount, 1
    {
      var pre := PreprocessText(text, dictionary);
      var context := "";
      if useContext && !isName && contextLines > 0 {
        context := BuildContextString(currentContext);
      }
      if isName && pre != text {
        assert Drop(remote.replies, 0) == remote.replies;
        return pre;
      }
      r := TextRound(text, isName, useContext, retryCount, pre, context);
    }

    /** The rest of `translate_text`: one `call_llm`, the substituted text
        when it fails or answers empty, and a new call of `translate_text`
        with the next retry count when the answer holds Japanese. */
    method TextRound(text: string, isName: bool, useContext: bool, retryCount: nat, pre: string, context: string)
      returns (r: string)
      requires pre == Preprocess(text, dictionary) && !(isName && pre != text)
      requires context == TextContext(useContext, isName)
      modifies remote
      ensures var o := TextCall(settings, dictionary, old(remote.replies), text, isName, retryCount);
        && r == o.value
        && remote.replies == Drop(old(remote.replies), o.posts)
        && remote.log == old(remote.log) + Repeat(Request(model, temperature, UserMessage(pre, context)), o.posts)
      decreases settings.retryAttempts - retryCount, 0
    {
      ghost var replies0, log0 := remote.replies, remote.log;
      ghost var req := Request(model, temperature, UserMessage(pre, context));
      ghost var d := Transport(replies0, settings.retryAttempts);
      ghost var whole := TextCall(settings, dictionary, replies0, text, isName, retryCount);
      assert Budget(settings.retryAttempts, 0) == settings.retryAttempts;
      var translated := CallLlm(pre, context, 0);
      if translated.None? || translated.value == [] {
        r := pre;
        assert whole.value == pre && whole.posts == d.posts by {
          TextCallStep(settings, dictionary, replies0, text, isName, retryCount);
        }
      } else {
        var japanese := false;
        if settings.retryOnJapanese && retryCount < settings.retryAttempts {
          japanese := ScanForJapanese(translated.value);
        }
        if japanese {
          ghost var o := TextCall(settings, dictionary, Drop(replies0, d.posts), text, isName, retryCount + 1);
          assert whole.value == o.value && whole.posts == o.posts + d.posts by {
            TextCallStep(settings, dictionary, replies0, text, isName, retryCount);
          }
          r := TranslateText(text, isName, useContext, retryCount + 1);
          DropDrop(replies0, d.posts, o.posts);
          LogRepeats(log0, req, d.posts, o.posts);
        } else {
          r := translated.value;
          assert whole.value == r && whole.posts == d.posts by {
            TextCallStep(settings, dictionary, replies0, text, isName, retryCount);
          }
        }
      }
      assert r == whole.value && remote.replies == Drop(replies0, whole.posts) && remote.log == log0 + Repeat(req, whole.posts);
    }

    /** `translate_batch(texts, use_context, retry_count)`: no request for
        an empty list; otherwise the substituted texts and the numbered
        prompt, then `BatchRound`. */
    method TranslateBatch(texts: seq<string>, useContext: bool, retryCount: nat) returns (r: seq<string>)
      modifies remote
      ensures var o := BatchCall(settings, dictionary, old(remote.replies), texts, retryCount);
        && r == o.value
        && remote.replies == Drop(old(remote.replies), o.posts)
        && remote.log == old(remote.log)
             + Repeat(Request(model, temperature, UserMessage(BatchPrompt(BatchContext(useContext), PreAll(texts, dictionary)), "")), o.posts)
      decreases settings.retryAttempts - retryCount, 3
    {
      if texts == [] {
        assert Drop(remote.replies, 0) == remote.replies;
        return [];
      }
      var pre := PreprocessAll(texts, dictionary);
      var context := "";
      if useContext && contextLines > 0 {
        var c := BuildContextString(currentContext);
        context := c + "\n\n";
      }
      var batchText := BuildBatchPrompt(context, pre);
      r := BatchRound(texts, useContext, retryCount, pre, batchText);
    }

    /** The rest of `translate_batch`: one `call_llm` with the prompt, and
        the substituted texts when it fails or answers empty; a non-empty
        answer goes on to `BatchReply`. */
    method BatchRound(texts: seq<string>, useContext: bool, retryCount: nat, pre: seq<string>, batchText: string)
      returns (r: seq<string>)
      requires texts != [] && pre == PreAll(texts, dictionary)
      requires batchText == BatchPrompt(BatchContext(useContext), pre)
      modifies remote
      ensures var o := BatchCall(settings, dictionary, old(remote.replies), texts, retryCount);
        && r == o.value
        && remote.replies == Drop(old(remote.replies), o.posts)
        && remote.log == old(remote.log) + Repeat(Request(model, temperature, UserMessage(batchText, "")), o.posts)
      decreases settings.retryAttempts - retryCount, 2
    {
      ghost var replies0, log0 := remote.replies, remote.log;
      ghost var d := Transport(replies0, settings.retryAttempts);
      assert Budget(settings.retryAttempts, 0) == settings.retryAttempts;
      var result := CallLlm(batchText, "", 0);
      if result.None? || result.value == [] {
        BatchCallStep(settings, dictionary, replies0, texts, retryCount);
        r := pre;
      } else {
        r := BatchReply(texts, useContext, retryCount, pre, batchText, result.value, replies0);
        LogRepeats(log0, Request(model, temperature, UserMessage(batchText, "")), d.posts,
          BatchCall(settings, dictionary, replies0, texts, retryCount).posts - d.posts);
      }
    }

    /** What `translate_batch` does with a non-empty answer `reply` to the
        request that `replies0` began with: the parsed and padded lines, or
        `BatchRetry` when some translation holds Japanese. */
    method BatchReply(texts: seq<string>, useContext: bool, retryCount: nat, pre: seq<string>, batchText: string,
                      reply: string, ghost replies0: Replies)
      returns (r: seq<string>)
      requires texts != [] && pre == PreAll(texts, dictionary)
      requires batchText == BatchPrompt(BatchContext(useContext), pre)
      requires Transport(replies0, settings.retryAttempts).reply == Some(reply) && reply != []
      requires remote.replies == Drop(replies0, Transport(replies0, settings.retryAttempts).posts)
      modifies remote
      ensures var d := Transport(replies0, settings.retryAttempts);
        var o := BatchCall(settings, dictionary, replies0, texts, retryCount);
        && r == o.value
        && d.posts <= o.posts
        && remote.replies == Drop(replies0, o.posts)
        && remote.log == old(remote.log) + Repeat(Request(model, temperature, UserMessage(batchText, "")), o.posts - d.posts)
      decreases settings.retryAttempts - retryCount, 1
    {
      ghost var d := Transport(replies0, settings.retryAttempts);
      ghost var o := BatchCall(settings, dictionary, replies0, texts, retryCount);
      var scan := settings.retryOnJapanese && retryCount < settings.retryAttempts;
      var translations, hasJapanese := ReadBatchReply(reply, pre, scan);
      if hasJapanese {
        ghost var log0 := remote.log;
        r := BatchRetry(texts, useContext, retryCount, replies0);
        BatchRetryAccounts(settings, dictionary, replies0, texts, retryCount,
                           remote.replies, log0, remote.log, Request(model, temperature, UserMessage(batchText, "")));
      } else {
        assert o.value == translations && o.posts == d.posts by {
          BatchCallStep(settings, dictionary, replies0, texts, retryCount);
        }
        r := translations;
        assert remote.replies == Drop(replies0, o.posts);
        assert remote.log == old(remote.log) + Repeat(Request(model, temperature, UserMessage(batchText, "")), o.posts - d.posts);
      }
    }

    /** The retry of `translate_batch` on a Japanese answer: the whole call
        again with the next retry count, on the replies left after the first
        POSTs. */
    method BatchRetry(texts: seq<string>, useContext: bool, retryCount: nat, ghost replies0: Replies)
      returns (r: seq<string>)
      requires retryCount < settings.retryAttempts
      requires remote.replies == Drop(replies0, Transport(replies0, settings.retryAttempts).posts)
      modifies remote
      ensures var d := Transport(replies0, settings.retryAttempts);
        var o := BatchCall(settings, dictionary, Drop(replies0, d.posts), texts, retryCount + 1);
        && r == o.value
        && remote.replies == Drop(Drop(replies0, d.posts), o.posts)
        && remote.log == old(remote.log)
             + Repeat(Request(model, temperature, UserMessage(BatchPrompt(BatchContext(useContext), PreAll(texts, dictionary)), "")), o.posts)
      decreases settings.retryAttempts - retryCount, 0
    {
      r := TranslateBatch(texts, useContext, retryCount + 1);
    }

    /** The batch loop of `_translate_json_batched`: batches of
        `batchSize` items from the front, each translated without context
        and written back, Japanese results recorded as failed. */
    method FirstPassBatches(data: RecordSet, items: seq<Item>) returns (failed: seq<Item>, count: nat)
      requires settings.batchSize > 0 && AllValid(data.blocks, items)
      modifies data, remote
      ensures var first := FirstPass(settings, dictionary, old(remote.replies), Sources(items), 0);
        && data.blocks == WriteAll(old(data.blocks), items, first.ts)
        && failed == FailedOf(items, first.ts)
        && count == |items|
        && remote.replies == Drop(old(remote.replies), first.posts)
        && |remote.log| == |old(remote.log)| + first.posts
      ensures LoggedUnder(old(remote.log), remote.log, model, temperature)
    {
      ghost var bs0, replies0, log0 := data.blocks, remote.replies, remote.log;
      ghost var first := FirstPass(settings, dictionary, replies0, Sources(items), 0);
      ghost var posts: nat := 0;
      assert Drop(replies0, 0) == replies0;
      assert log0[..|log0|] == log0;
      failed, count := [], 0;
      var start := 0;
      while start < |items|
        invariant start <= |items|
        invariant remote.replies == Drop(replies0, posts) && |remote.log| == |log0| + posts
        invariant LoggedUnder(log0, remote.log, model, temperature)
        invariant var rest := FirstPass(settings, dictionary, remote.replies, Sources(items), start);
          first.posts == posts + rest.posts && first.ts[start..] == rest.ts
        invariant data.blocks == WriteFirst(bs0, items, first.ts, start)
        invariant failed == FailedFirst(items, first.ts, start)
        invariant count == start
        decreases |items| - start
      {
        var end; ghost var p;
        end, failed, p := FirstPassRound(data, items, start, bs0, first.ts, replies0, log0, posts, failed);
        posts := posts + p;
        count := count + (end - start);
        start := end;
      }
    }

    /** One batch of the first-pass loop, translated and written back: the
        loop's state at `start` becomes its state at the batch's end. */
    method FirstPassRound(data: RecordSet, items: seq<Item>, start: nat, ghost bs0: seq<Block>, ghost ts: seq<string>,
                          ghost replies0: Replies, ghost log0: seq<Request>, ghost posts: nat, failed0: seq<Item>)
      returns (end: nat, failed: seq<Item>, ghost p: nat)
      requires settings.batchSize > 0 && start < |items| && |ts| == |items| && AllValid(bs0, items)
      requires remote.replies == Drop(replies0, posts) && LoggedUnder(log0, remote.log, model, temperature)
      requires ts[start..] == FirstPass(settings, dictionary, remote.replies, Sources(items), start).ts
      requires data.blocks == WriteFirst(bs0, items, ts, start) && failed0 == FailedFirst(items, ts, start)
      modifies data, remote
      ensures start < end <= |items|
      ensures remote.replies == Drop(replies0, posts + p) && |remote.log| == |old(remote.log)| + p
      ensures LoggedUnder(log0, remote.log, model, temperature)
      ensures var rest := FirstPass(settings, dictionary, old(remote.replies), Sources(items), start);
        var rest' := FirstPass(settings, dictionary, remote.replies, Sources(items), end);
        rest.posts == p + rest'.posts && ts[end..] == rest'.ts
      ensures data.blocks == WriteFirst(bs0, items, ts, end) && failed == FailedFirst(items, ts, end)
    {
      var translations;
      ghost var logBefore := remote.log;
      end, translations, p := TranslateFirstBatch(items, start);
      DropDrop(replies0, posts, p);
      LoggedUnderTrans(log0, logBefore, remote.log, model, temperature);
      ghost var rest' := FirstPass(settings, dictionary, remote.replies, Sources(items), end);
      assert ts[start..] == translations + rest'.ts;
      assert ts[start..][..end - start] == translations;
      assert ts[end..] == ts[start..][end - start..];
      assert translations == ts[start..end];
      var count;
      failed, count := WriteFirstBatch(data, items, start, end, translations, bs0, ts, failed0, 0);
    }

    /** `translate_batch(texts, use_context=False)`: the translations, the
        POSTs made, each under the current model and temperature. */
    method TranslateBatchNoContext(texts: seq<string>) returns (r: seq<string>)
      modifies remote
      ensures var o := BatchCall(settings, dictionary, old(remote.replies), texts, 0);
        && r == o.value
        && remote.replies == Drop(old(remote.replies), o.posts)
        && |remote.log| == |old(remote.log)| + o.posts
        && remote.log[..|old(remote.log)|] == old(remote.log)
      ensures forall k :: |old(remote.log)| <= k < |remote.log| ==>
        remote.log[k].model == model && remote.log[k].temperature == temperature
    {
      ghost var log0 := remote.log;
      r := TranslateBatch(texts, false, 0);
      forall k | |log0| <= k < |remote.log|
        ensures remote.log[k].model == model && remote.log[k].temperature == temperature
      {
        assert remote.log[k] == remote.log[|log0|..][k - |log0|];
      }
    }

    /** One batch of the first pass: the sources of the items from `start`
        on, up to `batchSize` of them, translated without context. */
    method TranslateFirstBatch(items: seq<Item>, start: nat) returns (end: nat, translations: seq<string>, ghost posts: nat)
      requires settings.batchSize > 0 && start < |items|
      modifies remote
      ensures start < end <= |items| && |translations| == end - start
      ensures var rest := FirstPass(settings, dictionary, old(remote.replies), Sources(items), start);
        var rest' := FirstPass(settings, dictionary, remote.replies, Sources(items), end);
        && rest.ts == translations + rest'.ts
        && rest.posts == posts + rest'.posts
      ensures remote.replies == Drop(old(remote.replies), posts) && |remote.log| == |old(remote.log)| + posts
      ensures LoggedUnder(old(remote.log), remote.log, model, temperature)
    {
      ghost var sources := Sources(items);
      end := Min(start + settings.batchSize, |items|);
      var batchTexts := Sources(items[start..end]);
      assert batchTexts == sources[start..end];
      ghost var replies0 := remote.replies;
      ghost var o := BatchCall(settings, dictionary, replies0, batchTexts, 0);
      ghost var rest := FirstPass(settings, dictionary, Drop(replies0, o.posts), sources, end);
      assert FirstPass(settings, dictionary, replies0, sources, start) == Run(o.value + rest.ts, o.posts + rest.posts) by {
        FirstPassStep(settings, dictionary, replies0, sources, start);
      }
      translations := TranslateBatchNoContext(batchTexts);
      posts := o.posts;
    }

    /** `_translate_json_batched`: collect the pending units, translate them
        batch by batch, and, when two-pass translation is on and some
        translation still holds Japanese, run the second pass on those. */
    method TranslateJsonBatched(data: RecordSet) returns (count: nat)
      requires settings.batchSize > 0
      modifies data, remote, this
      ensures var r := BatchedRun(settings, dictionary, old(model), old(remote.replies), old(data.blocks));
        && data.blocks == r.blocks && count == r.count
        && remote.replies == Drop(old(remote.replies), r.posts)
        && |remote.log| == |old(remote.log)| + r.posts
      ensures var first := FirstPass(settings, dictionary, old(remote.replies), Sources(PendingItems(old(data.blocks))), 0);
        var n := |old(remote.log)| + first.posts;
        && n <= |remote.log|
        && LoggedUnder(old(remote.log), remote.log[..n], old(model), old(temperature))
        && LoggedUnder(remote.log[..n], remote.log, SecondModel(settings, old(model)), settings.secondPassTemperature)
      ensures model == old(model) && temperature == old(temperature) && currentContext == old(currentContext)
    {
      var items := CollectPending(data.blocks);
      ghost var log0 := remote.log;
      assert log0[..|log0|] == log0;
      if items == [] {
        assert Drop(remote.replies, 0) == remote.replies;
        return 0;
      }
      ghost var bs0, replies0 := data.blocks, remote.replies;
      ghost var first := FirstPass(settings, dictionary, replies0, Sources(items), 0);
      var failed: seq<Item>;
      failed, count := FirstPassBatches(data, items);
      ghost var logMid := remote.log;
      assert remote.log[..|logMid|] == logMid;
      if failed != [] && settings.enableTwoPass {
        FailedValid(bs0, items, first.ts, data.blocks);
        var fixed := SecondPassTranslation(data, failed);
        ghost var sp := SecondPass(settings, dictionary, Drop(replies0, first.posts), WriteAll(bs0, items, first.ts), failed, 0);
        DropDrop(replies0, first.posts, sp.posts);
        count := count + fixed;
      }
    }

    /** `_second_pass_translation`: nothing to do without failed units or
        without a second model different from the current one; otherwise
        the failed units are translated again under the second model and
        temperature, which are then restored. */
    method SecondPassTranslation(data: RecordSet, failed: seq<Item>) returns (fixed: nat)
      requires settings.batchSize > 0 && AllValid(data.blocks, failed)
      modifies data, remote, this
      ensures model == old(model) && temperature == old(temperature) && currentContext == old(currentContext)
      ensures failed == [] || SecondModel(settings, old(model)) == old(model) ==>
        && fixed == 0 && data.blocks == old(data.blocks)
        && remote.replies == old(remote.replies) && remote.log == old(remote.log)
      ensures failed != [] && SecondModel(settings, old(model)) != old(model) ==>
        var sp := SecondPass(settings, dictionary, old(remote.replies), old(data.blocks), failed, 0);
        && data.blocks == sp.blocks && fixed == sp.fixed
        && remote.replies == Drop(old(remote.replies), sp.posts)
        && |remote.log| == |old(remote.log)| + sp.posts
      ensures LoggedUnder(old(remote.log), remote.log, SecondModel(settings, old(model)), settings.secondPassTemperature)
    {
      assert remote.log[..|remote.log|] == remote.log;
      if failed == [] {
        return 0;
      }
      var originalModel, originalTemp := model, temperature;
      var secondModel := SecondModel(settings, originalModel);
      var secondTemp := settings.secondPassTemperature;
      if secondModel == originalModel {
        return 0;
      }
      model, temperature := secondModel, secondTemp;
      fixed := SecondPassBatches(data, failed);
      model, temperature := originalModel, originalTemp;
    }

    /** The batch loop of the second pass: each batch of failed units is
        translated again without context; a batch whose translations are
        all empty ends the loop, otherwise the usable translations are
        written back. */
    method SecondPassBatches(data: RecordSet, failed: seq<Item>) returns (fixed: nat)
      requires settings.batchSize > 0 && AllValid(data.blocks, failed)
      modifies data, remote
      ensures var sp := SecondPass(settings, dictionary, old(remote.replies), old(data.blocks), failed, 0);
        && data.blocks == sp.blocks && fixed == sp.fixed
        && remote.replies == Drop(old(remote.replies), sp.posts)
        && |remote.log| == |old(remote.log)| + sp.posts
      ensures LoggedUnder(old(remote.log), remote.log, model, temperature)
    {
      ghost var replies0, log0, bs0 := remote.replies, remote.log, data.blocks;
      assert log0[..|log0|] == log0;
      ghost var total := SecondPass(settings, dictionary, replies0, bs0, failed, 0);
      ghost var posts: nat := 0;
      fixed := 0;
      var i := 0;
      while i < |failed|
        invariant i <= |failed| && AllValid(data.blocks, failed)
        invariant remote.replies == Drop(replies0, posts) && |remote.log| == |log0| + posts
        invariant LoggedUnder(log0, remote.log, model, temperature)
        invariant var rest := SecondPass(settings, dictionary, remote.replies, data.blocks, failed, i);
          total == Sweep(rest.blocks, fixed + rest.fixed, posts + rest.posts, rest.stopped)
        decreases |failed| - i
      {
        var end, n, stop;
        ghost var p;
        end, n, stop, p := SecondPassRound(data, failed, i, replies0, log0, posts);
        posts := posts + p;
        if stop {
          break;
        }
        fixed := fixed + n;
        i := end;
      }
    }

    /** One round of the second-pass loop: the batch of failed units from
        `i` on is translated again; `stop` reports a batch that came back
        all empty, otherwise the usable translations are written back. */
    method SecondPassRound(data: RecordSet, failed: seq<Item>, i: nat, ghost replies0: Replies, ghost log0: seq<Request>, ghost posts: nat)
      returns (end: nat, n: nat, stop: bool, ghost p: nat)
      requires settings.batchSize > 0 && i < |failed| && AllValid(data.blocks, failed)
      requires remote.replies == Drop(replies0, posts) && |remote.log| == |log0| + posts
      requires LoggedUnder(log0, remote.log, model, temperature)
      modifies data, remote
      ensures remote.replies == Drop(replies0, posts + p) && |remote.log| == |log0| + posts + p
      ensures LoggedUnder(log0, remote.log, model, temperature)
      ensures stop ==>
        && data.blocks == old(data.blocks)
        && SecondPass(settings, dictionary, old(remote.replies), old(data.blocks), failed, i) == Sweep(data.blocks, 0, p, true)
      ensures !stop ==>
        && i < end <= |failed| && AllValid(data.blocks, failed)
        && var rest' := SecondPass(settings, dictionary, remote.replies, data.blocks, failed, end);
          SecondPass(settings, dictionary, old(remote.replies), old(data.blocks), failed, i)
            == Sweep(rest'.blocks, n + rest'.fixed, p + rest'.posts, rest'.stopped)
    {
      end := Min(i + settings.batchSize, |failed|);
      var batch := failed[i..end];
      ghost var replies1, bs1 := remote.replies, data.blocks;
      ghost var o := BatchCall(settings, dictionary, replies1, Sources(batch), 0);
      ghost var logBefore := remote.log;
      var translations := TranslateBatchNoContext(Sources(batch));
      DropDrop(replies0, posts, o.posts);
      p := o.posts;
      LoggedUnderTrans(log0, logBefore, remote.log, model, temperature);
      stop := AllEmpty(translations);
      if stop {
        assert SecondPass(settings, dictionary, replies1, bs1, failed, i) == Sweep(bs1, 0, o.posts, true) by {
          SecondPassStop(settings, dictionary, replies1, bs1, failed, i, end);
        }
        n := 0;
        return;
      }
      ghost var w := FixAll(bs1, batch, translations);
      ghost var r := SecondPass(settings, dictionary, remote.replies, w.0, failed, end);
      assert AllValid(w.0, failed)
        && SecondPass(settings, dictionary, replies1, bs1, failed, i) == Sweep(r.blocks, w.1 + r.fixed, o.posts + r.posts, r.stopped)
      by {
        SecondPassGo(settings, dictionary, replies1, bs1, failed, i, end);
      }
      n := FixBatch(data, batch, translations);
    }

    /** One block of `_translate_json_sequential`: its name without context,
        its text with context, the block into the context window, then its
        choices. */
    method TranslateSeqBlock(data: RecordSet, i: nat) returns (n: nat)
      requires i < |data.blocks|
      modifies data, remote, this
      ensures var b := SeqBlock(settings, dictionary, contextLines, old(remote.replies), old(currentContext), old(data.blocks[i]));
        && data.blocks == old(data.blocks)[i := b.block]
        && currentContext == b.window && n == b.count
        && remote.replies == Drop(old(remote.replies), b.posts)
        && |remote.log| == |old(remote.log)| + b.posts
      ensures model == old(model) && temperature == old(temperature)
    {
      ghost var replies0, bs0 := remote.replies, data.blocks;
      var block := data.blocks[i];
      ghost var h := SeqHead(settings, dictionary, replies0, block);
      var enName, enText, n1 := TranslateSeqHead(data, i);
      AddToContext(ContextEntry(block.jpName, block.jpText, enName, enText));
      ghost var bs1 := data.blocks;
      var c := TranslateSeqChoices(data, i);
      ghost var cr := SeqChoices(settings, dictionary, Drop(replies0, h.posts), block.choices);
      DropDrop(replies0, h.posts, cr.posts);
      assert bs1[i].choices == block.choices;
      assert data.blocks == bs0[i := block.(enName := h.enName, enText := h.enText, choices := cr.choices)];
      n := n1 + c;
    }

    /** `slot = translate_text(text, ...)`: one text translated and written
        to its slot. */
    method TranslateInto(data: RecordSet, slot: Slot, text: string, isName: bool, useContext: bool) returns (r: string)
      requires ValidSlot(data.blocks, slot)
      modifies data, remote
      ensures var o := TextCall(settings, dictionary, old(remote.replies), text, isName, 0);
        && r == o.value
        && data.blocks == SetTarget(old(data.blocks), slot, r)
        && remote.replies == Drop(old(remote.replies), o.posts)
        && |remote.log| == |old(remote.log)| + o.posts
    {
      r := TranslateText(text, isName, useContext, 0);
      data.Write(slot, r);
    }

    /** The first half of one block of `_translate_json_sequential`: its
        name without context, then its text with context. */
    method TranslateSeqHead(data: RecordSet, i: nat) returns (enName: string, enText: string, n: nat)
      requires i < |data.blocks|
      modifies data, remote
      ensures var b := old(data.blocks[i]);
        var h := SeqHead(settings, dictionary, old(remote.replies), b);
        && enName == h.enName && enText == h.enText && n == h.count
        && data.blocks == old(data.blocks)[i := b.(enName := h.enName, enText := h.enText)]
        && remote.replies == Drop(old(remote.replies), h.posts)
        && |remote.log| == |old(remote.log)| + h.posts
    {
      ghost var replies0 := remote.replies;
      var block := data.blocks[i];
      ghost var p1, p2;
      enName, p1 := TranslateSeqName(data, i);
      enText, p2 := TranslateSeqText(data, i);
      DropDrop(replies0, p1, p2);
      n := (if SeqNameDue(block) then 1 else 0) + (if TextWanted(block) then 1 else 0);
    }

    /** The name step of one block: a due name translated without context
        and written back; `p` is the number of POSTs it took. */
    method TranslateSeqName(data: RecordSet, i: nat) returns (enName: string, ghost p: nat)
      requires i < |data.blocks|
      modifies data, remote
      ensures var b := old(data.blocks[i]);
        var o := TextCall(settings, dictionary, old(remote.replies), b.jpName, true, 0);
        && enName == (if SeqNameDue(b) then o.value else b.enName)
        && p == (if SeqNameDue(b) then o.posts else 0)
        && data.blocks == old(data.blocks)[i := b.(enName := enName)]
        && remote.replies == Drop(old(remote.replies), p)
        && |remote.log| == |old(remote.log)| + p
    {
      var block := data.blocks[i];
      if SeqNameDue(block) {
        enName := TranslateInto(data, NameSlot(i), block.jpName, true, false);
        p := TextCall(settings, dictionary, old(remote.replies), block.jpName, true, 0).posts;
      } else {
        enName, p := block.enName, 0;
        assert block.(enName := enName) == block;
        assert Drop(old(remote.replies), 0) == old(remote.replies);
      }
    }

    /** The text step of one block: a due text translated with context and
        written back; `p` is the number of POSTs it took. */
    method TranslateSeqText(data: RecordSet, i: nat) returns (enText: string, ghost p: nat)
      requires i < |data.blocks|
      modifies data, remote
      ensures var b := old(data.blocks[i]);
        var o := TextCall(settings, dictionary, old(remote.replies), b.jpText, false, 0);
        && enText == (if TextWanted(b) then o.value else b.enText)
        && p == (if TextWanted(b) then o.posts else 0)
        && data.blocks == old(data.blocks)[i := b.(enText := enText)]
        && remote.replies == Drop(old(remote.replies), p)
        && |remote.log| == |old(remote.log)| + p
    {
      var block := data.blocks[i];
      if TextWanted(block) {
        enText := TranslateInto(data, TextSlot(i), block.jpText, false, true);
        p := TextCall(settings, dictionary, old(remote.replies), block.jpText, false, 0).posts;
      } else {
        enText, p := block.enText, 0;
        assert block.(enText := enText) == block;
        assert Drop(old(remote.replies), 0) == old(remote.replies);
      }
    }

    /** The choice loop of `_translate_json_sequential` for block `i`: each
        choice with an empty target and a non-empty source translated with
        context. */
    method TranslateSeqChoices(data: RecordSet, i: nat) returns (n: nat)
      requires i < |data.blocks|
      modifies data, remote
      ensures var b := old(data.blocks[i]);
        var cr := SeqChoices(settings, dictionary, old(remote.replies), b.choices);
        && data.blocks == old(data.blocks)[i := b.(choices := cr.choices)]
        && n == cr.count
        && remote.replies == Drop(old(remote.replies), cr.posts)
        && |remote.log| == |old(remote.log)| + cr.posts
    {
      ghost var bs0, replies0, log0 := data.blocks, remote.replies, remote.log;
      var cs := data.blocks[i].choices;
      assert Drop(replies0, 0) == replies0;
      assert SeqChoices(settings, dictionary, replies0, cs[..0]) == ChoiceRun([], 0, 0) by {
        assert cs[..0] == [];
      }
      assert [] + cs[0..] == cs;
      assert bs0[i := bs0[i].(choices := cs)] == bs0;
      n := 0;
      for c := 0 to |cs|
        invariant var cr := SeqChoices(settings, dictionary, replies0, cs[..c]);
          && data.blocks == bs0[i := bs0[i].(choices := cr.choices + cs[c..])]
          && n == cr.count
          && remote.replies == Drop(replies0, cr.posts)
          && |remote.log| == |log0| + cr.posts
      {
        var k := TranslateSeqChoice(data, i, cs, c, bs0, replies0, log0);
        n := n + k;
      }
      assert cs[..|cs|] == cs;
      ghost var cr := SeqChoices(settings, dictionary, replies0, cs);
      assert cr.choices + cs[|cs|..] == cr.choices;
    }

    /** One turn of the choice loop: choice `c` of block `i`, translated
        with context when its target is empty and its source is not;
        `k` is 1 when it was translated and 0 otherwise. */
    method TranslateSeqChoice(data: RecordSet, i: nat, cs: seq<Choice>, c: nat,
                              ghost bs0: seq<Block>, ghost replies0: Replies, ghost log0: seq<Request>)
      returns (k: nat)
      requires i < |bs0| && cs == bs0[i].choices && c < |cs|
      requires var cr := SeqChoices(settings, dictionary, replies0, cs[..c]);
        && data.blocks == bs0[i := bs0[i].(choices := cr.choices + cs[c..])]
        && remote.replies == Drop(replies0, cr.posts)
        && |remote.log| == |log0| + cr.posts
      modifies data, remote
      ensures var cr := SeqChoices(settings, dictionary, replies0, cs[..c + 1]);
        && data.blocks == bs0[i := bs0[i].(choices := cr.choices + cs[c + 1..])]
        && remote.replies == Drop(replies0, cr.posts)
        && |remote.log| == |log0| + cr.posts
        && cr.count == SeqChoices(settings, dictionary, replies0, cs[..c]).count + k
    {
      ghost var cr := SeqChoices(settings, dictionary, replies0, cs[..c]);
      SeqChoicesStep(settings, dictionary, replies0, cs, c);
      var choice := cs[c];
      if choice.enText == [] && choice.jpText != [] {
        var en := TranslateInto(data, ChoiceSlot(i, c), choice.jpText, false, true);
        DropDrop(replies0, cr.posts, TextCall(settings, dictionary, Drop(replies0, cr.posts), choice.jpText, false, 0).posts);
        SpliceAt(cr.choices, cs, c, choice.(enText := en));
        k := 1;
      } else {
        SpliceAt(cr.choices, cs, c, choice);
        k := 0;
      }
    }

    /** `_translate_json_sequential`: every block in document order, the
        context window carried from one block to the next. */
    method TranslateJsonSequential(data: RecordSet) returns (count: nat)
      modifies data, remote, this
      ensures var r := SeqRun(settings, dictionary, contextLines, old(remote.replies), old(currentContext), old(data.blocks));
        && data.blocks == r.blocks && count == r.count && currentContext == r.window
        && remote.replies == Drop(old(remote.replies), r.posts)
        && |remote.log| == |old(remote.log)| + r.posts
      ensures model == old(model) && temperature == old(temperature)
    {
      ghost var bs0, replies0, window0, log0 := data.blocks, remote.replies, currentContext, remote.log;
      assert Drop(replies0, 0) == replies0;
      count := 0;
      for i := 0 to |data.blocks|
        invariant |data.blocks| == |bs0|
        invariant var p := SeqRun(settings, dictionary, contextLines, replies0, window0, bs0[..i]);
          && data.blocks == p.blocks + bs0[i..]
          && currentContext == p.window && count == p.count
          && remote.replies == Drop(replies0, p.posts)
          && |remote.log| == |log0| + p.posts
        invariant model == old(model) && temperature == old(temperature)
      {
        var n := TranslateSeqTurn(data, i, bs0, replies0, window0, log0);
        count := count + n;
      }
      assert bs0[..|bs0|] == bs0;
    }

    /** One turn of the block loop of `_translate_json_sequential`: block
        `i`, from the window and the replies the blocks before it left. */
    method TranslateSeqTurn(data: RecordSet, i: nat, ghost bs0: seq<Block>, ghost replies0: Replies,
                            ghost window0: seq<ContextEntry>, ghost log0: seq<Request>)
      returns (n: nat)
      requires i < |bs0|
      requires var p := SeqRun(settings, dictionary, contextLines, replies0, window0, bs0[..i]);
        && data.blocks == p.blocks + bs0[i..]
        && currentContext == p.window
        && remote.replies == Drop(replies0, p.posts)
        && |remote.log| == |log0| + p.posts
      modifies data, remote, this
      ensures var p := SeqRun(settings, dictionary, contextLines, replies0, window0, bs0[..i + 1]);
        && data.blocks == p.blocks + bs0[i + 1..]
        && currentContext == p.window
        && remote.replies == Drop(replies0, p.posts)
        && |remote.log| == |log0| + p.posts
        && p.count == SeqRun(settings, dictionary, contextLines, replies0, window0, bs0[..i]).count + n
      ensures model == old(model) && temperature == old(temperature)
    {
      ghost var p := SeqRun(settings, dictionary, contextLines, replies0, window0, bs0[..i]);
      assert bs0[..i + 1][..i] == bs0[..i] && bs0[..i + 1][i] == bs0[i];
      SeqRunStep(settings, dictionary, contextLines, replies0, window0, bs0[..i + 1]);
      assert data.blocks[i] == bs0[i];
      ghost var b := SeqBlock(settings, dictionary, contextLines, remote.replies, currentContext, bs0[i]);
      n := TranslateSeqBlock(data, i);
      DropDrop(replies0, p.posts, b.posts);
      SpliceAt(p.blocks, bs0, i, b.block);
    }

    /** `_clean_monologue_names`: clear a "Monologue" name, and a
        "Monologue" text whose source line is empty or blank; return how
        many fields were cleared. */
    method CleanMonologueNames(data: RecordSet) returns (cleaned: nat)
      modifies data
      ensures data.blocks == CleanAll(old(data.blocks))
      ensures cleaned == Cleaned(old(data.blocks))
    {
      ghost var bs := data.blocks;
      var cleanedNames, cleanedTexts := 0, 0;
      for i := 0 to |data.blocks|
        invariant |data.blocks| == |bs|
        invariant forall k :: 0 <= k < i ==> data.blocks[k] == CleanBlock(bs[k])
        invariant forall k :: i <= k < |bs| ==> data.blocks[k] == bs[k]
        invariant cleanedNames + cleanedTexts == Cleaned(bs[..i])
      {
        assert bs[..i + 1][..i] == bs[..i];
        var name, text := CleanAt(data, i);
        cleanedNames := cleanedNames + name;
        cleanedTexts := cleanedTexts + text;
      }
      assert bs[..|bs|] == bs;
      cleaned := cleanedNames + cleanedTexts;
    }

    /** One block of the cleanup loop: its name and its text cleared where
        the pass clears them, and how many of each were cleared. */
    method CleanAt(data: RecordSet, i: nat) returns (name: nat, text: nat)
      requires i < |data.blocks|
      modifies data
      ensures data.blocks == old(data.blocks)[i := CleanBlock(old(data.blocks)[i])]
      ensures name + text == BlockCleaned(old(data.blocks)[i])
    {
      var block := data.blocks[i];
      name, text := 0, 0;
      if IsMonologue(block.enName) {
        data.Write(NameSlot(i), "");
        name := 1;
      }
      StripFacts(block.jpText);
      if (block.jpText == [] || Strip(block.jpText) == []) && IsMonologue(block.enText) {
        data.Write(TextSlot(i), "");
        text := 1;
      }
    }

    /** `translate_json_file` on a loaded record set: reset the context,
        run the batched or the sequential driver, then the cleanup pass.
        The count is the one it reports. */
    method TranslateJsonFile(data: RecordSet) returns (count: nat)
      requires settings.useBatch ==> settings.batchSize > 0
      modifies data, remote, this
      ensures settings.useBatch ==>
        var r := BatchedRun(settings, dictionary, old(model), old(remote.replies), old(data.blocks));
        && data.blocks == CleanAll(r.blocks) && count == r.count
        && remote.replies == Drop(old(remote.replies), r.posts)
        && currentContext == []
      ensures !settings.useBatch ==>
        var r := SeqRun(settings, dictionary, contextLines, old(remote.replies), [], old(data.blocks));
        && data.blocks == CleanAll(r.blocks) && count == r.count
        && remote.replies == Drop(old(remote.replies), r.posts)
        && currentContext == r.window
      ensures model == old(model) && temperature == old(temperature)
    {
      ResetContext();
      if settings.useBatch {
        count := TranslateJsonBatched(data);
      } else {
        count := TranslateJsonSequential(data);
      }
      var _ := CleanMonologueNames(data);
    }
  }
}
