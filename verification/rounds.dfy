/**
  What one `translate_text` or `translate_batch` call returns, as a function
  of the replies the service will give. A round is one `call_llm` (itself up
  to `attempts + 1` POSTs); a round whose answer still holds Japanese calls
  the translation again with the next round number, while retries on
  Japanese are enabled and the round number is below `attempts`. An empty
  answer or a failed call falls back to the dictionary-substituted input.
 */
module Rounds {
  import opened Wrappers
  import opened Strings
  import opened Script
  import opened Dictionary
  import opened Remote
  import opened BatchCodec

  /** The translation settings the core reads. `secondPassModel == None`
      means the key is absent, which makes the second model the primary one. */
  datatype Settings = Settings(
    retryAttempts: nat,
    retryOnJapanese: bool,
    useBatch: bool,
    batchSize: nat,
    enableTwoPass: bool,
    secondPassModel: Option<string>,
    secondPassTemperature: Temperature)

  /** The model the second pass switches to. */
  function SecondModel(s: Settings, model: string): string {
    s.secondPassModel.GetOr(model)
  }

  function PreAll(texts: seq<string>, terms: Terms): (r: seq<string>)
    ensures |r| == |texts| && forall i :: 0 <= i < |texts| ==> r[i] == Preprocess(texts[i], terms)
  {
    seq(|texts|, i requires 0 <= i < |texts| => Preprocess(texts[i], terms))
  }

  /** The value returned, the POSTs made, the rounds run, and whether the
      last round fell back to the substituted input. */
  datatype Outcome<T> = Outcome(value: T, posts: nat, rounds: nat, fellBack: bool)

  /** A name the dictionary changes is looked up, not translated. */
  predicate NameShortcut(terms: Terms, text: string, isName: bool) {
    isName && Preprocess(text, terms) != text
  }

  /** `translate_text(text, is_name, _, round)`: a name the dictionary
      changes is returned substituted without a request; otherwise the
      rounds run. The result is never empty unless it is the substitution. */
  function TextCall(s: Settings, terms: Terms, replies: Replies, text: string, isName: bool, round: nat)
    : (o: Outcome<string>)
    ensures o.value != [] || o.value == Preprocess(text, terms)
    decreases s.retryAttempts - round, 1
  {
    if NameShortcut(terms, text, isName) then Outcome(Preprocess(text, terms), 0, 0, false)
    else TextRounds(s, terms, replies, text, isName, round)
  }

  /** The rounds of `translate_text` from round number `round` on, once the
      name shortcut has not applied. */
  function TextRounds(s: Settings, terms: Terms, replies: Replies, text: string, isName: bool, round: nat)
    : (o: Outcome<string>)
    requires !NameShortcut(terms, text, isName)
    ensures o.value != [] || o.value == Preprocess(text, terms)
    decreases s.retryAttempts - round, 0
  {
    var d := Transport(replies, s.retryAttempts);
    if d.reply.None? || d.reply.value == [] then Outcome(Preprocess(text, terms), d.posts, 1, true)
    else if s.retryOnJapanese && round < s.retryAttempts && ContainsJapanese(d.reply.value) then
      var o := TextCall(s, terms, Drop(replies, d.posts), text, isName, round + 1);
      Outcome(o.value, o.posts + d.posts, o.rounds + 1, o.fellBack)
    else Outcome(d.reply.value, d.posts, 1, false)
  }

  /** One result per submitted text from a non-empty reply: the parsed
      lines, padded with the substituted texts and cut to length. */
  function Answer(reply: string, pre: seq<string>): (ts: seq<string>)
    ensures Answered(ts, pre)
  {
    FitKeepsNonEmpty(ParseReply(reply), pre);
    Fit(ParseReply(reply), pre)
  }

  /** Padding a parse of non-empty lines leaves every cell either non-empty
      or the substituted text at its position. */
  lemma FitKeepsNonEmpty(parsed: seq<string>, pre: seq<string>)
    requires forall i :: 0 <= i < |parsed| ==> parsed[i] != []
    ensures forall i :: 0 <= i < |pre| ==> Fit(parsed, pre)[i] != [] || Fit(parsed, pre)[i] == pre[i]
  {
  }

  /** One result per substituted text, each non-empty or that text itself. */
  predicate Answered(ts: seq<string>, pre: seq<string>) {
    |ts| == |pre| && forall i :: 0 <= i < |pre| ==> ts[i] != [] || ts[i] == pre[i]
  }

  /** `translate_batch(texts, _, round)`: one result per text, each non-empty
      or the text's substitution; no request for an empty list. */
  function BatchCall(s: Settings, terms: Terms, replies: Replies, texts: seq<string>, round: nat)
    : (o: Outcome<seq<string>>)
    ensures |o.value| == |texts|
    ensures forall i :: 0 <= i < |texts| ==> o.value[i] != [] || o.value[i] == Preprocess(texts[i], terms)
    decreases s.retryAttempts - round, 1
  {
    if texts == [] then Outcome([], 0, 0, false)
    else BatchRounds(s, terms, replies, texts, round)
  }

  /** The rounds of `translate_batch` from round number `round` on, for a
      non-empty list: one result per text, each a parsed line or, past the
      end of the parse, the substituted text itself. */
  function BatchRounds(s: Settings, terms: Terms, replies: Replies, texts: seq<string>, round: nat)
    : (o: Outcome<seq<string>>)
    requires texts != []
    ensures Answered(o.value, PreAll(texts, terms))
    decreases s.retryAttempts - round, 0
  {
    var pre := PreAll(texts, terms);
    var d := Transport(replies, s.retryAttempts);
    if d.reply.None? || d.reply.value == [] then Outcome(pre, d.posts, 1, true)
    else
      var ts := Answer(d.reply.value, pre);
      if s.retryOnJapanese && round < s.retryAttempts && AnyJapanese(ts) then
        var o := BatchCall(s, terms, Drop(replies, d.posts), texts, round + 1);
        Outcome(o.value, o.posts + d.posts, o.rounds + 1, o.fellBack)
      else Outcome(ts, d.posts, 1, false)
  }

  lemma MulSucc(x: nat, y: nat)
    ensures (x + 1) * y == x * y + y
  {
  }

  /** What one `translate_text` call does: a dictionary name costs nothing;
      otherwise between one round and the rounds left, each of at most
      `attempts + 1` POSTs; a fallback gives the substitution, any other
      result is non-empty, and a result still holding Japanese with retries
      on Japanese enabled means the rounds ran out. */
  lemma {:induction false} TextCallFacts(s: Settings, terms: Terms, replies: Replies, text: string, isName: bool, round: nat)
    ensures var o := TextCall(s, terms, replies, text, isName, round);
      && (NameShortcut(terms, text, isName) ==> o == Outcome(Preprocess(text, terms), 0, 0, false))
      && o.rounds <= Budget(s.retryAttempts, round) + 1
      && o.rounds <= o.posts <= o.rounds * (s.retryAttempts + 1)
      && (o.fellBack ==> o.value == Preprocess(text, terms))
      && (!NameShortcut(terms, text, isName) ==>
        && 1 <= o.rounds
        && (!o.fellBack ==> o.value != [])
        && (!o.fellBack && s.retryOnJapanese && ContainsJapanese(o.value) ==> round + o.rounds > s.retryAttempts))
    decreases s.retryAttempts - round
  {
    if !NameShortcut(terms, text, isName) {
      assert TextCall(s, terms, replies, text, isName, round) == TextRounds(s, terms, replies, text, isName, round);
      var d := Transport(replies, s.retryAttempts);
      if d.reply.Some? && d.reply.value != [] && s.retryOnJapanese && round < s.retryAttempts && ContainsJapanese(d.reply.value) {
        var o := TextCall(s, terms, Drop(replies, d.posts), text, isName, round + 1);
        TextCallFacts(s, terms, Drop(replies, d.posts), text, isName, round + 1);
        MulSucc(o.rounds, s.retryAttempts + 1);
      }
    }
  }

  /** What one `translate_batch` call costs: an empty list nothing;
      otherwise between one round and the rounds left, each of at most
      `attempts + 1` POSTs. */
  lemma {:induction false} BatchCallCost(s: Settings, terms: Terms, replies: Replies, texts: seq<string>, round: nat)
    ensures var o := BatchCall(s, terms, replies, texts, round);
      && (texts == [] ==> o == Outcome([], 0, 0, false))
      && (texts != [] ==> 1 <= o.rounds)
      && o.rounds <= Budget(s.retryAttempts, round) + 1
      && o.rounds <= o.posts <= o.rounds * (s.retryAttempts + 1)
    decreases s.retryAttempts - round
  {
    if texts != [] {
      var o := BatchCall(s, terms, replies, texts, round);
      assert o == BatchRounds(s, terms, replies, texts, round);
      var d := Transport(replies, s.retryAttempts);
      if d.reply.Some? && d.reply.value != [] && s.retryOnJapanese && round < s.retryAttempts
        && AnyJapanese(Answer(d.reply.value, PreAll(texts, terms)))
      {
        var o' := BatchCall(s, terms, Drop(replies, d.posts), texts, round + 1);
        BatchCallCost(s, terms, Drop(replies, d.posts), texts, round + 1);
        assert o.posts == o'.posts + d.posts && o.rounds == o'.rounds + 1;
        MulSucc(o'.rounds, s.retryAttempts + 1);
      }
    }
  }

  /** What one `translate_batch` call returns: a fallback gives the
      substitutions, and a result still holding Japanese with retries on
      Japanese enabled means the rounds ran out. */
  lemma {:induction false} BatchCallValue(s: Settings, terms: Terms, replies: Replies, texts: seq<string>, round: nat)
    ensures var o := BatchCall(s, terms, replies, texts, round);
      && (o.fellBack ==> o.value == PreAll(texts, terms))
      && (texts != [] && !o.fellBack && s.retryOnJapanese && AnyJapanese(o.value) ==>
            round + o.rounds > s.retryAttempts)
    decreases s.retryAttempts - round
  {
    if texts != [] {
      var o := BatchCall(s, terms, replies, texts, round);
      assert o == BatchRounds(s, terms, replies, texts, round);
      var d := Transport(replies, s.retryAttempts);
      if d.reply.Some? && d.reply.value != [] && s.retryOnJapanese && round < s.retryAttempts
        && AnyJapanese(Answer(d.reply.value, PreAll(texts, terms)))
      {
        var o' := BatchCall(s, terms, Drop(replies, d.posts), texts, round + 1);
        BatchCallValue(s, terms, Drop(replies, d.posts), texts, round + 1);
        assert o == Outcome(o'.value, o'.posts + d.posts, o'.rounds + 1, o'.fellBack);
      } else if d.reply.None? || d.reply.value == [] {
        assert o.fellBack && o.value == PreAll(texts, terms);
      } else {
        assert !o.fellBack && o.rounds == 1;
      }
    }
  }

  /** With the service down, a text that is not a dictionary name comes
      back as its substitution after one round of `attempts + 1` POSTs. */
  lemma TextServiceDown(s: Settings, terms: Terms, text: string, isName: bool, round: nat)
    requires !NameShortcut(terms, text, isName)
    ensures TextCall(s, terms, End, text, isName, round) == Outcome(Preprocess(text, terms), s.retryAttempts + 1, 1, true)
  {
    TransportDown(s.retryAttempts);
    assert TextCall(s, terms, End, text, isName, round) == TextRounds(s, terms, End, text, isName, round);
  }

  /** With the service down, a non-empty batch comes back as its
      substitutions. */
  lemma BatchServiceDown(s: Settings, terms: Terms, texts: seq<string>, round: nat)
    requires texts != []
    ensures BatchCall(s, terms, End, texts, round) == Outcome(PreAll(texts, terms), s.retryAttempts + 1, 1, true)
  {
    TransportDown(s.retryAttempts);
    assert BatchCall(s, terms, End, texts, round) == BatchRounds(s, terms, End, texts, round);
  }

  /** A first reply that is a clean, non-empty, Japanese-free text is taken
      as it is, after one POST. */
  lemma TextAnswered(s: Settings, terms: Terms, replies: Replies, text: string, isName: bool, round: nat, t: string)
    requires !NameShortcut(terms, text, isName)
    requires Head(replies) == Some(t)
    requires t != [] && Strip(t) == t && !ContainsJapanese(t)
    ensures TextCall(s, terms, replies, text, isName, round) == Outcome(t, 1, 1, false)
  {
    assert TextCall(s, terms, replies, text, isName, round) == TextRounds(s, terms, replies, text, isName, round);
  }

  /** A first reply in the requested numbered format, one Japanese-free line
      per submitted text, gives exactly those lines, after one POST. */
  lemma BatchAnswered(s: Settings, terms: Terms, replies: Replies, texts: seq<string>, round: nat, ts: seq<string>)
    requires |ts| == |texts| && ts != []
    requires forall i :: 0 <= i < |ts| ==> OneLine(ts[i]) && !ContainsJapanese(ts[i])
    requires Head(replies) == Some(NumberedReply(ts))
    ensures BatchCall(s, terms, replies, texts, round) == Outcome(ts, 1, 1, false)
  {
    var reply := NumberedReply(ts);
    NumberedReplyStripped(ts);
    ParseNumberedReply(ts);
    assert ParseReply(reply) == ts;
    assert reply != [] by {
      EmptyReply();
    }
    assert Answer(reply, PreAll(texts, terms)) == ts;
    assert !AnyJapanese(ts);
    assert BatchCall(s, terms, replies, texts, round) == BatchRounds(s, terms, replies, texts, round);
  }

  /** A Japanese answer is retried while rounds remain: when the service
      answers every round with the same Japanese text, all `attempts + 1 -
      round` rounds run and the last answer is kept. */
  lemma {:induction false} TextKeepsRetrying(s: Settings, terms: Terms, replies: Replies, text: string, isName: bool, round: nat, t: string)
    requires s.retryOnJapanese && round <= s.retryAttempts
    requires !NameShortcut(terms, text, isName)
    requires t != [] && Strip(t) == t && ContainsJapanese(t)
    requires forall i :: 0 <= i < s.retryAttempts + 1 - round ==> At(replies, i) == Some(t)
    ensures TextCall(s, terms, replies, text, isName, round)
         == Outcome(t, s.retryAttempts + 1 - round, s.retryAttempts + 1 - round, false)
    decreases s.retryAttempts - round
  {
    assert At(replies, 0) == Some(t);
    assert TextCall(s, terms, replies, text, isName, round) == TextRounds(s, terms, replies, text, isName, round);
    if round < s.retryAttempts {
      forall i | 0 <= i < s.retryAttempts - round ensures At(Drop(replies, 1), i) == Some(t) {
        assert At(replies, i + 1) == Some(t);
      }
      TextKeepsRetrying(s, terms, Drop(replies, 1), text, isName, round + 1, t);
    }
  }
}
