/**
  The chat-completion endpoint as the translator sees it. Each POST either
  fails (connection error, HTTP error status, malformed body: `None`) or
  yields the content of the first choice (`Some(content)`). The service is
  scripted: `replies` lists the outcomes of the coming POSTs in order, and a
  POST beyond the script fails. Every POST is appended to `log`.
 */
module Remote {
  import opened Wrappers
  import opened Strings

  /** A sampling temperature as written in the configuration. */
  datatype Temperature = Temperature(setting: string)

  /** One request as far as the translation is concerned: the model named in
      the payload, its temperature, and the user message. */
  datatype Request = Request(model: string, temperature: Temperature, content: string)

  /** The instruction that opens every user message. */
  const Instruction: string := "Translate this to English: "

  /** The user message of `call_llm(text, context)`. */
  function UserMessage(text: string, context: string): (r: string)
    ensures context == [] ==> r == Instruction + text
  {
    Instruction + (if context != [] then context + "\n" + text else text)
  }

  /** The outcomes of the coming POSTs, the next one first. */
  datatype Replies = End | Next(outcome: Option<string>, rest: Replies)

  /** The outcome of the next POST: a failure once the script has ended. */
  function Head(replies: Replies): Option<string> {
    match replies
    case End => None
    case Next(o, _) => o
  }

  /** What is left of a script after `n` POSTs. */
  function Drop(replies: Replies, n: nat): Replies
    decreases n
  {
    if n == 0 then replies
    else match replies
      case End => End
      case Next(_, rest) => Drop(rest, n - 1)
  }

  lemma {:induction false} DropDrop(replies: Replies, m: nat, n: nat)
    ensures Drop(Drop(replies, m), n) == Drop(replies, m + n)
    decreases m
  {
    if m > 0 && replies.Next? {
      DropDrop(replies.rest, m - 1, n);
    }
  }

  /** `DropDrop` with the total named, for callers that hold it as a term of
      its own. */
  lemma DropSum(replies: Replies, m: nat, n: nat, total: nat)
    requires total == m + n
    ensures Drop(Drop(replies, m), n) == Drop(replies, total)
  {
    DropDrop(replies, m, n);
  }

  /** The outcome of POST number `i`, counting from 0. */
  function At(replies: Replies, i: nat): (r: Option<string>)
    ensures r == Head(Drop(replies, i))
    decreases i
  {
    if i == 0 then Head(replies)
    else match replies
      case End => None
      case Next(_, rest) => At(rest, i - 1)
  }

  function Repeat<T>(x: T, n: nat): (r: seq<T>)
    ensures |r| == n && forall i :: 0 <= i < n ==> r[i] == x
  {
    if n == 0 then [] else [x] + Repeat(x, n - 1)
  }

  lemma RepeatAdd<T>(x: T, m: nat, n: nat)
    ensures Repeat(x, m) + Repeat(x, n) == Repeat(x, m + n)
  {
    assert Repeat(x, m) + Repeat(x, n) == Repeat(x, m + n);
  }

  /** A log extended by `m` and then `n` copies of one request is the log
      extended by `m + n` copies. */
  lemma LogRepeats<T>(log: seq<T>, x: T, m: nat, n: nat)
    ensures log + Repeat(x, m) + Repeat(x, n) == log + Repeat(x, n + m)
  {
    RepeatAdd(x, m, n);
    assert log + Repeat(x, m) + Repeat(x, n) == log + (Repeat(x, m) + Repeat(x, n));
  }

  /** `log` is `log0` followed by requests sent under model `m` and
      temperature `t` only. */
  predicate LoggedUnder(log0: seq<Request>, log: seq<Request>, m: string, t: Temperature) {
    && |log0| <= |log| && log[..|log0|] == log0
    && forall k :: |log0| <= k < |log| ==> log[k].model == m && log[k].temperature == t
  }

  /** Two extensions under one model and temperature make one. */
  lemma LoggedUnderTrans(log0: seq<Request>, log1: seq<Request>, log2: seq<Request>, m: string, t: Temperature)
    requires LoggedUnder(log0, log1, m, t) && LoggedUnder(log1, log2, m, t)
    ensures LoggedUnder(log0, log2, m, t)
  {
    assert log2[..|log0|] == log1[..|log0|];
    forall k | |log0| <= k < |log2| ensures log2[k].model == m && log2[k].temperature == t {
      if k < |log1| {
        assert log2[k] == log1[k];
      }
    }
  }

  /** Retries left when `call_llm` runs with `retry_count == count` and
      `retry_attempts == attempts`. */
  function Budget(attempts: nat, count: nat): nat {
    if count < attempts then attempts - count else 0
  }

  class Service {
    var replies: Replies
    var log: seq<Request>

    constructor (replies: Replies)
      ensures this.replies == replies && log == []
    {
      this.replies := replies;
      log := [];
    }

    /** One POST: the next scripted outcome, and the request logged. */
    method Post(req: Request) returns (reply: Option<string>)
      modifies this
      ensures reply == Head(old(replies))
      ensures replies == Drop(old(replies), 1)
      ensures log == old(log) + [req]
    {
      reply := Head(replies);
      replies := Drop(replies, 1);
      log := log + [req];
    }
  }

  /** The outcome of `call_llm`: the stripped content it returns (`None`
      when every attempt failed) and the number of POSTs it made. */
  datatype Delivery = Delivery(reply: Option<string>, posts: nat)

  /** `call_llm` with `budget` retries left, against a script. */
  function Transport(replies: Replies, budget: nat): (d: Delivery)
    ensures 1 <= d.posts <= budget + 1
    decreases budget
  {
    match Head(replies)
    case Some(content) => Delivery(Some(Strip(content)), 1)
    case None =>
      if budget == 0 then Delivery(None, 1)
      else
        var d := Transport(Drop(replies, 1), budget - 1);
        Delivery(d.reply, d.posts + 1)
  }

  /** `call_llm` succeeds exactly when one of its `budget + 1` attempts
      succeeds; it then stops at the first success and returns that content
      stripped, and it makes all `budget + 1` attempts when none succeeds. */
  lemma {:induction false} TransportFirstSuccess(replies: Replies, budget: nat)
    ensures var d := Transport(replies, budget);
      && (d.reply.Some? <==> exists i :: 0 <= i <= budget && At(replies, i).Some?)
      && (d.reply.None? ==> d.posts == budget + 1)
      && (d.reply.Some? ==>
            && At(replies, d.posts - 1).Some?
            && d.reply.value == Strip(At(replies, d.posts - 1).value)
            && forall i :: 0 <= i < d.posts - 1 ==> At(replies, i).None?)
    decreases budget
  {
    var d := Transport(replies, budget);
    assert At(replies, 0) == Head(replies);
    if Head(replies).None? && budget > 0 {
      var rest := Drop(replies, 1);
      TransportFirstSuccess(rest, budget - 1);
      forall i | 0 < i ensures At(replies, i) == At(rest, i - 1) {
        AtNext(replies, i);
      }
      if d.reply.Some? {
        var dr := Transport(rest, budget - 1);
        assert d.posts == dr.posts + 1 && At(rest, dr.posts - 1).Some?;
        assert At(replies, d.posts - 1) == At(rest, dr.posts - 1);
        assert 0 <= d.posts - 1 <= budget && At(replies, d.posts - 1).Some?;
      } else {
        assert Transport(rest, budget - 1).reply.None?;
        forall i | 0 <= i <= budget ensures At(replies, i).None? {
          if i > 0 {
            assert At(replies, i) == At(rest, i - 1);
            assert !At(rest, i - 1).Some?;
          }
        }
      }
    } else if Head(replies).None? {
      forall i | 0 <= i <= budget ensures At(replies, i).None? {
        assert At(replies, i) == At(replies, 0);
      }
    } else {
      assert d.posts == 1 && At(replies, 0).Some?;
    }
  }

  lemma AtNext(replies: Replies, i: nat)
    requires i > 0
    ensures At(replies, i) == At(Drop(replies, 1), i - 1)
  {
  }

  /** With the service down, `call_llm` gives up after `budget + 1` POSTs. */
  lemma {:induction false} TransportDown(budget: nat)
    ensures Transport(End, budget) == Delivery(None, budget + 1)
  {
    if budget > 0 {
      TransportDown(budget - 1);
    }
  }
}
