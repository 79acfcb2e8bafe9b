/** The body-size gate: buffers a request body chunk by chunk, answers 413 as soon as it is too
    long, and otherwise hands the application the whole body in a single message. */
module BodyLimit {
  import opened Options

  type Bytes = seq<bv8>

  /** A message of the ASGI receive channel; Other is anything but `http.request`. */
  datatype Message = Chunk(body: Bytes, more: bool) | Other(kind: string)

  /** What became of a request: its app was called with these messages, it was answered 413,
      or it is still waiting for the client. */
  datatype Outcome = Called(messages: seq<Message>) | TooLarge | Waiting

  datatype Header = Header(name: string, value: string)

  // ------------------------------------------------------------------ Content-Length

  function LowerChar(c: char): char {
    if 'A' <= c <= 'Z' then c - 'A' + 'a' else c
  }

  function Lower(s: string): string {
    seq(|s|, i requires 0 <= i < |s| => LowerChar(s[i]))
  }

  /** The value of the first Content-Length header; `parse` is Python's `int` on its bytes. */
  function ContentLength(headers: seq<Header>, parse: string -> Option<int>): Option<int> {
    if headers == [] then None
    else if Lower(headers[0].name) == "content-length" then parse(headers[0].value)
    else ContentLength(headers[1..], parse)
  }

  /** `_content_length`. */
  method DeclaredLength(headers: seq<Header>, parse: string -> Option<int>) returns (length: Option<int>)
    ensures length == ContentLength(headers, parse)
    ensures length.Some? ==>
              exists i :: 0 <= i < |headers|
                          && Lower(headers[i].name) == "content-length" && length == parse(headers[i].value)
                          && forall j :: 0 <= j < i ==> Lower(headers[j].name) != "content-length"
  {
    hide Lower;
    var i := 0;
    while i < |headers|
      invariant i <= |headers|
      invariant forall j :: 0 <= j < i ==> Lower(headers[j].name) != "content-length"
      invariant ContentLength(headers[i..], parse) == ContentLength(headers, parse)
    {
      if Lower(headers[i].name) == "content-length" {
        return parse(headers[i].value);
      }
      assert headers[i..][1..] == headers[i + 1..];
      i := i + 1;
    }
    return None;
  }

  // ------------------------------------------------------------------ what a stream carries

  function Concat(ms: seq<Message>): Bytes {
    if ms == [] then []
    else
      var m := ms[|ms| - 1];
      Concat(ms[..|ms| - 1]) + (if m.Chunk? then m.body else [])
  }

  /** The first `n` messages are chunks, each promising more. */
  predicate Partial(ms: seq<Message>, n: nat) {
    n <= |ms| && forall i :: 0 <= i < n ==> ms[i].Chunk? && ms[i].more
  }

  /** The body ends with message `n`. */
  predicate EndsAt(ms: seq<Message>, n: nat) {
    n < |ms| && Partial(ms, n) && ms[n].Chunk? && !ms[n].more
  }

  /** With chunk `n` the body first exceeds the limit. */
  predicate ExceedsAt(ms: seq<Message>, n: nat, limit: nat) {
    n < |ms| && Partial(ms, n) && ms[n].Chunk? && |Concat(ms[..n])| <= limit < |Concat(ms[..n + 1])|
  }

  /** Something else arrives before the body ends. */
  predicate BreaksAt(ms: seq<Message>, n: nat) {
    n < |ms| && Partial(ms, n) && ms[n].Other?
  }

  lemma ConcatAppend(ms: seq<Message>, n: nat)
    requires n < |ms|
    ensures Concat(ms[..n + 1]) == Concat(ms[..n]) + (if ms[n].Chunk? then ms[n].body else [])
  {
    assert ms[..n + 1][..n] == ms[..n];
  }

  lemma {:induction false} ConcatGrows(ms: seq<Message>, m: nat, n: nat)
    requires m <= n <= |ms|
    ensures |Concat(ms[..m])| <= |Concat(ms[..n])|
  {
    if m < n {
      ConcatGrows(ms, m, n - 1);
      ConcatAppend(ms, n - 1);
    }
  }

  /** The largest chunk among the first `n` messages. */
  function Largest(ms: seq<Message>, n: nat): nat
    requires n <= |ms|
  {
    if n == 0 then 0
    else
      var rest, m := Largest(ms, n - 1), ms[n - 1];
      if m.Chunk? && |m.body| > rest then |m.body| else rest
  }

  /** The first Content-Length header already claims too much. */
  predicate Overdeclared(limit: nat, headers: seq<Header>, parse: string -> Option<int>) {
    var declared := ContentLength(headers, parse);
    declared.Some? && declared.value > limit
  }

  /** What the first `taken` messages of the stream decide, the last of them being decisive. */
  predicate DecidesAt(limit: nat, ms: seq<Message>, taken: nat, outcome: Outcome) {
    match outcome
    case Called(messages) =>
      && 1 <= taken <= |ms| && |Concat(ms[..taken])| <= limit
      && ((EndsAt(ms, taken - 1) && messages == [Chunk(Concat(ms[..taken]), false)])
          || (BreaksAt(ms, taken - 1) && messages == [ms[taken - 1]]))
    case TooLarge => taken >= 1 && ExceedsAt(ms, taken - 1, limit)
    case Waiting => taken == |ms| && Partial(ms, taken) && |Concat(ms)| <= limit
  }

  lemma LargestCovers(ms: seq<Message>, n: nat)
    requires n < |ms|
    ensures Largest(ms, n + 1) >= Largest(ms, n)
    ensures ms[n].Chunk? ==> Largest(ms, n + 1) >= |ms[n].body|
  {}

  // ------------------------------------------------------------------ the gate

  /** What the client and the application see of one request. */
  class Exchange {
    var calls: seq<seq<Message>>
    var statuses: seq<int>

    constructor ()
      ensures calls == [] && statuses == []
    {
      calls, statuses := [], [];
    }

    /** `BodySizeLimitMiddleware.__call__` on an HTTP request whose client sends `ms`.
        `taken` messages are received, and `peak` is the largest buffer it ever held. */
    method Call(limit: nat, headers: seq<Header>, parse: string -> Option<int>, ms: seq<Message>)
      returns (outcome: Outcome, taken: nat, peak: nat)
      modifies this
      ensures calls == old(calls) + (if outcome.Called? then [outcome.messages] else [])
      ensures statuses == old(statuses) + (if outcome.TooLarge? then [413] else [])
      ensures taken <= |ms| && peak == |Concat(ms[..taken])| <= limit + Largest(ms, taken)
      ensures if Overdeclared(limit, headers, parse) then outcome == TooLarge && taken == 0
              else DecidesAt(limit, ms, taken, outcome)
    {
      hide Largest, Lower, ContentLength;
      var declared := DeclaredLength(headers, parse);
      taken, peak := 0, 0;
      if declared.Some? && declared.value > limit {
        statuses := statuses + [413];
        return TooLarge, 0, 0;
      }
      var body: Bytes := [];
      var more := true;
      while more && taken < |ms|
        invariant taken <= |ms| && body == Concat(ms[..taken]) && |body| <= limit
        invariant more ==> Partial(ms, taken)
        invariant !more ==> taken >= 1 && EndsAt(ms, taken - 1)
        invariant peak == |Concat(ms[..taken])| <= limit + Largest(ms, taken)
        invariant calls == old(calls) && statuses == old(statuses)
        decreases |ms| - taken
      {
        var message := ms[taken];
        ConcatAppend(ms, taken);
        LargestCovers(ms, taken);
        taken := taken + 1;
        if message.Other? {
          calls := calls + [[message]];
          return Called([message]), taken, peak;
        }
        body := body + message.body;
        peak := if |body| > peak then |body| else peak;
        if |body| > limit {
          statuses := statuses + [413];
          return TooLarge, taken, peak;
        }
        more := message.more;
      }
      if more {
        assert ms[..taken] == ms;
        return Waiting, taken, peak;
      }
      calls := calls + [[Chunk(body, false)]];
      return Called([Chunk(body, false)]), taken, peak;
    }
  }

  /** `_replay`: the channel the application reads from. */
  class Replay {
    var messages: seq<Message>

    constructor (messages: seq<Message>)
      ensures this.messages == messages
    {
      this.messages := messages;
    }

    /** None is a call that never returns. */
    method Receive() returns (m: Option<Message>)
      modifies this
      ensures old(messages) == [] ==> m == None && messages == []
      ensures old(messages) != [] ==> m == Some(old(messages)[0]) && messages == old(messages)[1..]
    {
      if messages == [] { return None; }
      m := Some(messages[0]);
      messages := messages[1..];
    }
  }

  // ------------------------------------------------------------------ transparency

  /** The gate's decision, as a relation on the stream alone. */
  ghost predicate Decides(limit: nat, ms: seq<Message>, outcome: Outcome) {
    exists taken: nat :: DecidesAt(limit, ms, taken, outcome)
  }

  /** A stream has one decision at most. */
  lemma DecisionIsUnique(limit: nat, ms: seq<Message>, o1: Outcome, o2: Outcome)
    requires Decides(limit, ms, o1) && Decides(limit, ms, o2)
    ensures o1 == o2
  {
    hide Concat;
    assert ms[..|ms|] == ms;
    forall m: nat, n: nat | m <= n <= |ms| ensures |Concat(ms[..m])| <= |Concat(ms[..n])| {
      ConcatGrows(ms, m, n);
    }
  }

  /** The stream is some chunking of `body`, whole. */
  predicate Chunking(ms: seq<Message>, body: Bytes) {
    ms != [] && EndsAt(ms, |ms| - 1) && Concat(ms) == body
  }

  /** For every body and every chunking of it: within the limit it is decided by handing the app
      exactly that body in one message, and beyond the limit by a 413. */
  lemma ChunkingIsInvisible(limit: nat, body: Bytes, ms: seq<Message>, outcome: Outcome)
    requires Chunking(ms, body)
    ensures Decides(limit, ms, outcome) <==>
            outcome == if |body| <= limit then Called([Chunk(body, false)]) else TooLarge
  {
    assert ms[..|ms|] == ms;
    if |body| <= limit {
      assert DecidesAt(limit, ms, |ms|, Called([Chunk(body, false)]));
    } else {
      var n := FirstBeyond(limit, ms, |ms|);
      assert DecidesAt(limit, ms, n + 1, TooLarge);
    }
    var expected := if |body| <= limit then Called([Chunk(body, false)]) else TooLarge;
    if Decides(limit, ms, outcome) {
      DecisionIsUnique(limit, ms, outcome, expected);
    }
  }

  lemma {:induction false} FirstBeyond(limit: nat, ms: seq<Message>, n: nat) returns (k: nat)
    requires n <= |ms| && |Concat(ms[..n])| > limit
    ensures k < n && |Concat(ms[..k])| <= limit < |Concat(ms[..k + 1])|
  {
    if |Concat(ms[..n - 1])| > limit {
      k := FirstBeyond(limit, ms, n - 1);
    } else {
      k := n - 1;
    }
  }

  /** One request, end to end: the gate reads the stream, and the application, if it is called,
      reads `n` times.  However the client chunks a body within the limit, the first read yields
      all of it in one message and no later read returns; beyond the limit nothing is read. */
  method Serve(limit: nat, headers: seq<Header>, parse: string -> Option<int>, ms: seq<Message>, n: nat)
    returns (outcome: Outcome, seen: seq<Option<Message>>)
    ensures if Overdeclared(limit, headers, parse) then outcome == TooLarge else Decides(limit, ms, outcome)
    ensures if outcome.Called?
            then |outcome.messages| == 1 && |seen| == n
                 && forall i :: 0 <= i < n ==> seen[i] == if i == 0 then Some(outcome.messages[0]) else None
            else seen == []
    ensures forall body :: Chunking(ms, body) && !Overdeclared(limit, headers, parse) ==>
              outcome == if |body| <= limit then Called([Chunk(body, false)]) else TooLarge
  {
    hide Overdeclared;
    var exchange := new Exchange();
    var taken, peak;
    outcome, taken, peak := exchange.Call(limit, headers, parse, ms);
    seen := [];
    if outcome.Called? {
      var replay := new Replay(outcome.messages);
      for i := 0 to n
        invariant |seen| == i
        invariant replay.messages == (if i <= |outcome.messages| then outcome.messages[i..] else [])
        invariant forall j :: 0 <= j < i ==>
                    seen[j] == if j < |outcome.messages| then Some(outcome.messages[j]) else None
      {
        var m := replay.Receive();
        seen := seen + [m];
      }
    }
    forall body | Chunking(ms, body) && !Overdeclared(limit, headers, parse)
      ensures outcome == if |body| <= limit then Called([Chunk(body, false)]) else TooLarge
    {
      ChunkingIsInvisible(limit, body, ms, outcome);
    }
  }
}
