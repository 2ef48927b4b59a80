/** The two-stage byte pipeline of a PTY reader thread: the start-up cursor handshake in
    front of the incremental UTF-8 decoder. */
module PtyReader {
  import opened Prelude
  import opened Utf8Stream

  /** `ESC [ 6 n`, the cursor-position query a fresh ConPTY may write first. */
  const QUERY: Text := [0x1B, 0x5B, 0x36, 0x6E]

  /** The stream without one leading query. */
  function StripQuery(s: Text, enabled: bool): (r: Text) {
    if enabled && QUERY <= s then s[|QUERY|..] else s
  }

  /** What one call of `Consume` reports and leaves behind. */
  ghost predicate Consumed(awaiting: bool, held: Text, bytes: Text,
                           answer: bool, output: Text, awaiting': bool, held': Text)
  {
    if !awaiting then !answer && output == bytes && !awaiting' && held' == [] else
      var t := held + bytes;
      && answer == (QUERY <= t)
      && awaiting' == (t < QUERY)
      && (if t < QUERY then held' == t && output == [] else held' == [] && output == StripQuery(t, true))
  }

  class InitialConPtyCursorHandshake {
    var awaitingQuery: bool
    var matched: nat

    constructor (enabled: bool)
      ensures Valid() && awaitingQuery == enabled && Held() == []
    {
      awaitingQuery := enabled;
      matched := 0;
    }

    ghost predicate Valid()
      reads this
    {
      matched < |QUERY| && (!awaitingQuery ==> matched == 0)
    }

    /** The bytes swallowed so far in the hope of a query. */
    ghost function Held(): (h: Text)
      reads this
      requires Valid()
    {
      QUERY[..matched]
    }

    method Consume(bytes: Text) returns (answer: bool, output: Text)
      requires Valid()
      modifies this
      ensures Valid()
      ensures Consumed(old(awaitingQuery), old(Held()), bytes, answer, output, awaitingQuery, Held())
    {
      if !awaitingQuery {
        return false, bytes;
      }
      ghost var held := Held();
      ghost var t := held + bytes;
      var consumed := 0;
      while consumed < |bytes| && matched < |QUERY|
        invariant consumed <= |bytes| && matched <= |QUERY| && awaitingQuery
        invariant matched == |held| + consumed
        invariant t[..matched] == QUERY[..matched]
      {
        assert t[matched] == bytes[consumed];
        if bytes[consumed] != QUERY[matched] {
          output := QUERY[..matched] + bytes[consumed..];
          assert output == t;
          awaitingQuery := false;
          matched := 0;
          return false, output;
        }
        assert t[..matched + 1] == QUERY[..matched + 1];
        matched := matched + 1;
        consumed := consumed + 1;
      }
      if matched < |QUERY| {
        assert t[..matched] == t;
        return false, [];
      }
      assert QUERY <= t by { assert t[..|QUERY|] == QUERY; }
      awaitingQuery := false;
      matched := 0;
      return true, bytes[consumed..];
    }

    method Finish() returns (prefix: Text)
      requires Valid()
      modifies this
      ensures Valid() && !awaitingQuery
      ensures prefix == old(Held())
    {
      if !awaitingQuery {
        return [];
      }
      awaitingQuery := false;
      prefix := QUERY[..matched];
      matched := 0;
    }
  }

  /** What the shim has done after reading `s`: decided exactly when `s` is no longer a
      proper prefix of the query. */
  ghost predicate ShimAfter(s: Text, enabled: bool, awaiting: bool, held: Text, passed: Text, replies: nat) {
    if enabled && s < QUERY then
      awaiting && held == s && passed == [] && replies == 0
    else
      && !awaiting && held == [] && passed == StripQuery(s, enabled)
      && replies == (if enabled && QUERY <= s then 1 else 0)
  }

  lemma ShimStep(s: Text, bytes: Text, enabled: bool, awaiting: bool, held: Text, passed: Text, replies: nat,
                 answer: bool, output: Text, awaiting': bool, held': Text)
    requires ShimAfter(s, enabled, awaiting, held, passed, replies)
    requires Consumed(awaiting, held, bytes, answer, output, awaiting', held')
    ensures ShimAfter(s + bytes, enabled, awaiting', held', passed + output, if answer then replies + 1 else replies)
  {
    var t := s + bytes;
    if awaiting {
      assert passed + output == output;
    } else if enabled && QUERY <= s {
      assert QUERY <= t by { assert t[..|QUERY|] == s[..|QUERY|]; }
      assert t[|QUERY|..] == s[|QUERY|..] + bytes;
    }
  }

  /** The query has been seen in full. */
  predicate Asked(s: Text, enabled: bool) { enabled && QUERY <= s }

  lemma AskedGrows(a: Text, b: Text, enabled: bool)
    ensures Asked(a, enabled) ==> Asked(a + b, enabled)
  {
    if QUERY <= a { assert (a + b)[..|QUERY|] == a[..|QUERY|]; }
  }

  /** What the shim has passed on starts what it will have passed on in the end. */
  lemma ShimPrefix(a: Text, b: Text, enabled: bool, awaiting: bool, held: Text, passed: Text, replies: nat)
    requires ShimAfter(a, enabled, awaiting, held, passed, replies)
    ensures passed <= StripQuery(a + b, enabled)
  {
    if !awaiting {
      if enabled && QUERY <= a {
        AskedGrows(a, b, enabled);
        assert (a + b)[|QUERY|..] == a[|QUERY|..] + b;
      }
    }
  }

  /** What is decoded of a part of the stream starts the decoding of the whole. */
  lemma DrainPrefix(a: Text, whole: Text)
    requires a <= whole
    ensures Drain(a).out <= Lossy(whole)
  {
    assert whole == a + whole[|a|..];
    DrainSplit(a, whole[|a|..]);
    DrainThenFlush(whole);
  }

  /** The published texts are the decoding of what was passed on; once the generation was found
      stale, they are the start of it. */
  ghost predicate Shows(published: seq<Text>, pending: Text, passed: Text, current: bool) {
    && (forall t | t in published :: t != [])
    && pending == Drain(passed).rest
    && (if current then Flatten(published) == Drain(passed).out else Flatten(published) <= Drain(passed).out)
  }

  /** Appends the texts one by one, for as long as the generation is found running: `checks` times,
      and never again after that. */
  method Emit(published: seq<Text>, pushed: seq<Text>, checks: nat) returns (texts: seq<Text>, left: nat, current: bool)
    ensures left + |texts| == checks + |published| && (!current ==> left == 0)
    ensures if current then texts == published + pushed
      else exists n: nat | n <= |pushed| :: texts == published + pushed[..n]
  {
    texts, left, current := published, checks, true;
    for i := 0 to |pushed|
      invariant left + i == checks && texts == published + pushed[..i]
    {
      if left == 0 {
        return texts, 0, false;
      }
      left := left - 1;
      texts := texts + [pushed[i]];
    }
  }

  lemma EmittedStarts(published: seq<Text>, pushed: seq<Text>, n: nat)
    requires n <= |pushed|
    ensures Flatten(published + pushed[..n]) <= Flatten(published) + Flatten(pushed)
  {
    FlattenAppend(published, pushed[..n]);
    FlattenAppend(pushed[..n], pushed[n..]);
    assert pushed == pushed[..n] + pushed[n..];
    Assoc(Flatten(published), Flatten(pushed[..n]), Flatten(pushed[n..]));
  }

  /** Decodes one piece of shim output and emits the texts it yields. */
  method Publish(decoder: Utf8StreamDecoder, published: seq<Text>, output: Text, checks: nat, ghost passed: Text)
      returns (texts: seq<Text>, left: nat, current: bool)
    requires decoder.Valid() && Shows(published, decoder.pending, passed, true)
    modifies decoder
    ensures decoder.Valid() && Shows(texts, decoder.pending, passed + output, current)
    ensures left + |texts| == checks + |published| && (!current ==> left == 0)
  {
    var pushed := decoder.Push(output);
    DrainSplit(passed, output);
    texts, left, current := Emit(published, pushed, checks);
    if current {
      FlattenAppend(published, pushed);
    } else {
      ghost var n: nat :| n <= |pushed| && texts == published + pushed[..n];
      EmittedStarts(published, pushed, n);
    }
    assert forall t | t in texts :: t in published || t in pushed;
  }

  /** Flushes the matcher and the decoder at the end of the stream. */
  method Conclude(decoder: Utf8StreamDecoder, published: seq<Text>, tail: Text, checks: nat, running: bool,
      ghost passed: Text)
      returns (texts: seq<Text>, current: bool)
    requires decoder.Valid() && Shows(published, decoder.pending, passed, running) && (!running ==> checks == 0)
    modifies decoder
    ensures forall t | t in texts :: t != []
    ensures Flatten(texts) <= Lossy(passed + tail) && (current ==> running && Flatten(texts) == Lossy(passed + tail))
    ensures !running || passed + tail == [] ==> texts == published
    ensures |texts| <= |published| + checks && (running && !current ==> checks <= |texts| - |published| + 1)
  {
    var left := checks;
    texts, current := published, running;
    ghost var done := passed;
    if tail != [] {
      if left == 0 {
        current := false;
      } else {
        texts, left, current := Publish(decoder, texts, tail, left - 1, passed);
        done := passed + tail;
      }
    } else {
      assert passed + tail == passed;
    }
    DrainPrefix(done, passed + tail);
    DrainThenFlush(passed + tail);
    var last := decoder.Finish();
    if last.Some? {
      if left == 0 {
        current := false;
      } else {
        FlattenSnoc(texts, last.value);
        texts := texts + [last.value];
      }
    } else if current {
      assert Flatten(texts) + [] == Flatten(texts);
    }
  }

  lemma {:induction false} FlattenLonger(texts: seq<Text>)
    requires forall t | t in texts :: t != []
    ensures |Flatten(texts)| >= |texts|
  {
    if texts != [] {
      assert texts[0] in texts && forall t | t in texts[1..] :: t in texts;
      FlattenLonger(texts[1..]);
    }
  }

  lemma NothingShown(published: seq<Text>, pending: Text, current: bool)
    requires Shows(published, pending, [], current)
    ensures published == [] && pending == []
  {
    FlattenLonger(published);
  }

  lemma NotYetAsked(a: Text, b: Text, enabled: bool)
    requires Asked(a + b, enabled) && !Asked(a, enabled)
    ensures enabled && a < QUERY
  {
    if |a| < |QUERY| { assert (a + b)[..|a|] == a && QUERY == (a + b)[..|QUERY|]; }
  }

  /** Where the reading loop stops: at the end of the stream, or before it, either because the generation
      was found stale or because the query could not be answered. */
  ghost predicate Stopped(whole: Text, enabled: bool, answered: bool, awaiting: bool, held: Text, pending: Text,
                          passed: Text, published: seq<Text>, replies: nat, current: bool, failed: bool)
  {
    && passed <= StripQuery(whole, enabled) && Shows(published, pending, passed, current)
    && (failed ==> !answered && Asked(whole, enabled) && passed == [] && held == [])
    && (current && !failed ==> ShimAfter(whole, enabled, awaiting, held, passed, replies))
    && replies <= (if answered && Asked(whole, enabled) then 1 else 0)
    && (current && !failed && !answered ==> !Asked(whole, enabled))
    && (!answered && Asked(whole, enabled) ==> passed == [])
  }

  /** What holds whenever the loop turns, with `s` read. */
  ghost predicate Reading(s: Text, enabled: bool, answered: bool, awaiting: bool, held: Text, pending: Text,
                          passed: Text, published: seq<Text>, replies: nat, current: bool)
  {
    && ShimAfter(s, enabled, awaiting, held, passed, replies) && Shows(published, pending, passed, current)
    && (!answered ==> !Asked(s, enabled))
  }

  lemma StopsEarly(chunks: seq<Text>, i: nat, enabled: bool, answered: bool, awaiting: bool, held: Text, pending: Text,
                   passed: Text, published: seq<Text>, replies: nat, current: bool)
    requires i <= |chunks|
    requires Reading(Flatten(chunks[..i]), enabled, answered, awaiting, held, pending, passed, published, replies,
      current)
    ensures Stopped(Flatten(chunks), enabled, answered, awaiting, held, pending, passed, published, replies, false,
      false)
    ensures i == |chunks| ==>
      Stopped(Flatten(chunks), enabled, answered, awaiting, held, pending, passed, published, replies, current, false)
  {
    var a, b := Flatten(chunks[..i]), Flatten(chunks[i..]);
    SplitAt(chunks, i);
    ShimPrefix(a, b, enabled, awaiting, held, passed, replies);
    AskedGrows(a, b, enabled);
    if !answered && Asked(a + b, enabled) { NotYetAsked(a, b, enabled); }
    if i == |chunks| { assert chunks[..i] == chunks; }
  }

  lemma StopsInside(whole: Text, enabled: bool, answered: bool, awaiting: bool, held: Text, pending: Text, passed: Text,
                    published: seq<Text>, replies: nat, current: bool, awaiting': bool, held': Text, pending': Text)
    requires Stopped(whole, enabled, answered, awaiting, held, pending, passed, published, replies, false, false)
    requires Asked(whole, enabled) && Shows(published, pending', passed, current)
    requires current ==> !answered && passed == [] && held' == []
    ensures Stopped(whole, enabled, answered, awaiting', held', pending', passed, published, replies, current, current)
  {
  }

  lemma SplitAt(chunks: seq<Text>, i: nat)
    requires i <= |chunks|
    ensures Flatten(chunks) == Flatten(chunks[..i]) + Flatten(chunks[i..])
  {
    FlattenAppend(chunks[..i], chunks[i..]);
    assert chunks == chunks[..i] + chunks[i..];
  }

  lemma OneRead(chunks: seq<Text>, i: nat)
    requires i < |chunks|
    ensures Flatten(chunks[..i + 1]) == Flatten(chunks[..i]) + chunks[i]
  {
    var more := chunks[..i] + [chunks[i]];
    assert chunks[..i + 1] == more;
    FlattenSnoc(chunks[..i], chunks[i]);
  }

  lemma AskedInTheEnd(chunks: seq<Text>, i: nat, enabled: bool)
    requires i <= |chunks| && Asked(Flatten(chunks[..i]), enabled)
    ensures Asked(Flatten(chunks), enabled)
  {
    SplitAt(chunks, i);
    AskedGrows(Flatten(chunks[..i]), Flatten(chunks[i..]), enabled);
  }

  /** One turn of the loop with a chunk that was read behind `before`. */
  method Take(decoder: Utf8StreamDecoder, handshake: InitialConPtyCursorHandshake, chunk: Text, texts: seq<Text>,
              checks: nat, sent: nat, enabled: bool, answered: bool, ghost before: Text, ghost done: Text)
      returns (published: seq<Text>, left: nat, replies: nat, current: bool, stopped: bool, ghost passed: Text)
    requires decoder.Valid() && handshake.Valid()
    requires Reading(before, enabled, answered, handshake.awaitingQuery, handshake.Held(), decoder.pending, done,
      texts, sent, true)
    modifies decoder, handshake
    ensures decoder.Valid() && handshake.Valid() && (!current ==> left == 0)
    ensures stopped ==>
      && Asked(before + chunk, enabled) && passed == done && published == texts && replies == sent
      && Shows(published, decoder.pending, passed, current)
      && (current ==> !answered && passed == [] && handshake.Held() == [])
      && left <= checks <= left + 1
    ensures !stopped ==> left + |published| + replies == checks + |texts| + sent
    ensures !stopped ==>
      Reading(before + chunk, enabled, answered, handshake.awaitingQuery, handshake.Held(), decoder.pending, passed,
        published, replies, current)
  {
    ghost var awaiting, held := handshake.awaitingQuery, handshake.Held();
    var answer, output := handshake.Consume(chunk);
    ShimStep(before, chunk, enabled, awaiting, held, done, sent, answer, output, handshake.awaitingQuery,
      handshake.Held());
    published, left, replies, current, stopped, passed := texts, checks, sent, true, false, done;
    if answer {
      if left == 0 {
        current, stopped := false, true;
        return;
      }
      left := left - 1;
      if !answered {
        stopped := true;
        return;
      }
      replies := replies + 1;
    }
    published, left, current := Publish(decoder, texts, output, left, done);
    passed := done + output;
  }

  /** The reading loop. */
  method Read(decoder: Utf8StreamDecoder, handshake: InitialConPtyCursorHandshake, chunks: seq<Text>, enabled: bool,
              checks: nat, answered: bool)
      returns (published: seq<Text>, left: nat, replies: nat, current: bool, failed: bool, ghost passed: Text)
    requires decoder.Valid() && decoder.pending == []
    requires handshake.Valid() && handshake.awaitingQuery == enabled && handshake.Held() == []
    modifies decoder, handshake
    ensures decoder.Valid() && handshake.Valid() && (!current ==> left == 0)
    ensures left + |published| <= checks <= left + |published| + |chunks| + 3
    ensures Stopped(Flatten(chunks), enabled, answered, handshake.awaitingQuery, handshake.Held(), decoder.pending,
                    passed, published, replies, current, failed)
  {
    var i := 0;
    published, left, replies, current, failed, passed := [], checks, 0, true, false, [];
    assert chunks[..0] == [];
    while true
      invariant i <= |chunks| && decoder.Valid() && handshake.Valid() && (!current ==> left == 0) && !failed
      invariant left + |published| + i + replies == checks && replies <= 1
      invariant Reading(Flatten(chunks[..i]), enabled, answered, handshake.awaitingQuery, handshake.Held(),
                        decoder.pending, passed, published, replies, current)
      decreases |chunks| - i
    {
      ghost var awaiting, held, pending := handshake.awaitingQuery, handshake.Held(), decoder.pending;
      StopsEarly(chunks, i, enabled, answered, awaiting, held, pending, passed, published, replies, current);
      if left == 0 {
        current := false;
        return;
      }
      left := left - 1;
      if i == |chunks| {
        return;
      }
      OneRead(chunks, i);
      var stopped;
      published, left, replies, current, stopped, passed :=
        Take(decoder, handshake, chunks[i], published, left, replies, enabled, answered, Flatten(chunks[..i]), passed);
      if stopped {
        AskedInTheEnd(chunks, i + 1, enabled);
        StopsInside(Flatten(chunks), enabled, answered, awaiting, held, pending, passed, published, replies, current,
                    handshake.awaitingQuery, handshake.Held(), decoder.pending);
        failed := current;
        return;
      }
      i := i + 1;
    }
  }

  /** The reader thread. The stream comes cut into `chunks`, and ends by itself or with a failed read.
      `checks` is how often the generation is found running before it is found stale, and `answered`
      is whether the cursor answer can be written.

      However the stream is cut: while the generation stays current and a query can be answered, the
      texts published are together the lossy UTF-8 decoding of the stream without one leading cursor
      query, and the query is answered exactly once if it was there and never otherwise. In any case
      what is published is the start of that decoding, and nothing is published behind a query that
      cannot be answered. Every text takes a check, and none is held back while there are checks: one
      for each text, one for each read and four more are enough for the whole stream. */
  method ReadAll(chunks: seq<Text>, enabled: bool, checks: nat, answered: bool)
      returns (published: seq<Text>, replies: nat, current: bool)
    ensures Flatten(published) <= Lossy(StripQuery(Flatten(chunks), enabled)) && forall t | t in published :: t != []
    ensures replies <= if answered && Asked(Flatten(chunks), enabled) then 1 else 0
    ensures |published| <= checks && (!current ==> checks <= |published| + |chunks| + 4)
    ensures !answered && Asked(Flatten(chunks), enabled) ==> published == []
    ensures current && (answered || !Asked(Flatten(chunks), enabled)) ==>
      && LossyDecodes(StripQuery(Flatten(chunks), enabled), Flatten(published))
      && replies == if Asked(Flatten(chunks), enabled) then 1 else 0
  {
    var decoder := new Utf8StreamDecoder();
    var handshake := new InitialConPtyCursorHandshake(enabled);
    var left, failed;
    ghost var passed;
    published, left, replies, current, failed, passed := Read(decoder, handshake, chunks, enabled, checks, answered);
    ghost var whole := StripQuery(Flatten(chunks), enabled);
    DrainPrefix(passed, whole);
    if passed == [] { NothingShown(published, decoder.pending, current); }
    var tail := handshake.Finish();
    ghost var running := current;
    published, current := Conclude(decoder, published, tail, left, current, passed);
    if running && !failed { assert passed + tail == whole; }
    LossyIsTheDecoding(whole, Flatten(published));
  }
}
