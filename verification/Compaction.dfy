/** History compaction (internal/agent/compaction.go): replace the head of a long history by a summary.
    Three string functions stay parameters: `san` is sanitizeAssistantContent, `line` is
    historySummaryLine, and `parts` is the part count computed from a floating point ratio. */
module Compaction {
  import opened Conversation
  import opened Normalisation

  datatype Config = Config(enabled: bool, trigger: int, target: int, preserve: int, parts: int)

  // ---------------------------------------------------------------- what happens to each message

  predicate DroppedMessage(m: Message) {
    m.role == "user" && m.isInternal
  }

  /** CompactHistoryForNextTurn on one message. */
  function Sanitized(m: Message, san: string -> string): (r: Message)
    ensures r == m.(content := r.content)
  {
    if m.role == "assistant" then m.(content := san(m.content)) else m
  }

  /** The history without internal user messages, assistant texts sanitised. */
  function Prepared(h: seq<Message>, san: string -> string): (r: seq<Message>) {
    if h == [] then []
    else Prepared(h[..|h| - 1], san) + (if DroppedMessage(h[|h| - 1]) then [] else [Sanitized(h[|h| - 1], san)])
  }

  lemma PreparedAppend(h: seq<Message>, m: Message, san: string -> string)
    ensures Prepared(h + [m], san) == Prepared(h, san) + (if DroppedMessage(m) then [] else [Sanitized(m, san)])
  {
    hide DroppedMessage, Sanitized;
    assert (h + [m])[..|h + [m]| - 1] == h;
  }

  /** The first loop: internal user messages are left out. */
  method WithoutInternal(history: seq<Message>, ghost san: string -> string) returns (filtered: seq<Message>)
    ensures forall j :: 0 <= j < |filtered| ==> !DroppedMessage(filtered[j])
    ensures Prepared(filtered, san) == Prepared(history, san)
  {
    hide Prepared, Sanitized;
    filtered := [];
    for i := 0 to |history|
      invariant forall j :: 0 <= j < |filtered| ==> !DroppedMessage(filtered[j])
      invariant Prepared(history[..i], san) == Prepared(filtered, san)
    {
      assert history[..i + 1] == history[..i] + [history[i]];
      PreparedAppend(history[..i], history[i], san);
      if history[i].role == "user" && history[i].isInternal {
        continue;
      }
      PreparedAppend(filtered, history[i], san);
      filtered := filtered + [history[i]];
    }
    assert history[..|history|] == history;
  }

  /** CompactHistoryForNextTurn */
  method SanitizeAll(filtered: seq<Message>, san: string -> string) returns (compacted: seq<Message>)
    requires forall j :: 0 <= j < |filtered| ==> !DroppedMessage(filtered[j])
    ensures compacted == Prepared(filtered, san)
  {
    compacted := [];
    hide Prepared, DroppedMessage;
    NothingToPrepare(san);
    for i := 0 to |filtered|
      invariant compacted == Prepared(filtered[..i], san)
    {
      assert filtered[..i + 1] == filtered[..i] + [filtered[i]];
      PreparedAppend(filtered[..i], filtered[i], san);
      var message := filtered[i];
      if message.role == "assistant" {
        message := message.(content := san(message.content));
      }
      compacted := compacted + [message];
    }
    assert filtered[..|filtered|] == filtered;
  }

  lemma NothingToPrepare(san: string -> string)
    ensures Prepared([], san) == []
  {
  }

  method Prepare(history: seq<Message>, san: string -> string) returns (compacted: seq<Message>)
    ensures compacted == Prepared(history, san)
  {
    var filtered := WithoutInternal(history, san);
    compacted := SanitizeAll(filtered, san);
  }

  // ---------------------------------------------------------------- where the tail starts

  lemma {:induction false} PreparedPicks(h: seq<Message>, san: string -> string) returns (at: seq<nat>)
    ensures Ascending(at, |h|) && |at| == |Prepared(h, san)|
    ensures forall i :: 0 <= i < |at| ==> Prepared(h, san)[i] == Sanitized(h[at[i]], san)
    ensures forall k :: 0 <= k < |h| ==> (k in at <==> !DroppedMessage(h[k]))
  {
    hide DroppedMessage, Sanitized;
    at := [];
    if h != [] {
      at := PreparedPicks(h[..|h| - 1], san);
      if !DroppedMessage(h[|h| - 1]) {
        at := at + [|h| - 1];
      }
    }
  }

  /** Which messages preparation keeps, and how: all but internal user messages, in order, with only the texts of
      assistant messages sanitised. */
  lemma PreparedSelects(h: seq<Message>, san: string -> string) returns (at: seq<nat>)
    ensures Ascending(at, |h|) && |at| == |Prepared(h, san)|
    ensures forall k :: 0 <= k < |h| ==> (k in at <==> !(h[k].role == "user" && h[k].isInternal))
    ensures forall i :: 0 <= i < |at| ==>
      var m := h[at[i]];
      Prepared(h, san)[i] == if m.role == "assistant" then m.(content := san(m.content)) else m
  {
    hide Prepared;
    at := PreparedPicks(h, san);
  }

  function SkipReplies(h: seq<Message>, i: nat): (r: nat)
    ensures r <= i
  {
    if 0 < i < |h| && h[i].role == "tool" then SkipReplies(h, i - 1) else i
  }

  function SkipCalls(h: seq<Message>, i: nat): (r: nat)
    requires i <= |h|
    ensures r <= i
  {
    if i > 0 && h[i - 1].toolCalls != [] then SkipCalls(h, i - 1) else i
  }

  function TailStart(h: seq<Message>, preserve: int): (r: nat)
    requires preserve >= 0 && h != []
    ensures r <= |h|
  {
    SkipCalls(h, SkipReplies(h, if |h| - preserve < 1 then 1 else |h| - preserve))
  }

  method ResolveCompactionTailStart(history: seq<Message>, preserve: int) returns (tailStart: int)
    requires preserve >= 0 && history != []
    ensures tailStart == TailStart(history, preserve)
  {
    tailStart := |history| - preserve;
    if tailStart < 1 {
      tailStart := 1;
    }
    ghost var wanted: nat := tailStart;
    while tailStart > 0 && tailStart < |history| && history[tailStart].role == "tool"
      invariant 0 <= tailStart <= |history|
      invariant SkipReplies(history, tailStart) == SkipReplies(history, wanted)
    {
      tailStart := tailStart - 1;
    }
    ghost var reached: nat := tailStart;
    while tailStart > 0 && |history[tailStart - 1].toolCalls| > 0
      invariant 0 <= tailStart <= |history|
      invariant SkipCalls(history, tailStart) == SkipCalls(history, reached)
    {
      tailStart := tailStart - 1;
    }
  }

  // ---------------------------------------------------------------- chunks

  function Flat(chunks: seq<seq<Message>>): (r: seq<Message>) {
    if chunks == [] then [] else Flat(chunks[..|chunks| - 1]) + chunks[|chunks| - 1]
  }

  lemma FlatAppend(chunks: seq<seq<Message>>, c: seq<Message>)
    ensures Flat(chunks + [c]) == Flat(chunks) + c
  {
    assert (chunks + [c])[..|chunks + [c]| - 1] == chunks;
  }

  predicate NonEmpty(chunks: seq<seq<Message>>) {
    forall i :: 0 <= i < |chunks| ==> chunks[i] != []
  }

  /** effectiveMax: the chunk limit less a safety margin of a sixth, never below one. */
  function EffectiveMax(maxTokens: int): (r: int)
    ensures r >= 1
  {
    if 5 * maxTokens / 6 > 1 then 5 * maxTokens / 6 else 1
  }

  /** A chunk is within the limit, or a single message too large for it. */
  predicate Fits(c: seq<Message>, limit: int) {
    Tokens(c) <= limit || |c| == 1
  }

  /** A chunk ends only where it had to: with the next message it would be over the limit, or its own
      message, or the next one's, is over the limit alone. */
  predicate EndsFull(c: seq<Message>, next: Message, limit: int) {
    Tokens(c) + MessageTokens(next) > limit
  }

  predicate Greedy(chunks: seq<seq<Message>>, limit: int) {
    forall i :: 0 <= i < |chunks| - 1 && chunks[i + 1] != [] ==> EndsFull(chunks[i], chunks[i + 1][0], limit)
  }

  /** Every message once and in order, no empty chunk, none over the limit except a single oversized
      message, and no chunk cut short. */
  predicate GoodChunks(chunks: seq<seq<Message>>, limit: int) {
    && NonEmpty(chunks)
    && (forall i :: 0 <= i < |chunks| ==> Fits(chunks[i], limit))
    && Greedy(chunks, limit)
  }

  lemma CloseChunk(chunks: seq<seq<Message>>, c: seq<Message>, limit: int)
    requires GoodChunks(chunks, limit) && c != [] && Fits(c, limit)
    requires chunks != [] ==> EndsFull(chunks[|chunks| - 1], c[0], limit)
    ensures GoodChunks(chunks + [c], limit) && Flat(chunks + [c]) == Flat(chunks) + c
  {
    FlatAppend(chunks, c);
    hide Fits, EndsFull, Flat;
    var all := chunks + [c];
    forall i | 0 <= i < |all| ensures Fits(all[i], limit) && all[i] != [] {
      assert i < |chunks| ==> all[i] == chunks[i];
    }
    forall i | 0 <= i < |all| - 1 && all[i + 1] != [] ensures EndsFull(all[i], all[i + 1][0], limit) {
      assert all[i] == chunks[i];
      assert i + 1 < |chunks| ==> all[i + 1] == chunks[i + 1];
    }
  }

  /** chunkMessagesByMaxTokens */
  method ChunkMessagesByMaxTokens(messages: seq<Message>, maxTokens: int) returns (chunks: seq<seq<Message>>)
    ensures Flat(chunks) == messages
    ensures GoodChunks(chunks, EffectiveMax(maxTokens))
  {
    hide MessageTokens, GoodChunks, Flat;
    var effectiveMax := EffectiveMax(maxTokens);
    NoChunks(effectiveMax);
    chunks := [];
    var current: seq<Message> := [];
    var currentTokens := 0;
    for i := 0 to |messages|
      invariant Flat(chunks) + current == messages[..i]
      invariant GoodChunks(chunks, effectiveMax)
      invariant currentTokens == Tokens(current) && (current != [] ==> currentTokens <= effectiveMax)
      invariant chunks != [] && current != [] ==> EndsFull(chunks[|chunks| - 1], current[0], effectiveMax)
      invariant chunks != [] && current == [] ==> Tokens(chunks[|chunks| - 1]) > effectiveMax
    {
      var message := messages[i];
      var messageTokens := ApproximateMessageTokens(message);
      assert messages[..i + 1] == messages[..i] + [message];
      if |current| > 0 && currentTokens + messageTokens > effectiveMax {
        CloseChunk(chunks, current, effectiveMax);
        chunks := chunks + [current];
        current := [];
        currentTokens := 0;
        assert EndsFull(chunks[|chunks| - 1], message, effectiveMax);
      }
      TokensAppend(current, message);
      current := current + [message];
      currentTokens := currentTokens + messageTokens;
      if messageTokens > effectiveMax {
        assert current == [message];
        CloseChunk(chunks, current, effectiveMax);
        chunks := chunks + [current];
        current := [];
        currentTokens := 0;
      }
    }
    assert messages[..|messages|] == messages;
    if |current| > 0 {
      CloseChunk(chunks, current, effectiveMax);
      chunks := chunks + [current];
    }
  }

  lemma NoChunks(limit: int)
    ensures GoodChunks([], limit) && Flat([]) == []
  {
  }

  /** splitMessagesByTokenShare: every message once and in order, no empty part, never more parts than
      asked for, and each part but the last ends only where the next message would pass its share. */
  method SplitMessagesByTokenShare(messages: seq<Message>, wanted: int) returns (chunks: seq<seq<Message>>)
    ensures Flat(chunks) == messages && NonEmpty(chunks)
    ensures messages != [] ==> 1 <= |chunks| <= (if wanted < 1 then 1 else wanted)
    ensures |chunks| > 1 ==> Greedy(chunks, Share(messages, wanted))
  {
    hide MessageTokens, Tokens, Greedy, EndsFull;
    if |messages| == 0 {
      return [];
    }
    NoShares();
    var parts := Clamp(wanted, |messages|);
    if parts == 1 {
      CloseShare([], messages, 1);
      return [messages];
    }
    var totalTokens := ApproximateHistoryTokens(messages);
    var targetTokens := Share(messages, wanted);
    chunks := [];
    var current: seq<Message> := [];
    var currentTokens := 0;
    for i := 0 to |messages|
      invariant Flat(chunks) + current == messages[..i]
      invariant NonEmpty(chunks) && |chunks| <= parts - 1 && Greedy(chunks, targetTokens)
      invariant currentTokens == Tokens(current)
      invariant i > 0 ==> current != []
      invariant chunks != [] && current != [] ==> EndsFull(chunks[|chunks| - 1], current[0], targetTokens)
    {
      var message := messages[i];
      var messageTokens := ApproximateMessageTokens(message);
      assert messages[..i + 1] == messages[..i] + [message];
      if |chunks| < parts - 1 && |current| > 0 && currentTokens + messageTokens > targetTokens {
        OverShare(current, message, targetTokens);
        CloseShare(chunks, current, targetTokens);
        chunks := chunks + [current];
        current := [];
        currentTokens := 0;
      }
      TokensAppend(current, message);
      current := current + [message];
      currentTokens := currentTokens + messageTokens;
    }
    assert messages[..|messages|] == messages;
    if |current| > 0 {
      CloseShare(chunks, current, targetTokens);
      chunks := chunks + [current];
    }
  }

  lemma NoShares()
    ensures forall limit :: Greedy([], limit)
    ensures Flat([]) == [] && Tokens([]) == 0
  {
  }

  lemma OverShare(c: seq<Message>, next: Message, limit: int)
    requires Tokens(c) + MessageTokens(next) > limit
    ensures EndsFull(c, next, limit)
  {
  }

  lemma CloseShare(chunks: seq<seq<Message>>, c: seq<Message>, limit: int)
    requires NonEmpty(chunks) && Greedy(chunks, limit) && c != []
    requires chunks != [] ==> EndsFull(chunks[|chunks| - 1], c[0], limit)
    ensures NonEmpty(chunks + [c]) && Greedy(chunks + [c], limit) && Flat(chunks + [c]) == Flat(chunks) + c
  {
    hide EndsFull;
    FlatAppend(chunks, c);
  }

  function Clamp(wanted: int, n: int): (r: int) {
    var m := if wanted < n then wanted else n;
    if m > 1 then m else 1
  }

  /** The token share of one part. */
  function Share(messages: seq<Message>, wanted: int): (r: int)
    requires messages != []
    ensures r >= 1
  {
    var s := Tokens(messages) / Clamp(wanted, |messages|);
    if s > 1 then s else 1
  }
}
