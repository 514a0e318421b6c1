/** One round of Runner.Run (internal/agent/agent.go) in which an explicit compaction in the middle of a batch leaves a
    reply without its call. */
module MidBatchRun {
  import opened Text
  import opened Conversation
  import opened Normalisation
  import opened Trimming
  import opened Compaction
  import opened Summaries
  import opened HistoryStorage
  import opened AgentRun
  import opened RunHistories

  /** The trigger is 2 tokens, the target 1, and one message is preserved. */
  const TINY := Env(0, 0, Config(true, 2, 1, 1, 1),
                    Texts((s: string) => s, (m: Message) => "", (h: seq<Message>) => 1),
                    (h: seq<Message>, before: seq<ToolCall>, call: ToolCall) => "done", (name: string, n: int) => "",
                    (n: nat) => "")

  const HELLO := Message("user", "hello", "", "", [], false, "")

  const TWO_CALLS := Replied("", "", [ToolCall("c1", COMPACT_CONTEXT, ""), ToolCall("c2", "list_dir", "")])

  lemma TokensAtLeast(h: seq<Message>)
    requires h != []
    ensures Tokens(h) >= 8
  {
    hide MessageTokens;
    SomeTokens(h[0]);
  }

  lemma SomeTokens(m: Message)
    ensures MessageTokens(m) >= 8
  {
  }

  lemma NoLines(m: Message, line: Message -> string)
    requires line(m) == ""
    ensures Lines([m], line) == []
  {
    assert [m][..0] == [];
  }

  lemma EmptyPartial(m: Message, target: int, line: Message -> string)
    requires line(m) == ""
    ensures IsPartial([m], target, line, Rendered([], target))
  {
    NoLines(m, line);
    hide Rendered, Lines, TextTokens, Bullets;
    var lines := Lines([m], line);
    assert lines[..0] == [] && |lines| == 0;
    assert Stops(lines, 0, 1, target);
  }

  lemma FlatOne(c: seq<Message>)
    ensures Flat([c]) == c
  {
    assert [c][..0] == [] && [] + c == c;
  }

  /** One message without a summary line has a summary. */
  lemma OneMessageSummary(m: Message, target: int, line: Message -> string) returns (summary: string)
    requires line(m) == ""
    ensures IsSummary([m], target, line, summary)
  {
    var share := ChunkTarget(target, 1);
    summary := Rendered([], share);
    EmptyPartial(m, share, line);
    FlatOne([m]);
    hide Rendered, ChunkTarget, IsPartial, Flat, ChunkLimit;
    assert SummaryParts([m], target, line, summary, [[m]], [summary]);
  }

  lemma CleanTwo()
    ensures CleanId("c1") && CleanId("c2") && "c1" != "c2"
  {
    TrimFixed("c1");
    TrimFixed("c2");
    assert "c1"[1] != "c2"[1];
  }

  lemma HelloIsGood()
    ensures Good([HELLO]) && CallIds([HELLO]) == []
  {
    hide TrimSpace;
    SinglePaired([HELLO]);
    RepliesHaveNoCalls([HELLO]);
  }

  /** The batch of two calls after the first reply. */
  lemma HalfDone() returns (a: Message, reply: Message)
    ensures a == AssistantMessage(TINY, [HELLO], TWO_CALLS) && BeforeResults(TINY, [HELLO], TWO_CALLS) == [HELLO, a]
    ensures reply == ReplyTo(TINY, [HELLO, a], Result(TWO_CALLS.calls[0], "done"))
    ensures FreshCalls([HELLO], TWO_CALLS.calls) && Answering([HELLO], a, [reply], ["c2"])
  {
    HelloIsGood();
    CleanTwo();
    hide Good, CleanId, CallIds, TrimSpace;
    a := AssistantMessage(TINY, [HELLO], TWO_CALLS);
    reply := ReplyTo(TINY, [HELLO, a], Result(TWO_CALLS.calls[0], "done"));
    assert Ids(a.toolCalls) == ["c1", "c2"] && ReplyIds([reply]) == ["c1"];
    assert TWO_CALLS.calls[2..] == [];
  }

  lemma PreparedHalf(a: Message, reply: Message)
    requires Answering([HELLO], a, [reply], ["c2"])
    ensures Prepared([HELLO] + [a] + [reply], TINY.texts.san) == [HELLO] + [Sanitized(a, TINY.texts.san)] + [reply]
  {
    var san := TINY.texts.san;
    PreparedMap([HELLO], san);
    assert Prepared([HELLO], san) == [HELLO];
    hide Prepared, Answering;
    PreparedAnswering([HELLO], a, [reply], ["c2"], san);
  }

  /** Three messages are more than the trigger allows, and the tail starts behind the user message. */
  lemma TriggersBehindHello(b: Message, reply: Message)
    requires b.role == "assistant" && AllReplies([reply])
    ensures var p := [HELLO] + [b] + [reply];
      Triggered(TINY.cfg, p) && TailStart(p, 1) == 1 && p[..1] == [HELLO]
  {
    HelloIsGood();
    GoodParts([HELLO]);
    hide Good, Blocks, TrimSpace, MessageTokens, Tokens, TailStart, AllReplies, NextBoundary;
    var p := [HELLO] + [b] + [reply];
    TokensAtLeast(p);
    TailWhileAnswering([HELLO], b, [reply], 1);
  }

  lemma CompactsTo(cfg: Config, texts: Texts, h: seq<Message>, p: seq<Message>, summary: string, mid: seq<Message>)
    requires p == Prepared(h, texts.san) && Triggered(cfg, p) && 0 < TailStart(p, cfg.preserve) < |p|
    requires var t := TailStart(p, cfg.preserve);
      IsSummary(p[..t], cfg.target, texts.line, summary) && mid == Normalize([SummaryMessage(summary, p[..t])] + p[t..])
    ensures Compacts(cfg, texts, h, mid)
  {
    hide Prepared, Tokens, TailStart, IsSummary, Normalize, LastTimestamp, TrimSpace;
  }

  /** The compaction after the first reply has something to do and cuts behind the user message. */
  lemma HalfDoneCompacts(a: Message, reply: Message) returns (mid: seq<Message>)
    requires Answering([HELLO], a, [reply], ["c2"])
    ensures Compacts(TINY.cfg, TINY.texts, [HELLO] + [a] + [reply], mid)
    ensures Triggered(TINY.cfg, Prepared([HELLO] + [a] + [reply], TINY.texts.san))
  {
    var b := Sanitized(a, TINY.texts.san);
    var p := [HELLO] + [b] + [reply];
    PreparedHalf(a, reply);
    assert b.role == "assistant" && AllReplies([reply]);
    hide IsSummary, Normalize, Tokens, TailStart, Answering, Prepared, Blocks, TrimSpace, Triggered, Compacts,
      Sanitized;
    TriggersBehindHello(b, reply);
    var summary := OneMessageSummary(HELLO, 1, TINY.texts.line);
    mid := Normalize([SummaryMessage(summary, p[..1])] + p[1..]);
    CompactsTo(TINY.cfg, TINY.texts, [HELLO] + [a] + [reply], p, summary, mid);
  }

  /** From a single user message: the model asks for compact_context and another tool in one batch, and the round ends
      with a history that is not paired. */
  lemma MidBatchBreaks() returns (mids: seq<seq<Message>>)
    ensures Good([HELLO]) && FreshCalls([HELLO], TWO_CALLS.calls)
    ensures RoundSteps(TINY, [HELLO], TWO_CALLS, mids) && !Paired(mids[|mids| - 1])
  {
    HelloIsGood();
    hide Answering, Compacts, Triggered, Good, FreshCalls, Paired, Prepared;
    var a, first := HalfDone();
    var mid := HalfDoneCompacts(a, first);
    var results := Results(TINY, [HELLO, a], TWO_CALLS.calls);
    var second := ReplyTo(TINY, mid, results[1]);
    assert [HELLO, a] + [first] == [HELLO] + [a] + [first];
    mids := [[HELLO, a], mid, mid + [second]];
    assert TWO_CALLS.calls[..2] == TWO_CALLS.calls;
    assert ReplyIds([second]) == ["c2"];
    CompactingMidBatchBreaks(TINY, [HELLO], a, [first], [second], ["c2"], mid);
    assert AppendedOne(TINY, mids[0], results[0], mids[1]) && AppendedOne(TINY, mids[1], results[1], mids[2]);
  }
}
