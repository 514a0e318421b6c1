/** compactHistoryForStorage (internal/agent/compaction.go) as a whole: what it returns, and when the result
    is paired again. */
module HistoryStorage {
  import opened Text
  import opened Conversation
  import opened Normalisation
  import opened Trimming
  import opened Compaction
  import opened Summaries

  datatype Texts = Texts(san: string -> string, line: Message -> string, parts: seq<Message> -> int)

  /** lastHistoryTimestamp */
  function LastTimestamp(h: seq<Message>): (r: string) {
    if h == [] then ""
    else if TrimSpace(h[|h| - 1].timestamp) != "" then h[|h| - 1].timestamp
    else LastTimestamp(h[..|h| - 1])
  }

  function SummaryMessage(summary: string, head: seq<Message>): (r: Message) {
    Message("system", summary, "", "", [], false, LastTimestamp(head))
  }

  /** The guards before the head is cut off. */
  predicate Triggered(cfg: Config, p: seq<Message>) {
    && cfg.enabled && p != []
    && cfg.trigger > 0 && cfg.target > 0 && cfg.preserve > 0
    && Tokens(p) > cfg.trigger && |p| > cfg.preserve
  }

  /** r is a result compaction may give for h; only the summary text is left open. */
  ghost predicate Compacts(cfg: Config, texts: Texts, h: seq<Message>, r: seq<Message>) {
    var p := Prepared(h, texts.san);
    if !Triggered(cfg, p) then r == p
    else
      var t := TailStart(p, cfg.preserve);
      if t == 0 || t >= |p| then r == HistoryTail(p, cfg.preserve)
      else exists summary: string ::
        && IsSummary(p[..t], cfg.target, texts.line, summary)
        && r == Normalize([SummaryMessage(summary, p[..t])] + p[t..])
  }

  method CompactHistoryForStorage(cfg: Config, texts: Texts, history: seq<Message>) returns (r: seq<Message>)
    ensures Compacts(cfg, texts, history, r)
  {
    hide Tokens, Normalize, TailStart, IsSummary, LastTimestamp, TrimSpace;
    var compacted := Prepare(history, texts.san);
    if !cfg.enabled || |compacted| == 0 {
      return compacted;
    }
    if cfg.trigger <= 0 || cfg.target <= 0 || cfg.preserve <= 0 {
      return compacted;
    }
    var tokens := ApproximateHistoryTokens(compacted);
    if tokens <= cfg.trigger {
      return compacted;
    }
    if |compacted| <= cfg.preserve {
      return compacted;
    }
    var tailStart := ResolveCompactionTailStart(compacted, cfg.preserve);
    if tailStart <= 0 || tailStart >= |compacted| {
      return HistoryTail(compacted, cfg.preserve);
    }
    var head, tail := compacted[..tailStart], compacted[tailStart..];
    var summary := SummarizeHistoryAdaptive(head, cfg.target, texts.parts(head), texts.line);
    // a summary is never blank, so the source's "keep everything" branch for a blank one is not taken
    SummaryBound(head, cfg.target, texts.line, summary);
    assert TrimSpace(summary) != "";
    r := [SummaryMessage(summary, head)] + tail;
    r := NormalizeToolCallHistory(r);
  }

  // ---------------------------------------------------------------- preparation keeps pairing

  /** Internal user messages are notes, not tool calls. */
  predicate InternalIsPlain(h: seq<Message>) {
    forall m :: m in h && DroppedMessage(m) ==> m.toolCalls == []
  }

  lemma {:induction false} PreparedConcat(a: seq<Message>, b: seq<Message>, san: string -> string)
    ensures Prepared(a + b, san) == Prepared(a, san) + Prepared(b, san)
  {
    if b == [] {
      assert a + b == a;
    } else {
      assert (a + b)[..|a + b| - 1] == a + b[..|b| - 1];
      PreparedConcat(a, b[..|b| - 1], san);
    }
  }

  lemma {:induction false} PreparedMap(h: seq<Message>, san: string -> string)
    requires forall m :: m in h ==> !DroppedMessage(m)
    ensures |Prepared(h, san)| == |h|
    ensures forall i :: 0 <= i < |h| ==> Prepared(h, san)[i] == Sanitized(h[i], san)
  {
    if h != [] {
      PreparedMap(h[..|h| - 1], san);
    }
  }

  lemma PreparedBlock(b: seq<Message>, san: string -> string)
    requires Block(b) && InternalIsPlain(b)
    ensures Blocks(Prepared(b, san))
  {
    if DroppedMessage(b[0]) {
      assert b[0] in b;
      assert b == [b[0]] && b[..0] == [];
    } else {
      assert forall i :: 1 <= i < |b| ==> IsReply(b[i]);
      PreparedMap(b, san);
      var p := Prepared(b, san);
      assert Ids(p[0].toolCalls) == Ids(b[0].toolCalls);
      assert ReplyIds(p[1..]) == ReplyIds(b[1..]);
      OneBlock(p);
    }
  }

  lemma {:induction false} PreparedBlocks(h: seq<Message>, san: string -> string)
    requires Blocks(h) && InternalIsPlain(h)
    ensures Blocks(Prepared(h, san))
    decreases |h|
  {
    hide Block, Prepared;
    if h == [] {
      NothingPrepared(san);
    } else {
      var n := BlockLength(h[0]);
      PreparedBlock(h[..n], san);
      PreparedBlocks(h[n..], san);
      PreparedConcat(h[..n], h[n..], san);
      BlocksConcat(Prepared(h[..n], san), Prepared(h[n..], san));
      assert h == h[..n] + h[n..];
    }
  }

  lemma NothingPrepared(san: string -> string)
    ensures Prepared([], san) == []
  {
  }

  lemma {:induction false} PreparedCallIds(h: seq<Message>, san: string -> string)
    requires InternalIsPlain(h)
    ensures CallIds(Prepared(h, san)) == CallIds(h)
  {
    if h != [] {
      var front, last := h[..|h| - 1], h[|h| - 1];
      assert last in h;
      PreparedCallIds(front, san);
      assert h == front + [last];
      var p := Prepared(front, san);
      CallIdsConcat(front, [last]);
      CallIdsConcat(p, [Sanitized(last, san)]);
      assert CallIds(front + [last]) == CallIds(front) + CallIds([last]);
      OneMessageIds(last);
      OneMessageIds(Sanitized(last, san));
      if DroppedMessage(last) {
        assert Ids(last.toolCalls) == [] && Prepared(h, san) == p;
      } else {
        assert Prepared(h, san) == p + [Sanitized(last, san)];
      }
    }
  }

  lemma OneMessageIds(m: Message)
    ensures CallIds([m]) == Ids(m.toolCalls)
  {
    assert CallIds([m]) == Ids(m.toolCalls) + CallIds([m][1..]);
  }

  /** Dropping internal messages and sanitising texts keeps a history paired. */
  lemma PreparedPaired(h: seq<Message>, san: string -> string)
    requires Paired(h) && InternalIsPlain(h)
    ensures Paired(Prepared(h, san))
  {
    PreparedBlocks(h, san);
    PreparedCallIds(h, san);
  }

  lemma PreparedStart(h: seq<Message>, san: string -> string)
    requires StartsPlain(h) && !DroppedMessage(h[0])
    ensures StartsPlain(Prepared(h, san)) && Prepared(h, san)[0] == Sanitized(h[0], san)
  {
    assert h == [h[0]] + h[1..];
    PreparedConcat([h[0]], h[1..], san);
    assert [h[0]][..0] == [];
  }

  // ---------------------------------------------------------------- where the cut falls

  lemma {:induction false} SkipRepliesStops(h: seq<Message>, i: nat)
    requires i < |h|
    ensures var r := SkipReplies(h, i); r == 0 || h[r].role != "tool"
    ensures forall k :: SkipReplies(h, i) < k <= i ==> h[k].role == "tool"
  {
    if 0 < i && h[i].role == "tool" {
      SkipRepliesStops(h, i - 1);
    }
  }

  /** The last message of a history of blocks makes no calls: it is plain, or a reply. */
  lemma {:induction false} LastMakesNoCalls(h: seq<Message>)
    requires Blocks(h) && h != []
    ensures h[|h| - 1].toolCalls == []
    decreases |h|
  {
    var n := BlockLength(h[0]);
    if n < |h| {
      LastMakesNoCalls(h[n..]);
    } else {
      assert Block(h[..n]) && h[..n] == h;
      if n > 1 {
        assert IsReply(h[n - 1]);
      }
    }
  }

  /** Skipping back over replies ends at the start of a block, before which nothing makes calls. */
  lemma SkipRepliesIsBoundary(h: seq<Message>, w: nat)
    requires Blocks(h) && w < |h|
    ensures var s := SkipReplies(h, w);
      NextBoundary(h, s) == s && h[s].role != "tool" && SkipCalls(h, s) == s
  {
    hide Block;
    var s := SkipReplies(h, w);
    SkipRepliesStops(h, w);
    FirstIsNoReply(h);
    NonReplyIsBoundary(h, s);
    if s > 0 {
      BoundarySplits(h, s);
      LastMakesNoCalls(h[..s]);
    }
  }

  /** In a history of blocks the tail starts at the last boundary that leaves `preserve` messages. */
  lemma TailStartIsBoundary(h: seq<Message>, preserve: nat)
    requires Blocks(h) && 1 <= preserve < |h|
    ensures var t := TailStart(h, preserve);
      && t <= |h| - preserve && NextBoundary(h, t) == t
      && (forall k :: t < k <= |h| - preserve ==> h[k].role == "tool")
    ensures TailStart(h, preserve) == 0 <==> |h| - preserve < BlockLength(h[0])
  {
    hide Blocks, SkipReplies, SkipCalls;
    var w := |h| - preserve;
    SkipRepliesStops(h, w);
    SkipRepliesIsBoundary(h, w);
    FirstBlockReplies(h, w);
  }

  lemma FirstIsNoReply(h: seq<Message>)
    requires Blocks(h) && h != []
    ensures h[0].role != "tool"
  {
    assert h[..BlockLength(h[0])][0] == h[0];
  }

  /** Inside the first block everything after its head is a reply; after it a new block starts. */
  lemma FirstBlockReplies(h: seq<Message>, w: nat)
    requires Blocks(h) && 1 <= w < |h|
    ensures w < BlockLength(h[0]) ==> forall k :: 0 < k <= w ==> h[k].role == "tool"
    ensures w >= BlockLength(h[0]) ==> h[BlockLength(h[0])].role != "tool"
  {
    var n := BlockLength(h[0]);
    if w < n {
      forall k | 0 < k <= w ensures h[k].role == "tool" {
        assert IsReply(h[..n][k]);
      }
    } else {
      FirstIsNoReply(h[n..]);
    }
  }

  // ---------------------------------------------------------------- the theorems

  lemma TailIsSuffix(p: seq<Message>, preserve: nat)
    requires 1 <= preserve < |p|
    ensures HistoryTail(p, preserve) == p[|p| - preserve..]
  {
  }

  /** The timestamp is that of the last message that has one, and empty if none has. */
  ghost predicate LatestStamp(head: seq<Message>, stamp: string) {
    || (stamp == "" && forall i :: 0 <= i < |head| ==> TrimSpace(head[i].timestamp) == "")
    || (exists i :: 0 <= i < |head| && head[i].timestamp == stamp && TrimSpace(stamp) != ""
          && forall j :: i < j < |head| ==> TrimSpace(head[j].timestamp) == "")
  }

  lemma {:induction false} LastTimestampIsLatest(h: seq<Message>)
    ensures LatestStamp(h, LastTimestamp(h))
  {
    hide TrimSpace;
    if h != [] {
      LastTimestampIsLatest(h[..|h| - 1]);
    }
  }

  /** The message stands for the head: a plain system message that carries a summary of it, not blank and of at most
      max(48, target) tokens, and the head's latest timestamp. */
  ghost predicate StandsFor(m: Message, head: seq<Message>, target: int, line: Message -> string) {
    && m.role == "system" && m.toolCalls == [] && !m.isInternal && m.name == "" && m.toolCallId == ""
    && IsSummary(head, target, line, m.content)
    && TrimSpace(m.content) != "" && TextTokens(m.content) <= (if target > 48 then target else 48)
    && LatestStamp(head, m.timestamp)
  }

  lemma SummaryStandsFor(head: seq<Message>, target: int, line: Message -> string, summary: string)
    requires head != [] && target > 0 && IsSummary(head, target, line, summary)
    ensures StandsFor(SummaryMessage(summary, head), head, target, line)
  {
    hide IsSummary, TrimSpace, TextTokens, LatestStamp, LastTimestamp;
    SummaryBound(head, target, line, summary);
    LastTimestampIsLatest(head);
  }

  /** What compaction gives for any history: the prepared history if it is off or within a limit; a message that stands
      for the head, before what normalising leaves of the tail; or, if the cut finds no place, the last messages. */
  lemma CompactedTells(cfg: Config, texts: Texts, h: seq<Message>, r: seq<Message>)
    requires Compacts(cfg, texts, h, r)
    ensures var p := Prepared(h, texts.san);
      if !cfg.enabled || cfg.trigger <= 0 || cfg.target <= 0 || cfg.preserve <= 0
         || Tokens(p) <= cfg.trigger || |p| <= cfg.preserve
      then r == p
      else
        var t := TailStart(p, cfg.preserve);
        if 0 < t < |p|
        then r != [] && StandsFor(r[0], p[..t], cfg.target, texts.line) && r[1..] == Normalize(p[t..])
        else r == p[|p| - cfg.preserve..]
  {
    hide Tokens, TailStart, IsSummary, LastTimestamp, TrimSpace, Normalize, StandsFor, Prepared;
    var p := Prepared(h, texts.san);
    if Triggered(cfg, p) {
      var t := TailStart(p, cfg.preserve);
      if 0 < t < |p| {
        var summary: string :| IsSummary(p[..t], cfg.target, texts.line, summary)
          && r == Normalize([SummaryMessage(summary, p[..t])] + p[t..]);
        SummaryStandsFor(p[..t], cfg.target, texts.line, summary);
        PlainHeadStays(SummaryMessage(summary, p[..t]), p[t..]);
      } else {
        TailIsSuffix(p, cfg.preserve);
      }
    }
  }

  /** A plain first message survives normalisation and changes nothing for the rest. */
  lemma PlainHeadStays(m: Message, rest: seq<Message>)
    requires Plain(m)
    ensures Normalize([m] + rest) == [m] + Normalize(rest)
  {
    hide TrimSpace;
    var h := [m] + rest;
    assert forall x :: x in h <==> x == m || x in rest;
    assert OfferedIds(h) == OfferedIds(rest) && AnsweredIds(h) == AnsweredIds(rest);
    KeepOnlyConcat([m], rest, OfferedIds(rest), AnsweredIds(rest));
    assert [m][..0] == [];
    assert KeepOnly([m], OfferedIds(rest), AnsweredIds(rest)) == [m];
  }

  /** What compaction does to a paired history: nothing if it does not trigger, or the head becomes one message that
      stands for it and the tail, a whole number of blocks with at least the last `preserve` messages, stays as it
      is. */
  lemma CompactedShape(cfg: Config, texts: Texts, h: seq<Message>, r: seq<Message>)
    requires Paired(h) && InternalIsPlain(h) && Compacts(cfg, texts, h, r)
    requires StartsPlain(h) && !DroppedMessage(h[0])
    ensures var p := Prepared(h, texts.san);
      if !Triggered(cfg, p) then r == p
      else
        var t := TailStart(p, cfg.preserve);
        && 0 < t <= |p| - cfg.preserve && r != []
        && StandsFor(r[0], p[..t], cfg.target, texts.line) && r[1..] == p[t..]
  {
    hide Tokens, TextTokens, TrimSpace, TailStart, StandsFor, Prepared, Normalize, Compacts;
    var p := Prepared(h, texts.san);
    PreparedPaired(h, texts.san);
    PreparedStart(h, texts.san);
    CompactedTells(cfg, texts, h, r);
    if Triggered(cfg, p) {
      TailStartIsBoundary(p, cfg.preserve);
      var t := TailStart(p, cfg.preserve);
      PairedCut(p, t);
      NormalizePaired(p[t..]);
    }
  }

  lemma HeadAndTailPaired(m: Message, p: seq<Message>, t: nat)
    requires Paired(p) && t <= |p| && NextBoundary(p, t) == t && Plain(m)
    ensures Paired([m] + p[t..])
  {
    hide Tokens, Blocks;
    PairedCut(p, t);
    SinglePaired([m]);
    RepliesHaveNoCalls([m]);
    PairedJoin([m], p[t..]);
  }

  /** Compacting a paired history that starts with a plain message gives one again. */
  lemma CompactedPaired(cfg: Config, texts: Texts, h: seq<Message>, r: seq<Message>)
    requires Paired(h) && InternalIsPlain(h) && Compacts(cfg, texts, h, r)
    requires StartsPlain(h) && !DroppedMessage(h[0])
    ensures Paired(r) && StartsPlain(r) && !DroppedMessage(r[0]) && InternalIsPlain(r)
  {
    hide Tokens, TextTokens, TrimSpace, TailStart, Paired, Compacts, LatestStamp, IsSummary;
    var p := Prepared(h, texts.san);
    PreparedPaired(h, texts.san);
    PreparedStart(h, texts.san);
    PreparedInternal(h, texts.san);
    CompactedShape(cfg, texts, h, r);
    if Triggered(cfg, p) {
      TailBoundary(p, cfg.preserve);
      var t := TailStart(p, cfg.preserve);
      assert r == [r[0]] + p[t..];
      HeadAndTailPaired(r[0], p, t);
    }
  }

  lemma TailBoundary(p: seq<Message>, preserve: nat)
    requires Paired(p) && 1 <= preserve < |p|
    ensures NextBoundary(p, TailStart(p, preserve)) == TailStart(p, preserve)
  {
    TailStartIsBoundary(p, preserve);
  }

  lemma {:induction false} PreparedInternal(h: seq<Message>, san: string -> string)
    ensures forall m :: m in Prepared(h, san) ==> !DroppedMessage(m)
  {
    if h != [] {
      PreparedInternal(h[..|h| - 1], san);
    }
  }

  /** Without the plain start the cut can run down to the front of the history and the fallback then cuts
      inside the first block. For a history that needs compacting the result is paired exactly when the
      first block ends before the preserved messages begin. */
  lemma CompactedPairedIff(cfg: Config, texts: Texts, h: seq<Message>, r: seq<Message>)
    requires Paired(h) && InternalIsPlain(h) && Compacts(cfg, texts, h, r)
    requires Triggered(cfg, Prepared(h, texts.san))
    ensures var p := Prepared(h, texts.san);
      Paired(r) <==> BlockLength(p[0]) <= |p| - cfg.preserve
  {
    hide Tokens, TextTokens, TrimSpace, LastTimestamp, TailStart;
    var p := Prepared(h, texts.san);
    PreparedPaired(h, texts.san);
    TailStartIsBoundary(p, cfg.preserve);
    var t := TailStart(p, cfg.preserve);
    if t == 0 {
      FirstBlockReplies(p, |p| - cfg.preserve);
      TailIsSuffix(p, cfg.preserve);
      StartsWithReply(r);
    } else {
      var summary: string :| IsSummary(p[..t], cfg.target, texts.line, summary)
        && r == Normalize([SummaryMessage(summary, p[..t])] + p[t..]);
      HeadAndTailPaired(SummaryMessage(summary, p[..t]), p, t);
      NormalizePaired([SummaryMessage(summary, p[..t])] + p[t..]);
    }
  }

  lemma StartsWithReply(h: seq<Message>)
    requires h != [] && h[0].role == "tool"
    ensures !Paired(h)
  {
    if Blocks(h) {
      FirstIsNoReply(h);
    }
  }
}
