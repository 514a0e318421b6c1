/** What a turn still tells when its last tool call is compact_context (internal/agent/agent.go,
    internal/agent/compaction.go): the compaction replaces the front of the history and keeps the end. */
module KeptTurns {
  import opened Conversation
  import opened Compaction
  import opened HistoryStorage
  import opened AgentRun
  import opened RunHistories

  /** The same messages, but for the sanitised texts of the assistant's. */
  predicate SameTold(stored: seq<Message>, told: seq<Message>, san: string -> string) {
    && |stored| == |told|
    && forall i :: 0 <= i < |told| ==>
        stored[i] == if told[i].role == "assistant" then told[i].(content := san(told[i].content)) else told[i]
  }

  /** The last k messages of `r` are the last k of `h`. */
  predicate KeepsLast(r: seq<Message>, h: seq<Message>, k: nat, san: string -> string) {
    k <= |h| && k <= |r| && SameTold(r[|r| - k..], h[|h| - k..], san)
  }

  predicate NoInternal(h: seq<Message>) {
    forall m :: m in h ==> !(m.role == "user" && m.isInternal)
  }

  lemma SuffixOfConcat<T>(a: seq<T>, b: seq<T>)
    ensures (a + b)[|a + b| - |b|..] == b
  {
  }

  lemma SuffixOfSuffix<T>(s: seq<T>, i: nat, k: nat)
    requires i <= |s| && k <= |s| - i
    ensures s[i..][|s| - i - k..] == s[|s| - k..]
  {
  }

  lemma PreparedTellsSame(h: seq<Message>, san: string -> string)
    requires NoInternal(h)
    ensures SameTold(Prepared(h, san), h, san)
  {
    hide Prepared;
    PreparedMap(h, san);
  }

  lemma PreparedKeepsLast(h: seq<Message>, k: nat, san: string -> string)
    requires k <= |h| && NoInternal(h[|h| - k..])
    ensures KeepsLast(Prepared(h, san), h, k, san)
  {
    hide Prepared, NoInternal, SameTold, KeepsLast;
    var front, last := h[..|h| - k], h[|h| - k..];
    assert h == front + last;
    PreparedTellsSame(last, san);
    PreparedConcat(front, last, san);
    EndsSame(Prepared(front, san), Prepared(last, san), front, last, san);
  }

  lemma EndsSame(a: seq<Message>, b: seq<Message>, front: seq<Message>, last: seq<Message>, san: string -> string)
    requires SameTold(b, last, san)
    ensures KeepsLast(a + b, front + last, |last|, san)
  {
    assert |b| == |last|;
    hide SameTold;
    SuffixOfConcat(a, b);
    SuffixOfConcat(front, last);
  }

  /** Compacting a good history keeps its last messages, as many as the configuration asks to preserve, or all if there
      is nothing to compact. */
  lemma CompactionKeepsLast(cfg: Config, texts: Texts, h: seq<Message>, r: seq<Message>, k: nat)
    requires Good(h) && Compacts(cfg, texts, h, r)
    requires k <= |h| && NoInternal(h[|h| - k..])
    requires Triggered(cfg, Prepared(h, texts.san)) ==> k <= cfg.preserve
    ensures KeepsLast(r, h, k, texts.san)
  {
    hide Good, Compacts, Triggered, TailStart, Prepared, KeepsLast, NoInternal, StandsFor;
    var p := Prepared(h, texts.san);
    GoodCompacted(cfg, texts, h, r);
    PreparedKeepsLast(h, k, texts.san);
    if Triggered(cfg, p) {
      SuffixOfSuffix(r, 1, k);
      SuffixOfSuffix(p, TailStart(p, cfg.preserve), k);
      KeepsLastToo(p, r, h, k, texts.san);
    }
  }

  lemma KeepsLastToo(p: seq<Message>, r: seq<Message>, h: seq<Message>, k: nat, san: string -> string)
    requires KeepsLast(p, h, k, san) && k <= |r| && r[|r| - k..] == p[|p| - k..]
    ensures KeepsLast(r, h, k, san)
  {
    hide SameTold;
  }

  lemma GoodCompacted(cfg: Config, texts: Texts, h: seq<Message>, r: seq<Message>)
    requires Good(h) && Compacts(cfg, texts, h, r)
    ensures var p := Prepared(h, texts.san);
      if !Triggered(cfg, p) then r == p
      else
        && 0 < cfg.preserve < |p| && TailStart(p, cfg.preserve) <= |p| - cfg.preserve
        && r != [] && r[1..] == p[TailStart(p, cfg.preserve)..]
  {
    hide Paired, StartsPlain, DroppedMessage, InternalIsPlain, Compacts, StandsFor, TailStart, Prepared, Tokens;
    CompactedShape(cfg, texts, h, r);
  }

  /** Before its last call compacts, the round's history told the turn and was good. */
  lemma FullTurn(env: Env, h: seq<Message>, turn: Turn, results: seq<Result>, mids: seq<seq<Message>>)
    returns (full: seq<Message>)
    requires Good(h) && turn.Replied? && FreshCalls(h, turn.calls)
    requires var before := BeforeResults(env, h, turn);
      mids != [] && mids[0] == before && results == Results(env, before, turn.calls[..Executed(env, turn.calls)])
    requires Steps(env, results, mids) && results != []
    requires forall j :: 0 <= j < |results| - 1 ==> results[j].call.name != COMPACT_CONTEXT
    ensures full == mids[|results| - 1] + [ReplyTo(env, mids[|results| - 1], results[|results| - 1])]
    ensures |full| == |h| + 1 + |turn.calls| && full[..|h|] == h && TellsTurn(env, full, |h|, turn) && Good(full)
  {
    var n := |results| - 1;
    full := mids[n] + [ReplyTo(env, mids[n], results[n])];
    FullTells(env, h, turn, results, mids, full);
    hide Steps, Good, TellsTurn, FreshCalls, BeforeResults, Open, CallsLeft, Results;
    BatchBegins(env, h, turn);
    BatchState(env, results, mids, n);
    CallsLeftNext(results, n);
    NoCallsLeft(results);
    LastReplyCloses(env, mids[n], results[n]);
  }

  lemma FullTells(env: Env, h: seq<Message>, turn: Turn, results: seq<Result>, mids: seq<seq<Message>>,
                  full: seq<Message>)
    requires turn.Replied? && Steps(env, results, mids) && results != []
    requires var before := BeforeResults(env, h, turn);
      mids[0] == before && results == Results(env, before, turn.calls[..Executed(env, turn.calls)])
    requires forall j :: 0 <= j < |results| - 1 ==> results[j].call.name != COMPACT_CONTEXT
    requires full == mids[|results| - 1] + [ReplyTo(env, mids[|results| - 1], results[|results| - 1])]
    ensures |full| == |h| + 1 + |turn.calls| && full[..|h|] == h && TellsTurn(env, full, |h|, turn)
  {
    var n := |results| - 1;
    StepsTell(env, results, mids, n);
    assert TellsReply(full[|full| - 1], results[n].call, results[n].text, env.stamp(|mids[0]| + n));
    hide Steps, TellsReply, TellsTurn, BeforeResults;
    assert full[..|mids[0]|] == mids[n][..|mids[0]|];
    ResultsTell(env, h, turn, full);
  }

  lemma LastReplyCloses(env: Env, h: seq<Message>, r: Result)
    requires Open(h, [r.call.id] + [])
    ensures Good(h + [ReplyTo(env, h, r)])
  {
    hide Answering, Good;
    var p, a, q :| Answering(p, a, q, [r.call.id] + []) && h == p + [a] + q;
    var m := ReplyTo(env, h, r);
    AnsweringAppend(p, a, q, m, []);
    assert h + [m] == p + [a] + (q + [m]);
    AnsweringDone(p, a, q + [m]);
  }

  lemma TurnHasNoInternal(env: Env, h: seq<Message>, at: nat, turn: Turn)
    requires turn.Replied? && TellsTurn(env, h, at, turn) && |h| == at + 1 + |turn.calls|
    ensures NoInternal(h[at..])
  {
    hide TellsReply;
    var run := if 0 < env.maxCalls < |turn.calls| then env.maxCalls else |turn.calls|;
    var first := at + 1 + (|turn.calls| - run);
    forall i | at <= i < |h| ensures h[i].role != "user" {
      if at < i < first {
        ReplyIsNoUser(h[at + 1 + (i - at - 1)], turn.calls[run..][i - at - 1]);
      } else if first <= i {
        ReplyIsNoUser(h[first + (i - first)], turn.calls[..run][i - first]);
      }
    }
    assert forall m :: m in h[at..] ==> exists i :: at <= i < |h| && h[i] == m;
  }

  lemma ReplyIsNoUser(m: Message, call: ToolCall)
    ensures (exists text, stamp :: TellsReply(m, call, text, stamp)) ==> m.role != "user"
  {
  }

  /** A round whose last executed call, and no other, is compact_context: before the compaction the history told the
      turn, and the compaction keeps its last messages. */
  lemma CompactedTurnTells(env: Env, h: seq<Message>, turn: Turn, h': seq<Message>) returns (full: seq<Message>)
    requires Good(h) && Round(env, h, turn, h') && FreshCalls(h, turn.calls)
    requires var n := if 0 < env.maxCalls < |turn.calls| then env.maxCalls else |turn.calls|;
      && turn.calls[n - 1].name == "compact_context"
      && forall j :: 0 <= j < n - 1 ==> turn.calls[j].name != "compact_context"
    ensures |full| == |h| + 1 + |turn.calls| && full[..|h|] == h && TellsTurn(env, full, |h|, turn)
    ensures forall k: nat ::
        k <= 1 + |turn.calls| && (Triggered(env.cfg, Prepared(full, env.texts.san)) ==> k <= env.cfg.preserve)
        ==> KeepsLast(h', full, k, env.texts.san)
  {
    var results, mids := LastCallCompacts(env, h, turn, h');
    hide BeforeResults, Compacts, Good, TellsTurn, FreshCalls, Steps, Prepared, Triggered, KeepsLast, NoInternal,
      Results;
    full := FullTurn(env, h, turn, results, mids);
    TurnHasNoInternal(env, full, |h|, turn);
    CompactionKeepsTurn(env, full, h', 1 + |turn.calls|);
  }

  lemma LastCallCompacts(env: Env, h: seq<Message>, turn: Turn, h': seq<Message>)
    returns (results: seq<Result>, mids: seq<seq<Message>>)
    requires Round(env, h, turn, h')
    requires var n := if 0 < env.maxCalls < |turn.calls| then env.maxCalls else |turn.calls|;
      && turn.calls[n - 1].name == "compact_context"
      && forall j :: 0 <= j < n - 1 ==> turn.calls[j].name != "compact_context"
    ensures var before := BeforeResults(env, h, turn);
      && results == Results(env, before, turn.calls[..Executed(env, turn.calls)])
      && Steps(env, results, mids) && mids[0] == before && results != []
    ensures forall j :: 0 <= j < |results| - 1 ==> results[j].call.name != COMPACT_CONTEXT
    ensures var n := |results| - 1;
      Compacts(env.cfg, env.texts, mids[n] + [ReplyTo(env, mids[n], results[n])], h')
  {
    hide Compacts;
    var before := BeforeResults(env, h, turn);
    results := Results(env, before, turn.calls[..Executed(env, turn.calls)]);
    mids :| Steps(env, results, mids) && mids[0] == before && mids[|results|] == h';
    assert AppendedOne(env, mids[|results| - 1], results[|results| - 1], h');
  }

  lemma CompactionKeepsTurn(env: Env, full: seq<Message>, h': seq<Message>, n: nat)
    requires Good(full) && Compacts(env.cfg, env.texts, full, h') && n <= |full| && NoInternal(full[|full| - n..])
    ensures forall k: nat ::
        k <= n && (Triggered(env.cfg, Prepared(full, env.texts.san)) ==> k <= env.cfg.preserve)
        ==> KeepsLast(h', full, k, env.texts.san)
  {
    hide Compacts, Good, Prepared, Triggered, KeepsLast, NoInternal;
    forall k: nat | k <= n && (Triggered(env.cfg, Prepared(full, env.texts.san)) ==> k <= env.cfg.preserve)
      ensures KeepsLast(h', full, k, env.texts.san)
    {
      NoInternalLater(full, |full| - n, |full| - k);
      CompactionKeepsLast(env.cfg, env.texts, full, h', k);
    }
  }

  lemma NoInternalLater(h: seq<Message>, i: nat, j: nat)
    requires i <= j <= |h| && NoInternal(h[i..])
    ensures NoInternal(h[j..])
  {
    assert forall m :: m in h[j..] ==> m in h[i..];
  }
}
