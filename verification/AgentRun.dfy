/** Runner.Run (internal/agent/agent.go): model turns, tool batches and explicit compaction over one history. */
module AgentRun {
  import opened Text
  import opened Conversation
  import opened Compaction
  import opened HistoryStorage

  /** One answer of the model, or a request that failed for good. */
  datatype Turn = Failed | Replied(content: string, name: string, calls: seq<ToolCall>)

  datatype Outcome = Ready | RoundLimit | RequestFailed | AwaitingModel

  /** What Run depends on besides the history: limits, compaction, the tools, and the message clock. What a tool
      answers may depend on the history and on the calls of its batch that were carried out before it. */
  datatype Env = Env(maxLoops: int, maxCalls: int, cfg: Config, texts: Texts,
                     exec: (seq<Message>, seq<ToolCall>, ToolCall) -> string, skipped: (string, int) -> string,
                     stamp: nat -> string)

  datatype Result = Result(call: ToolCall, text: string)

  const COMPACT_CONTEXT := "compact_context"

  function UserMessage(env: Env, h: seq<Message>, prompt: string): Message {
    Message("user", prompt, "", "", [], false, env.stamp(|h|))
  }

  function AssistantMessage(env: Env, h: seq<Message>, turn: Turn): Message
    requires turn.Replied?
  {
    Message("assistant", env.texts.san(turn.content), turn.name, "", turn.calls, false, env.stamp(|h|))
  }

  function ReplyTo(env: Env, h: seq<Message>, r: Result): Message {
    Message("tool", r.text, r.call.name, r.call.id, [], false, env.stamp(|h|))
  }

  function SkippedReply(env: Env, call: ToolCall): Message {
    Message("tool", env.skipped(call.name, env.maxCalls), call.name, call.id, [], false, "")
  }

  /** How many of the calls are executed. */
  function Executed(env: Env, calls: seq<ToolCall>): (n: nat)
    ensures n <= |calls|
  {
    if env.maxCalls > 0 && |calls| > env.maxCalls then env.maxCalls else |calls|
  }

  function SkippedReplies(env: Env, calls: seq<ToolCall>): (r: seq<Message>)
    ensures |r| == |calls|
    ensures forall i :: 0 <= i < |r| ==> r[i] == SkippedReply(env, calls[i])
  {
    seq(|calls|, i requires 0 <= i < |calls| => SkippedReply(env, calls[i]))
  }

  /** The results of calls carried out one after the other. */
  function Results(env: Env, h: seq<Message>, calls: seq<ToolCall>): (r: seq<Result>)
    ensures |r| == |calls|
    ensures forall i :: 0 <= i < |r| ==> r[i] == Result(calls[i], env.exec(h, calls[..i], calls[i]))
  {
    seq(|calls|, i requires 0 <= i < |calls| => Result(calls[i], env.exec(h, calls[..i], calls[i])))
  }

  // ---------------------------------------------------------------- one batch of tools

  predicate IsArrivalOrder(arrival: seq<nat>, n: nat) {
    && |arrival| == n && Distinct(arrival)
    && forall i: nat :: i < n ==> i in arrival
  }

  const PARALLEL_SAFE: set<string> := {
    "read_file", "read_previous_messages", "list_dir", "grep_search", "search_web", "search_news",
    "fetch_web_page", "get_weather", "search_gifs", "list_rss_feeds", "read_rss_feed", "list_background_tasks",
    "get_background_task", "get_background_task_logs", "list_sandbox_containers", "inspect_sandbox_container"
  }

  predicate AllSafe(calls: seq<ToolCall>) {
    forall i :: 0 <= i < |calls| ==> TrimSpace(calls[i].name) in PARALLEL_SAFE
  }

  /** What "parallel-safe" means: such calls change nothing another one can see. */
  ghost predicate SafeToolsDoNotDisturb(env: Env) {
    forall h, before, call :: AllSafe(before) ==> env.exec(h, before, call) == env.exec(h, [], call)
  }

  predicate InParallel(calls: seq<ToolCall>) {
    |calls| >= 2 && AllSafe(calls)
  }

  /** The parallel branch of executeToolCalls: the calls finish in any order, each seeing those before it, and the
      results are put back by index. */
  method CollectParallel(env: Env, history: seq<Message>, calls: seq<ToolCall>, arrival: seq<nat>)
    returns (results: seq<Result>)
    requires SafeToolsDoNotDisturb(env) && AllSafe(calls) && IsArrivalOrder(arrival, |calls|)
    ensures results == Results(env, history, calls)
  {
    hide PARALLEL_SAFE, TrimSpace;
    var slots := new Result[|calls|](i => Result(ToolCall("", "", ""), ""));
    var done: seq<ToolCall> := [];
    for k := 0 to |arrival|
      invariant AllSafe(done)
      invariant forall j :: 0 <= j < k && arrival[j] < |calls| ==>
        slots[arrival[j]] == Result(calls[arrival[j]], env.exec(history, [], calls[arrival[j]]))
    {
      var index := arrival[k];
      if index < |calls| {
        slots[index] := Result(calls[index], env.exec(history, done, calls[index]));
        done := done + [calls[index]];
      }
    }
    forall i: nat | i < |calls| ensures slots[i] == Result(calls[i], env.exec(history, calls[..i], calls[i])) {
      assert i in arrival;
      var j :| 0 <= j < |arrival| && arrival[j] == i;
      assert AllSafe(calls[..i]);
    }
    results := slots[..];
  }

  /** executeToolCalls: a batch of parallel-safe calls runs in parallel, any other one after the other; the results
      stand in call order and are those of the sequential run. */
  method ExecuteToolCalls(env: Env, history: seq<Message>, calls: seq<ToolCall>, arrival: seq<nat>)
    returns (results: seq<Result>)
    requires SafeToolsDoNotDisturb(env)
    requires InParallel(calls) ==> IsArrivalOrder(arrival, |calls|)
    ensures results == Results(env, history, calls)
  {
    hide PARALLEL_SAFE, TrimSpace, SafeToolsDoNotDisturb;
    if InParallel(calls) {
      results := CollectParallel(env, history, calls, arrival);
      return;
    }
    results := [];
    for i := 0 to |calls|
      invariant results == Results(env, history, calls)[..i]
    {
      results := results + [Result(calls[i], env.exec(history, calls[..i], calls[i]))];
    }
  }

  /** The histories while the executed results are appended one by one, compacting after compact_context. */
  ghost predicate Steps(env: Env, results: seq<Result>, mids: seq<seq<Message>>) {
    && |mids| == |results| + 1
    && forall k :: 0 <= k < |results| ==> AppendedOne(env, mids[k], results[k], mids[k + 1])
  }

  ghost predicate Appended(env: Env, h: seq<Message>, results: seq<Result>, h': seq<Message>) {
    exists mids :: Steps(env, results, mids) && mids[0] == h && mids[|results|] == h'
  }

  ghost predicate AppendedOne(env: Env, h: seq<Message>, r: Result, h': seq<Message>) {
    if r.call.name == COMPACT_CONTEXT then Compacts(env.cfg, env.texts, h + [ReplyTo(env, h, r)], h')
    else h' == h + [ReplyTo(env, h, r)]
  }

  function BeforeResults(env: Env, h: seq<Message>, turn: Turn): (r: seq<Message>)
    requires turn.Replied?
  {
    h + [AssistantMessage(env, h, turn)] + SkippedReplies(env, turn.calls[Executed(env, turn.calls)..])
  }

  /** One round of the loop in which the model asked for tools. */
  ghost predicate Round(env: Env, h: seq<Message>, turn: Turn, h': seq<Message>) {
    && turn.Replied? && turn.calls != []
    && var before := BeforeResults(env, h, turn);
       Appended(env, before, Results(env, before, turn.calls[..Executed(env, turn.calls)]), h')
  }

  /** The part of the loop body after the model's answer. */
  method RunRound(env: Env, history: seq<Message>, turn: Turn, arrival: seq<nat>) returns (h: seq<Message>)
    requires turn.Replied? && turn.calls != []
    requires SafeToolsDoNotDisturb(env) && IsArrivalOrder(arrival, Executed(env, turn.calls))
    ensures Round(env, history, turn, h)
    ensures Quiet(env, turn) ==>
      |h| == |history| + 1 + |turn.calls| && h[..|history|] == history && TellsTurn(env, h, |history|, turn)
  {
    hide Compacts, AppendedOne, Appended, SafeToolsDoNotDisturb, IsArrivalOrder, InParallel, TellsTurn, Quiet;
    var workingHistory := history + [AssistantMessage(env, history, turn)];
    var toolCalls := turn.calls;
    if env.maxCalls > 0 && |toolCalls| > env.maxCalls {
      var skipped := toolCalls[env.maxCalls..];
      toolCalls := toolCalls[..env.maxCalls];
      ghost var start := workingHistory;
      for i := 0 to |skipped|
        invariant workingHistory == start + SkippedReplies(env, skipped)[..i]
      {
        workingHistory := workingHistory + [SkippedReply(env, skipped[i])];
      }
      assert SkippedReplies(env, skipped)[..|skipped|] == SkippedReplies(env, skipped);
    } else {
      assert toolCalls[..|toolCalls|] == toolCalls && toolCalls[|toolCalls|..] == [];
    }
    assert workingHistory == BeforeResults(env, history, turn);
    var results := ExecuteToolCalls(env, workingHistory, toolCalls, arrival);
    h := AppendResults(env, workingHistory, results);
    if Quiet(env, turn) {
      RoundTells(env, history, turn, h);
    }
  }

  method AppendResults(env: Env, history: seq<Message>, results: seq<Result>) returns (h: seq<Message>)
    ensures Appended(env, history, results, h)
  {
    hide Compacts;
    h := history;
    ghost var mids := [history];
    for i := 0 to |results|
      invariant Steps(env, results[..i], mids)
      invariant mids[0] == history && mids[i] == h
    {
      h := h + [ReplyTo(env, h, results[i])];
      if results[i].call.name == COMPACT_CONTEXT {
        h := CompactHistoryForStorage(env.cfg, env.texts, h);
      }
      mids := mids + [h];
    }
    assert results[..|results|] == results;
  }

  // ---------------------------------------------------------------- the whole run

  /** starts[i] is the history at the start of round i; each is what the round before it left. */
  ghost predicate Trace(env: Env, history: seq<Message>, prompt: string, turns: seq<Turn>, starts: seq<seq<Message>>) {
    && 1 <= |starts| <= |turns| + 1
    && starts[0] == history + [UserMessage(env, history, prompt)]
    && forall i :: 0 <= i < |starts| - 1 ==> Round(env, starts[i], turns[i], starts[i + 1])
  }

  // ---------------------------------------------------------------- what a history tells

  /** The prompt, as the n-th message. */
  predicate TellsPrompt(env: Env, m: Message, prompt: string, n: nat) {
    && m.role == "user" && m.content == prompt && m.name == "" && m.toolCallId == "" && m.toolCalls == []
    && !m.isInternal && m.timestamp == env.stamp(n)
  }

  /** The model's answer, its text sanitised, with all its calls. */
  predicate TellsAnswer(env: Env, m: Message, turn: Turn, n: nat)
    requires turn.Replied?
  {
    && m.role == "assistant" && m.content == env.texts.san(turn.content) && m.name == turn.name && m.toolCallId == ""
    && m.toolCalls == turn.calls && !m.isInternal && m.timestamp == env.stamp(n)
  }

  /** The reply to a call. */
  predicate TellsReply(m: Message, call: ToolCall, text: string, stamp: string) {
    && m.role == "tool" && m.content == text && m.name == call.name && m.toolCallId == call.id && m.toolCalls == []
    && !m.isInternal && m.timestamp == stamp
  }

  /** From message `at` on: a reply to each call beyond the limit, which was not carried out. */
  predicate TellsSkipped(env: Env, h: seq<Message>, at: nat, skipped: seq<ToolCall>) {
    && at + |skipped| <= |h|
    && forall j :: 0 <= j < |skipped| ==>
        TellsReply(h[at + j], skipped[j], env.skipped(skipped[j].name, env.maxCalls), "")
  }

  /** From message `at` on: to each call what its tool gave, in the order of the calls. */
  predicate TellsResults(env: Env, h: seq<Message>, at: nat, calls: seq<ToolCall>) {
    && at + |calls| <= |h|
    && forall j :: 0 <= j < |calls| ==>
        TellsReply(h[at + j], calls[j], env.exec(h[..at], calls[..j], calls[j]), env.stamp(at + j))
  }

  /** From message `at` on the history tells the turn: the answer, then the replies to its calls. */
  predicate TellsTurn(env: Env, h: seq<Message>, at: nat, turn: Turn)
    requires turn.Replied?
  {
    var run := if 0 < env.maxCalls < |turn.calls| then env.maxCalls else |turn.calls|;
    && at < |h| && TellsAnswer(env, h[at], turn, at)
    && TellsSkipped(env, h, at + 1, turn.calls[run..])
    && TellsResults(env, h, at + 1 + (|turn.calls| - run), turn.calls[..run])
  }

  /** No compact_context is carried out. */
  predicate Quiet(env: Env, turn: Turn) {
    turn.Replied? ==>
      forall j :: 0 <= j < |turn.calls| && (env.maxCalls <= 0 || j < env.maxCalls) ==>
        turn.calls[j].name != "compact_context"
  }

  /** The number of messages these turns make. */
  function Length(turns: seq<Turn>): (n: nat) {
    if turns == [] then 0
    else
      Length(turns[..|turns| - 1])
      + (if turns[|turns| - 1].Replied? then 1 + |turns[|turns| - 1].calls| else 0)
  }

  /** The history is the one given, the prompt, and the turns one after the other. */
  ghost predicate TellsRun(env: Env, history: seq<Message>, prompt: string, turns: seq<Turn>, h: seq<Message>) {
    && |h| == |history| + 1 + Length(turns) && h[..|history|] == history
    && TellsPrompt(env, h[|history|], prompt, |history|)
    && forall i :: 0 <= i < |turns| ==>
        turns[i].Replied? && TellsTurn(env, h, |history| + 1 + Length(turns[..i]), turns[i])
  }

  /** A round without compaction adds its turn behind the history. */
  lemma RoundTells(env: Env, h: seq<Message>, turn: Turn, h': seq<Message>)
    requires Round(env, h, turn, h') && Quiet(env, turn)
    ensures |h'| == |h| + 1 + |turn.calls| && h'[..|h|] == h && TellsTurn(env, h', |h|, turn)
  {
    var before := BeforeResults(env, h, turn);
    var results := Results(env, before, turn.calls[..Executed(env, turn.calls)]);
    var mids :| Steps(env, results, mids) && mids[0] == before && mids[|results|] == h';
    hide Steps, TellsReply, TellsTurn;
    StepsTell(env, results, mids, |results|);
    ResultsTell(env, h, turn, h');
  }

  /** The results behind the answer and the skipped replies complete the turn. */
  lemma ResultsTell(env: Env, h: seq<Message>, turn: Turn, h': seq<Message>)
    requires turn.Replied?
    requires var before := BeforeResults(env, h, turn);
      var results := Results(env, before, turn.calls[..Executed(env, turn.calls)]);
      && |h'| == |before| + |results| && h'[..|before|] == before
      && forall j :: 0 <= j < |results| ==>
        TellsReply(h'[|before| + j], results[j].call, results[j].text, env.stamp(|before| + j))
    ensures |h'| == |h| + 1 + |turn.calls| && h'[..|h|] == h && TellsTurn(env, h', |h|, turn)
  {
    var before, run := BeforeResults(env, h, turn), turn.calls[..Executed(env, turn.calls)];
    hide BeforeResults, TellsReply, TellsTurn;
    BeforeTells(env, h, turn);
    hide TellsSkipped, TellsAnswer;
    assert TellsResults(env, h', |before|, run);
    assert h'[..|h|] == h'[..|before|][..|h|] && h'[|h|] == h'[..|before|][|h|];
    SkippedTold(env, before, |h| + 1, turn.calls[|run|..], h');
    TurnTold(env, h', |h|, turn);
  }

  lemma SkippedTold(env: Env, h: seq<Message>, at: nat, skipped: seq<ToolCall>, h': seq<Message>)
    requires TellsSkipped(env, h, at, skipped) && |h| <= |h'| && h'[..|h|] == h
    ensures TellsSkipped(env, h', at, skipped)
  {
    hide TellsReply;
    assert forall j :: 0 <= j < |h| ==> h'[j] == h'[..|h|][j];
  }

  lemma TurnTold(env: Env, h: seq<Message>, at: nat, turn: Turn)
    requires turn.Replied? && at < |h| && TellsAnswer(env, h[at], turn, at)
    requires var n := Executed(env, turn.calls);
      && TellsSkipped(env, h, at + 1, turn.calls[n..])
      && TellsResults(env, h, at + 1 + (|turn.calls| - n), turn.calls[..n])
    ensures TellsTurn(env, h, at, turn)
  {
  }

  lemma BeforeTells(env: Env, h: seq<Message>, turn: Turn)
    requires turn.Replied?
    ensures var before, n := BeforeResults(env, h, turn), Executed(env, turn.calls);
      && |before| == |h| + 1 + (|turn.calls| - n) && before[..|h|] == h && TellsAnswer(env, before[|h|], turn, |h|)
      && TellsSkipped(env, before, |h| + 1, turn.calls[n..])
  {
  }

  lemma {:induction false} StepsTell(env: Env, results: seq<Result>, mids: seq<seq<Message>>, k: nat)
    requires Steps(env, results, mids) && k <= |results|
    requires forall j :: 0 <= j < k ==> results[j].call.name != COMPACT_CONTEXT
    ensures |mids[k]| == |mids[0]| + k && mids[k][..|mids[0]|] == mids[0]
    ensures forall j :: 0 <= j < k ==>
      TellsReply(mids[k][|mids[0]| + j], results[j].call, results[j].text, env.stamp(|mids[0]| + j))
  {
    hide Compacts;
    if k > 0 {
      StepsTell(env, results, mids, k - 1);
      assert AppendedOne(env, mids[k - 1], results[k - 1], mids[k]);
    }
  }

  /** What the first messages tell they tell in any longer history. */
  lemma TellsOn(env: Env, h: seq<Message>, at: nat, turn: Turn, h': seq<Message>)
    requires turn.Replied? && TellsTurn(env, h, at, turn) && |h| <= |h'| && h'[..|h|] == h
    ensures TellsTurn(env, h', at, turn)
  {
    hide TellsReply, TellsAnswer;
    var run := if 0 < env.maxCalls < |turn.calls| then env.maxCalls else |turn.calls|;
    var first := at + 1 + (|turn.calls| - run);
    assert forall j :: 0 <= j < |h| ==> h'[j] == h'[..|h|][j];
    assert h'[..first] == h[..first];
    SkippedTold(env, h, at + 1, turn.calls[run..], h');
  }

  /** One more turn told behind a run is a longer run told. */
  lemma RunTellsMore(env: Env, history: seq<Message>, prompt: string, turns: seq<Turn>, h: seq<Message>, turn: Turn,
                     h': seq<Message>)
    requires TellsRun(env, history, prompt, turns, h) && turn.Replied?
    requires |h'| == |h| + 1 + |turn.calls| && h'[..|h|] == h && TellsTurn(env, h', |h|, turn)
    ensures TellsRun(env, history, prompt, turns + [turn], h')
  {
    hide TellsTurn, TellsPrompt, Length;
    var all := turns + [turn];
    LengthMore(turns, turn);
    assert h'[..|history|] == h[..|history|] && h'[|history|] == h'[..|h|][|history|];
    forall i | 0 <= i < |all| ensures all[i].Replied? && TellsTurn(env, h', |history| + 1 + Length(all[..i]), all[i]) {
      PrefixLength(turns, turn, i);
      if i < |turns| {
        TellsOn(env, h, |history| + 1 + Length(turns[..i]), turns[i], h');
      }
    }
  }

  lemma LengthMore(turns: seq<Turn>, turn: Turn)
    requires turn.Replied?
    ensures Length(turns + [turn]) == Length(turns) + 1 + |turn.calls|
  {
    assert (turns + [turn])[..|turns|] == turns;
  }

  lemma PrefixLength(turns: seq<Turn>, turn: Turn, i: nat)
    requires i <= |turns|
    ensures Length((turns + [turn])[..i]) == Length(turns[..i]) && turns[..|turns|] == turns
  {
    assert (turns + [turn])[..i] == turns[..i];
  }

  lemma PromptTold(env: Env, history: seq<Message>, prompt: string)
    ensures TellsRun(env, history, prompt, [], history + [UserMessage(env, history, prompt)])
  {
  }

  /** An answer without calls is a turn told. */
  lemma AnswerTold(env: Env, h: seq<Message>, turn: Turn)
    requires turn.Replied? && turn.calls == []
    ensures TellsTurn(env, h + [AssistantMessage(env, h, turn)], |h|, turn)
    ensures TellsAnswer(env, AssistantMessage(env, h, turn), turn, |h|)
  {
  }

  /** Run, driven by the answers the model would give in turn. It asks the model once a round; `order` is the order in
      which the n calls of a parallel batch finish in round i. */
  method Run(env: Env, history: seq<Message>, prompt: string, turns: seq<Turn>, order: (nat, nat) -> seq<nat>)
    returns (h: seq<Message>, outcome: Outcome, rounds: nat, ghost starts: seq<seq<Message>>)
    requires SafeToolsDoNotDisturb(env) && forall i, n :: IsArrivalOrder(order(i, n), n)
    ensures Trace(env, history, prompt, turns, starts) && TellsRun(env, history, prompt, [], starts[0])
    ensures env.maxLoops > 0 ==> rounds <= env.maxLoops
    ensures match outcome
      case Ready =>
        && rounds == |starts| <= |turns| && turns[rounds - 1].Replied? && turns[rounds - 1].calls == []
        && |h| == |starts[rounds - 1]| + 1 && h[..|h| - 1] == starts[rounds - 1]
        && TellsAnswer(env, h[|h| - 1], turns[rounds - 1], |h| - 1)
      case RoundLimit => rounds == |starts| - 1 == env.maxLoops > 0 && h == starts[rounds]
      case RequestFailed => rounds == |starts| - 1 < |turns| && turns[rounds].Failed? && h == starts[rounds]
      case AwaitingModel => rounds == |starts| - 1 == |turns| && h == starts[rounds]
    ensures (forall i :: 0 <= i < rounds ==> Quiet(env, turns[i])) ==>
      TellsRun(env, history, prompt, turns[..rounds], h)
  {
    hide Round, SafeToolsDoNotDisturb, IsArrivalOrder, TellsTurn, TellsRun, TellsAnswer, Quiet;
    h := history + [UserMessage(env, history, prompt)];
    rounds := 0;
    starts := [h];
    PromptTold(env, history, prompt);
    while true
      invariant rounds == |starts| - 1 <= |turns| && h == starts[rounds]
      invariant Trace(env, history, prompt, turns, starts)
      invariant env.maxLoops > 0 ==> rounds <= env.maxLoops
      invariant (forall i :: 0 <= i < rounds ==> Quiet(env, turns[i])) ==>
        TellsRun(env, history, prompt, turns[..rounds], h)
      decreases |turns| - rounds
    {
      if env.maxLoops > 0 && rounds >= env.maxLoops {
        outcome := RoundLimit;
        return;
      }
      if rounds == |turns| {
        outcome := AwaitingModel;
        return;
      }
      var turn, round := turns[rounds], rounds;
      if turn.Failed? {
        outcome := RequestFailed;
        return;
      }
      ghost var before := h;
      rounds := rounds + 1;
      assert turns[..rounds] == turns[..round] + [turn];
      if |turn.calls| == 0 {
        h := h + [AssistantMessage(env, h, turn)];
        AnswerTold(env, before, turn);
        if forall i :: 0 <= i < rounds ==> Quiet(env, turns[i]) {
          RunTellsMore(env, history, prompt, turns[..round], before, turn, h);
        }
        outcome := Ready;
        return;
      }
      h := RunRound(env, h, turn, order(round, Executed(env, turn.calls)));
      starts := starts + [h];
      if forall i :: 0 <= i < rounds ==> Quiet(env, turns[i]) {
        RunTellsMore(env, history, prompt, turns[..round], before, turn, h);
      }
    }
  }
}
