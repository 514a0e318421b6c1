/** Which histories Runner.Run (internal/agent/agent.go) works on: paired ones, as long as no compaction falls between
    the replies of one batch, or a later one removes the damage. */
module RunHistories {
  import opened Text
  import opened Conversation
  import opened Normalisation
  import opened Trimming
  import opened Compaction
  import opened Summaries
  import opened HistoryStorage
  import opened AgentRun

  /** What holds of a history at the start of every round. */
  predicate Good(h: seq<Message>) {
    Paired(h) && StartsPlain(h) && !DroppedMessage(h[0]) && InternalIsPlain(h)
  }

  /** The model makes up clean call IDs it has not used in this history. */
  predicate FreshCalls(h: seq<Message>, calls: seq<ToolCall>) {
    && Distinct(Ids(calls))
    && forall i :: 0 <= i < |calls| ==> CleanId(calls[i].id) && calls[i].id !in CallIds(h)
  }

  predicate AllReplies(h: seq<Message>) {
    forall i :: 0 <= i < |h| ==> IsReply(h[i])
  }

  // ---------------------------------------------------------------- the three states of a batch

  /** A good history, a message with fresh calls, and replies to all its calls but those `left`. */
  ghost predicate Answering(p: seq<Message>, a: Message, r: seq<Message>, left: seq<string>) {
    && Good(p) && a.role == "assistant" && FreshCalls(p, a.toolCalls) && AllReplies(r)
    && multiset(Ids(a.toolCalls)) == multiset(ReplyIds(r)) + multiset(left)
  }

  ghost predicate Open(h: seq<Message>, left: seq<string>) {
    exists p, a, r :: Answering(p, a, r, left) && h == p + [a] + r
  }

  /** A good history, and replies whose calls are gone; so are those of the calls `left`. */
  ghost predicate Orphans(g: seq<Message>, r: seq<Message>, left: seq<string>) {
    && Good(g) && AllReplies(r)
    && (forall m :: m in r ==> m.toolCallId !in CallIds(g))
    && (forall id :: id in left ==> id !in CallIds(g))
  }

  ghost predicate Adrift(h: seq<Message>, left: seq<string>) {
    exists g, r :: Orphans(g, r, left) && h == g + r
  }

  /** Nothing but replies. */
  predicate Bare(h: seq<Message>) {
    h != [] && AllReplies(h)
  }

  // ---------------------------------------------------------------- what preparation does to them

  lemma PreparedGood(p: seq<Message>, san: string -> string)
    requires Good(p)
    ensures Good(Prepared(p, san)) && CallIds(Prepared(p, san)) == CallIds(p)
  {
    hide CallIds, Blocks, CleanIds;
    PreparedPaired(p, san);
    PreparedStart(p, san);
    PreparedInternal(p, san);
    PreparedCallIds(p, san);
  }

  lemma PreparedReplies(r: seq<Message>, san: string -> string)
    requires AllReplies(r)
    ensures Prepared(r, san) == r
  {
    PreparedMap(r, san);
  }

  lemma PreparedOne(a: Message, san: string -> string)
    requires a.role == "assistant"
    ensures Prepared([a], san) == [Sanitized(a, san)] && Ids(Sanitized(a, san).toolCalls) == Ids(a.toolCalls)
  {
    assert [a][..0] == [];
  }

  lemma PreparedAnswering(p: seq<Message>, a: Message, r: seq<Message>, left: seq<string>, san: string -> string)
    requires Answering(p, a, r, left)
    ensures Prepared(p + [a] + r, san) == Prepared(p, san) + [Sanitized(a, san)] + r
    ensures Answering(Prepared(p, san), Sanitized(a, san), r, left)
  {
    hide Good, CallIds, Prepared;
    PreparedConcat(p + [a], r, san);
    PreparedConcat(p, [a], san);
    PreparedReplies(r, san);
    PreparedOne(a, san);
    PreparedGood(p, san);
  }

  lemma PreparedOrphans(g: seq<Message>, r: seq<Message>, left: seq<string>, san: string -> string)
    requires Orphans(g, r, left)
    ensures Prepared(g + r, san) == Prepared(g, san) + r
    ensures Orphans(Prepared(g, san), r, left)
  {
    hide Good, CallIds, Prepared;
    PreparedConcat(g, r, san);
    PreparedReplies(r, san);
    PreparedGood(g, san);
  }

  // ---------------------------------------------------------------- where the tail starts in them

  lemma {:induction false} SkipRepliesDown(h: seq<Message>, i: nat, j: nat)
    requires j <= i < |h| && forall k :: j < k <= i ==> h[k].role == "tool"
    ensures SkipReplies(h, i) == SkipReplies(h, j)
  {
    if j < i {
      SkipRepliesDown(h, i - 1, j);
    }
  }

  lemma {:induction false} SkipRepliesPrefix(front: seq<Message>, rest: seq<Message>, i: nat)
    requires i < |front|
    ensures SkipReplies(front + rest, i) == SkipReplies(front, i)
  {
    if 0 < i && front[i].role == "tool" {
      SkipRepliesPrefix(front, rest, i - 1);
    }
  }

  lemma {:induction false} SkipCallsPrefix(front: seq<Message>, rest: seq<Message>, i: nat)
    requires i <= |front|
    ensures SkipCalls(front + rest, i) == SkipCalls(front, i)
  {
    if i > 0 && front[i - 1].toolCalls != [] {
      SkipCallsPrefix(front, rest, i - 1);
    }
  }

  /** From a position inside the front part the tail starts at a boundary of it, at 0 only from 0. */
  lemma TailFromFront(front: seq<Message>, rest: seq<Message>, w: nat)
    requires Blocks(front) && StartsPlain(front) && w < |front|
    ensures var t := SkipCalls(front + rest, SkipReplies(front + rest, w));
      t <= w && NextBoundary(front, t) == t && (t == 0 <==> w == 0)
  {
    hide Blocks, SkipReplies, SkipCalls;
    SkipRepliesPrefix(front, rest, w);
    SkipRepliesIsBoundary(front, w);
    var s := SkipReplies(front, w);
    SkipCallsPrefix(front, rest, s);
    if w > 0 {
      SkipRepliesStops(front, w);
      FirstBlockReplies(front, w);
    }
  }

  /** With a message that makes calls in between, the tail starts at it or at a boundary before it, never at 0. */
  lemma TailWhileAnswering(front: seq<Message>, a: Message, r: seq<Message>, preserve: nat)
    requires Blocks(front) && StartsPlain(front) && a.role == "assistant" && AllReplies(r)
    requires 1 <= preserve < |front + [a] + r|
    ensures var t := TailStart(front + [a] + r, preserve);
      1 <= t <= |front| && NextBoundary(front, t) == t
  {
    hide Blocks, SkipReplies, SkipCalls;
    var p := front + [a] + r;
    assert p == front + ([a] + r);
    var w := |p| - preserve;
    if w < |front| {
      TailFromFront(front, [a] + r, w);
    } else {
      SkipRepliesDown(p, w, |front|);
      StopsHere(p, |front|);
      LastMakesNoCalls(front);
    }
  }

  lemma StopsHere(p: seq<Message>, i: nat)
    requires 0 < i < |p| && p[i].role != "tool"
    ensures SkipReplies(p, i) == i && (p[i - 1].toolCalls == [] ==> SkipCalls(p, i) == i)
  {
  }

  /** After orphaned replies only, the tail starts at a boundary before them, at 0 only if one message is before. */
  lemma TailWhileAdrift(front: seq<Message>, r: seq<Message>, preserve: nat)
    requires Blocks(front) && StartsPlain(front) && AllReplies(r)
    requires 1 <= preserve < |front + r|
    ensures var t := TailStart(front + r, preserve);
      t < |front| && NextBoundary(front, t) == t && (t == 0 <==> |front| == 1)
  {
    hide Blocks, SkipReplies, SkipCalls;
    var p := front + r;
    var w := |p| - preserve;
    if w < |front| {
      TailFromFront(front, r, w);
    } else {
      SkipRepliesDown(p, w, |front| - 1);
      TailFromFront(front, r, |front| - 1);
    }
  }

  // ---------------------------------------------------------------- what normalisation does to them

  lemma OfferedConcat(a: seq<Message>, b: seq<Message>)
    ensures OfferedIds(a + b) == OfferedIds(a) + OfferedIds(b)
    ensures AnsweredIds(a + b) == AnsweredIds(a) + AnsweredIds(b)
  {
    hide TrimSpace;
  }

  lemma RepliesOfferNothing(r: seq<Message>)
    requires AllReplies(r)
    ensures OfferedIds(r) == {}
  {
    hide TrimSpace;
  }

  lemma PairedIds(k: seq<Message>)
    requires Paired(k)
    ensures OfferedIds(k) == (set id | id in CallIds(k))
    ensures forall id :: id in CallIds(k) ==> id in AnsweredIds(k)
  {
    hide TrimSpace, OfferedIds, AnsweredIds, CallIds, Blocks;
    CleanOfferedIds(k);
    AnsweredCoversCalls(k);
  }

  /** Replies whose calls are gone are dropped, the rest stays. */
  lemma NormalizeOrphans(k: seq<Message>, r: seq<Message>)
    requires Paired(k) && AllReplies(r)
    requires forall m :: m in r ==> m.toolCallId !in CallIds(k)
    ensures Normalize(k + r) == k
  {
    hide OfferedIds, AnsweredIds, CallIds, Paired;
    PairedIds(k);
    OfferedConcat(k, r);
    RepliesOfferNothing(r);
    var offered, answered := OfferedIds(k + r), AnsweredIds(k + r);
    PairedKept(k, offered, answered);
    hide Kept;
    KeepOnlyAll(k, offered, answered);
    OrphansGo(r, offered, answered);
    KeepOnlyConcat(k, r, offered, answered);
  }

  lemma OrphansGo(r: seq<Message>, offered: set<string>, answered: set<string>)
    requires AllReplies(r) && forall m :: m in r ==> m.toolCallId !in offered
    ensures KeepOnly(r, offered, answered) == []
  {
    forall m | m in r ensures !Kept(m, offered, answered) {
      assert m.role == "tool";
    }
    hide Kept;
    KeepOnlyNone(r, offered, answered);
  }

  lemma RepliesStay(r: seq<Message>, offered: set<string>, answered: set<string>)
    requires AllReplies(r) && forall m :: m in r ==> m.toolCallId in offered
    ensures KeepOnly(r, offered, answered) == r
  {
    KeepOnlyAll(r, offered, answered);
  }

  lemma MessageIds(a: Message)
    requires forall i :: 0 <= i < |a.toolCalls| ==> CleanId(a.toolCalls[i].id)
    ensures OfferedIds([a]) == set id | id in Ids(a.toolCalls)
    ensures a.role != "tool" ==> AnsweredIds([a]) == {}
  {
    hide TrimSpace;
    forall id | id in Ids(a.toolCalls) ensures id in OfferedIds([a]) {
      var i :| 0 <= i < |a.toolCalls| && Ids(a.toolCalls)[i] == id;
      assert a in [a] && a.toolCalls[i] in a.toolCalls && CleanId(a.toolCalls[i].id);
    }
    forall id | id in OfferedIds([a]) ensures id in Ids(a.toolCalls) {
      var c :| c in a.toolCalls && c.id == id;
      var i :| 0 <= i < |a.toolCalls| && a.toolCalls[i] == c;
      assert Ids(a.toolCalls)[i] == id;
    }
  }

  lemma AnsweredByReplies(r: seq<Message>, id: string)
    requires forall m :: m in r ==> CleanId(m.toolCallId) && m.toolCallId != id
    ensures id !in AnsweredIds(r)
  {
    hide TrimSpace;
  }

  lemma {:induction false} AnsweredInBlocks(k: seq<Message>)
    requires Paired(k)
    ensures forall id :: id in AnsweredIds(k) ==> id in CallIds(k)
  {
    hide TrimSpace, Blocks, CallIds;
    BlocksMatch(k);
  }

  lemma HalfAnsweredIds(k: seq<Message>, a: Message, r: seq<Message>, id: string)
    requires Paired(k) && a.role == "assistant" && FreshCalls(k, a.toolCalls) && AllReplies(r)
    requires forall m :: m in r ==> m.toolCallId in Ids(a.toolCalls) && m.toolCallId != id
    requires id in Ids(a.toolCalls)
    ensures forall i :: i in CallIds(k) ==> i in OfferedIds(k + [a] + r) && i in AnsweredIds(k + [a] + r)
    ensures forall m :: m in r ==> m.toolCallId in OfferedIds(k + [a] + r)
    ensures CleanId(id) && id !in AnsweredIds(k + [a] + r)
  {
    FreshIdIsNew(k, a, id);
    RepliesAreClean(k, a, r, id);
    hide TrimSpace, OfferedIds, AnsweredIds, CallIds, Paired;
    PairedIds(k);
    FreshAreClean(k, a);
    MessageIds(a);
    OfferedConcat(k + [a], r);
    OfferedConcat(k, [a]);
    AnsweredInBlocks(k);
    AnsweredByReplies(r, id);
  }

  lemma FreshAreClean(k: seq<Message>, a: Message)
    requires FreshCalls(k, a.toolCalls)
    ensures forall i :: 0 <= i < |a.toolCalls| ==> CleanId(a.toolCalls[i].id)
  {
    hide CleanId, CallIds;
  }

  /** A message with an unanswered call goes, the replies it has stay: they are orphans now. */
  lemma NormalizeHalfAnswered(k: seq<Message>, a: Message, r: seq<Message>, id: string)
    requires Paired(k) && a.role == "assistant" && FreshCalls(k, a.toolCalls) && AllReplies(r)
    requires forall m :: m in r ==> m.toolCallId in Ids(a.toolCalls) && m.toolCallId != id
    requires id in Ids(a.toolCalls)
    ensures Normalize(k + [a] + r) == k + r
  {
    hide OfferedIds, AnsweredIds, CallIds, Paired, CleanId, Kept, KeepOnly, FreshCalls, AllReplies, Normalize;
    var h := k + [a] + r;
    var offered, answered := OfferedIds(h), AnsweredIds(h);
    HalfAnsweredIds(k, a, r, id);
    PairedKept(k, offered, answered);
    KeepOnlyAll(k, offered, answered);
    HalfAnsweredGoes(a, offered, answered, id);
    RepliesStay(r, offered, answered);
    KeepOnlyConcat(k + [a], r, offered, answered);
    KeepOnlyConcat(k, [a], offered, answered);
    assert k + [] + r == k + r;
    NormalizeIs(h);
  }

  lemma NormalizeIs(h: seq<Message>)
    ensures Normalize(h) == KeepOnly(h, OfferedIds(h), AnsweredIds(h))
  {
  }

  lemma FreshIdIsNew(k: seq<Message>, a: Message, id: string)
    requires FreshCalls(k, a.toolCalls) && id in Ids(a.toolCalls)
    ensures CleanId(id) && id !in CallIds(k)
  {
    hide CleanId, CallIds;
    var i :| 0 <= i < |a.toolCalls| && Ids(a.toolCalls)[i] == id;
  }

  lemma RepliesAreClean(k: seq<Message>, a: Message, r: seq<Message>, id: string)
    requires FreshCalls(k, a.toolCalls)
    requires forall m :: m in r ==> m.toolCallId in Ids(a.toolCalls)
    ensures forall m :: m in r ==> CleanId(m.toolCallId)
  {
    hide CleanId, CallIds;
    forall m | m in r ensures CleanId(m.toolCallId) {
      FreshIdIsNew(k, a, m.toolCallId);
    }
  }

  lemma HalfAnsweredGoes(a: Message, offered: set<string>, answered: set<string>, id: string)
    requires id in Ids(a.toolCalls) && CleanId(id) && id !in answered
    ensures KeepOnly([a], offered, answered) == []
  {
    hide TrimSpace;
    var i :| 0 <= i < |a.toolCalls| && Ids(a.toolCalls)[i] == id;
    assert a.toolCalls[i] in a.toolCalls && TrimSpace(a.toolCalls[i].id) == id;
    assert [a][..0] == [];
  }

  // ---------------------------------------------------------------- one reply more

  lemma ReplyIdsAppend(r: seq<Message>, m: Message)
    ensures ReplyIds(r + [m]) == ReplyIds(r) + [m.toolCallId]
  {
  }

  lemma AnsweringAppend(p: seq<Message>, a: Message, r: seq<Message>, m: Message, left: seq<string>)
    requires Answering(p, a, r, [m.toolCallId] + left) && IsReply(m)
    ensures Answering(p, a, r + [m], left)
  {
    hide Good, FreshCalls;
    ReplyIdsAppend(r, m);
    assert multiset([m.toolCallId] + left) == multiset{m.toolCallId} + multiset(left);
  }

  lemma OrphansAppend(g: seq<Message>, r: seq<Message>, m: Message, left: seq<string>)
    requires Orphans(g, r, [m.toolCallId] + left) && IsReply(m)
    ensures Orphans(g, r + [m], left)
  {
    hide Good, CallIds;
    assert m.toolCallId in [m.toolCallId] + left;
    assert forall id :: id in left ==> id in [m.toolCallId] + left;
  }

  lemma GoodJoin(h: seq<Message>, b: seq<Message>)
    requires Good(h) && Block(b) && b[0].role == "assistant"
    requires FreshCalls(h, b[0].toolCalls)
    ensures Good(h + b)
  {
    hide CallIds, Blocks;
    OneBlock(b);
    BlockCallIds(b);
    assert forall id :: id in CallIds(b) ==> CleanId(id) && id !in CallIds(h) by {
      assert forall i :: 0 <= i < |Ids(b[0].toolCalls)| ==> Ids(b[0].toolCalls)[i] == b[0].toolCalls[i].id;
    }
    PairedJoin(h, b);
    assert forall i :: 1 <= i < |b| ==> IsReply(b[i]);
    forall m | m in h + b && DroppedMessage(m) ensures m.toolCalls == [] {
      if m !in h {
        assert m in b;
      }
    }
  }

  /** Once every call is answered the batch is a block. */
  lemma AnsweringDone(p: seq<Message>, a: Message, r: seq<Message>)
    requires Answering(p, a, r, [])
    ensures Good(p + [a] + r)
  {
    var b := [a] + r;
    assert b[1..] == r;
    assert |multiset(Ids(a.toolCalls))| == |multiset(ReplyIds(r))|;
    assert Block(b);
    hide Good, Block, FreshCalls, CallIds;
    GoodJoin(p, b);
    assert p + [a] + r == p + b;
  }

  /** A reply whose call is not in the history cannot be part of a paired one. */
  lemma OrphanedIsBad(g: seq<Message>, r: seq<Message>, left: seq<string>)
    requires Orphans(g, r, left) && r != []
    ensures !Paired(g + r) && !Good(g + r)
  {
    hide Blocks, CallIds, CleanIds;
    var h := g + r;
    assert h[|g|] == r[0] && r[0] in h && r[0] in r;
    CallIdsConcat(g, r);
    RepliesHaveNoCalls(r);
    if Blocks(h) {
      BlocksMatch(h);
    }
  }

  lemma BareIsBad(h: seq<Message>)
    requires Bare(h)
    ensures !Good(h)
  {
  }

  // ---------------------------------------------------------------- one compaction

  lemma UntriggeredPrepares(env: Env, h: seq<Message>, h': seq<Message>)
    requires Compacts(env.cfg, env.texts, h, h') && !Triggered(env.cfg, Prepared(h, env.texts.san))
    ensures h' == Prepared(h, env.texts.san)
  {
  }

  lemma TriggeredCuts(env: Env, h: seq<Message>, h': seq<Message>)
    requires Compacts(env.cfg, env.texts, h, h') && Triggered(env.cfg, Prepared(h, env.texts.san))
    ensures var p := Prepared(h, env.texts.san);
      var t := TailStart(p, env.cfg.preserve);
      && 1 <= env.cfg.preserve < |p|
      && (t == 0 ==> h' == p[|p| - env.cfg.preserve..])
      && (0 < t < |p| ==> exists summary :: h' == Normalize([SummaryMessage(summary, p[..t])] + p[t..]))
  {
    hide Normalize, TailStart, IsSummary, LastTimestamp, Tokens;
    var p := Prepared(h, env.texts.san);
    TailIsSuffix(p, env.cfg.preserve);
  }

  /** The head replaced by its summary, up to a boundary. */
  lemma SummaryIsGood(g: seq<Message>, t: nat, summary: string)
    requires Good(g) && 0 < t <= |g| && NextBoundary(g, t) == t
    ensures Good([SummaryMessage(summary, g[..t])] + g[t..])
    ensures forall id :: id in CallIds([SummaryMessage(summary, g[..t])] + g[t..]) ==> id in CallIds(g)
  {
    hide Blocks, CallIds, CleanIds, LastTimestamp;
    var head := [SummaryMessage(summary, g[..t])];
    HeadAndTailPaired(SummaryMessage(summary, g[..t]), g, t);
    CallIdsConcat(head, g[t..]);
    RepliesHaveNoCalls(head);
    CallIdsConcat(g[..t], g[t..]);
    assert g == g[..t] + g[t..];
    assert forall m :: m in g[t..] ==> m in g;
  }

  /** A compaction that cuts while calls are unanswered sets their message's replies adrift. */
  lemma CutWhileAnswering(env: Env, p: seq<Message>, a: Message, r: seq<Message>, left: seq<string>, h': seq<Message>)
    requires Answering(p, a, r, left) && left != []
    requires Compacts(env.cfg, env.texts, p + [a] + r, h')
    requires Triggered(env.cfg, Prepared(p + [a] + r, env.texts.san))
    ensures Adrift(h', left)
  {
    hide Good, Compacts, Triggered, TailStart, Normalize, LastTimestamp, FreshCalls, CallIds, Prepared, Blocks;
    var san := env.texts.san;
    PreparedAnswering(p, a, r, left, san);
    TriggeredCuts(env, p + [a] + r, h');
    var q, b := Prepared(p, san), Sanitized(a, san);
    var whole := q + [b] + r;
    var t := TailStart(whole, env.cfg.preserve);
    GoodParts(q);
    TailWhileAnswering(q, b, r, env.cfg.preserve);
    var summary :| h' == Normalize([SummaryMessage(summary, whole[..t])] + whole[t..]);
    var k := [SummaryMessage(summary, q[..t])] + q[t..];
    assert whole[..t] == q[..t] && whole[t..] == q[t..] + [b] + r;
    assert [SummaryMessage(summary, whole[..t])] + whole[t..] == k + [b] + r;
    SummaryIsGood(q, t, summary);
    GoodParts(k);
    HalfAnsweredReplies(q, b, r, left);
    FreshInLess(q, k, b);
    assert left[0] in left;
    NormalizeHalfAnswered(k, b, r, left[0]);
    OrphansOf(k, b, r, left);
    assert Orphans(k, r, left) && h' == k + r;
  }

  lemma GoodParts(g: seq<Message>)
    requires Good(g)
    ensures Paired(g) && Blocks(g) && StartsPlain(g)
  {
  }

  lemma FreshInLess(q: seq<Message>, k: seq<Message>, b: Message)
    requires FreshCalls(q, b.toolCalls) && forall id :: id in CallIds(k) ==> id in CallIds(q)
    ensures FreshCalls(k, b.toolCalls)
  {
    hide CallIds, CleanId;
  }

  lemma HalfAnsweredReplies(p: seq<Message>, a: Message, r: seq<Message>, left: seq<string>)
    requires Answering(p, a, r, left)
    ensures forall id :: id in left ==> id in Ids(a.toolCalls)
    ensures forall m :: m in r ==> m.toolCallId in Ids(a.toolCalls)
    ensures forall m :: m in r ==> m.toolCallId !in left
  {
    hide Good, CallIds, CleanId;
    var ids, got := Ids(a.toolCalls), ReplyIds(r);
    assert Distinct(ids);
    forall m | m in r ensures m.toolCallId in got {
      var i :| 0 <= i < |r| && r[i] == m;
      assert got[i] == m.toolCallId;
    }
    forall id ensures multiset(ids)[id] <= 1 {
      if id in ids {
        DistinctOnce(ids, id);
      }
    }
    forall id | id in left ensures id in ids && id !in got {
      assert multiset(ids)[id] == multiset(got)[id] + multiset(left)[id];
      assert multiset(left)[id] >= 1;
      assert multiset(got)[id] == 0;
    }
    forall id | id in got ensures id in ids {
      assert multiset(ids)[id] >= multiset(got)[id] > 0;
    }
  }

  lemma OrphansOf(k: seq<Message>, b: Message, r: seq<Message>, left: seq<string>)
    requires Good(k) && FreshCalls(k, b.toolCalls) && AllReplies(r)
    requires forall id :: id in left ==> id in Ids(b.toolCalls)
    requires forall m :: m in r ==> m.toolCallId in Ids(b.toolCalls)
    ensures Orphans(k, r, left)
  {
    hide Good, CallIds, FreshCalls;
    forall id | id in Ids(b.toolCalls) ensures id !in CallIds(k) {
      FreshIdIsNew(k, b, id);
    }
  }

  /** A compaction that cuts while replies are adrift removes them, unless a single message is before them. */
  lemma CutWhileAdrift(env: Env, g: seq<Message>, r: seq<Message>, left: seq<string>, h': seq<Message>)
    requires Orphans(g, r, left)
    requires Compacts(env.cfg, env.texts, g + r, h')
    requires Triggered(env.cfg, Prepared(g + r, env.texts.san))
    ensures TailStart(Prepared(g + r, env.texts.san), env.cfg.preserve) > 0 ==> Good(h') && Adrift(h', left)
    ensures TailStart(Prepared(g + r, env.texts.san), env.cfg.preserve) == 0 ==> Bare(h')
  {
    hide Good, Compacts, Triggered, TailStart, Normalize, LastTimestamp, CallIds, Prepared, Blocks;
    var san := env.texts.san;
    PreparedOrphans(g, r, left, san);
    TriggeredCuts(env, g + r, h');
    var q := Prepared(g, san);
    var whole := q + r;
    var t := TailStart(whole, env.cfg.preserve);
    GoodParts(q);
    TailWhileAdrift(q, r, env.cfg.preserve);
    if t == 0 {
      assert forall i :: 0 <= i < |h'| ==> h'[i] == r[i + |whole| - env.cfg.preserve - 1];
    } else {
      var summary :| h' == Normalize([SummaryMessage(summary, whole[..t])] + whole[t..]);
      var k := [SummaryMessage(summary, q[..t])] + q[t..];
      assert whole[..t] == q[..t] && whole[t..] == q[t..] + r;
      assert [SummaryMessage(summary, whole[..t])] + whole[t..] == k + r;
      SummaryIsGood(q, t, summary);
      GoodParts(k);
      NormalizeOrphans(k, r);
      assert h' == k + [];
      assert Orphans(k, [], left);
    }
  }

  /** Where there are only replies, there will only be replies. */
  lemma CompactedBare(env: Env, h: seq<Message>, h': seq<Message>)
    requires Bare(h) && Compacts(env.cfg, env.texts, h, h')
    ensures Bare(h')
    ensures Triggered(env.cfg, Prepared(h, env.texts.san)) ==>
      TailStart(Prepared(h, env.texts.san), env.cfg.preserve) == 0
  {
    hide Compacts, Normalize, IsSummary, LastTimestamp, Tokens, SkipReplies;
    PreparedReplies(h, env.texts.san);
    if Triggered(env.cfg, h) {
      TriggeredCuts(env, h, h');
      SkipRepliesDown(h, |h| - env.cfg.preserve, 0);
      SkipsToZero(h);
    } else {
      UntriggeredPrepares(env, h, h');
    }
  }

  lemma SkipsToZero(h: seq<Message>)
    ensures SkipReplies(h, 0) == 0
  {
  }
  // ---------------------------------------------------------------- one step of a batch

  /** Appending this result compacts, and the compaction has something to do. */
  predicate TriggersAt(env: Env, h: seq<Message>, r: Result) {
    r.call.name == COMPACT_CONTEXT && Triggered(env.cfg, Prepared(h + [ReplyTo(env, h, r)], env.texts.san))
  }

  /** Where that compaction would cut. */
  function CutAt(env: Env, h: seq<Message>, r: Result): (t: nat)
    requires TriggersAt(env, h, r)
  {
    TailStart(Prepared(h + [ReplyTo(env, h, r)], env.texts.san), env.cfg.preserve)
  }

  lemma QuietStep(env: Env, h: seq<Message>, r: Result, h': seq<Message>)
    requires AppendedOne(env, h, r, h') && !TriggersAt(env, h, r)
    ensures var g := h + [ReplyTo(env, h, r)];
      h' == g || h' == Prepared(g, env.texts.san)
  {
    hide Compacts, Triggered, Prepared;
    if r.call.name == COMPACT_CONTEXT {
      UntriggeredPrepares(env, h + [ReplyTo(env, h, r)], h');
    }
  }

  /** A step that does not cut leaves the batch open, with one call fewer to answer. */
  lemma OpenStays(env: Env, h: seq<Message>, r: Result, left: seq<string>, h': seq<Message>)
    requires Open(h, [r.call.id] + left) && AppendedOne(env, h, r, h') && !TriggersAt(env, h, r)
    ensures Open(h', left)
  {
    hide AppendedOne, TriggersAt, Answering, Prepared;
    var p, a, q :| Answering(p, a, q, [r.call.id] + left) && h == p + [a] + q;
    var m := ReplyTo(env, h, r);
    QuietStep(env, h, r, h');
    AnsweringAppend(p, a, q, m, left);
    assert h + [m] == p + [a] + (q + [m]);
    PreparedAnswering(p, a, q + [m], left, env.texts.san);
  }

  /** A step that cuts sets it adrift, if calls are still unanswered. */
  lemma OpenBreaks(env: Env, h: seq<Message>, r: Result, left: seq<string>, h': seq<Message>)
    requires Open(h, [r.call.id] + left) && AppendedOne(env, h, r, h') && TriggersAt(env, h, r) && left != []
    ensures Adrift(h', left)
  {
    hide Answering, Prepared, Compacts, Triggered, Adrift;
    var p, a, q :| Answering(p, a, q, [r.call.id] + left) && h == p + [a] + q;
    var m := ReplyTo(env, h, r);
    AnsweringAppend(p, a, q, m, left);
    assert h + [m] == p + [a] + (q + [m]);
    CutWhileAnswering(env, p, a, q + [m], left, h');
  }

  /** The last step of an open batch leaves a good history, cutting or not. */
  lemma OpenEnds(env: Env, h: seq<Message>, r: Result, h': seq<Message>)
    requires Open(h, [r.call.id]) && AppendedOne(env, h, r, h')
    ensures Good(h')
  {
    hide Answering, Prepared, Compacts, Good;
    var p, a, q :| Answering(p, a, q, [r.call.id]) && h == p + [a] + q;
    var m := ReplyTo(env, h, r);
    assert [r.call.id] + [] == [r.call.id];
    AnsweringAppend(p, a, q, m, []);
    assert h + [m] == p + [a] + (q + [m]);
    AnsweringDone(p, a, q + [m]);
    if r.call.name == COMPACT_CONTEXT {
      CompactedGood(env, h + [m], h');
    }
  }

  lemma CompactedGood(env: Env, h: seq<Message>, h': seq<Message>)
    requires Good(h) && Compacts(env.cfg, env.texts, h, h')
    ensures Good(h')
  {
    hide Compacts, Paired;
    CompactedPaired(env.cfg, env.texts, h, h');
  }

  /** Adrift, a step that cuts may remove the orphans so far; the calls still to be answered stay orphans. */
  lemma AdriftStays(env: Env, h: seq<Message>, r: Result, left: seq<string>, h': seq<Message>)
    requires Adrift(h, [r.call.id] + left) && AppendedOne(env, h, r, h')
    ensures Adrift(h', left) || Bare(h')
    ensures Good(h') <==> TriggersAt(env, h, r) && CutAt(env, h, r) > 0
  {
    hide Orphans, Prepared, Compacts, Triggered, Good, TailStart;
    var g, q :| Orphans(g, q, [r.call.id] + left) && h == g + q;
    var m := ReplyTo(env, h, r);
    OrphansAppend(g, q, m, left);
    assert h + [m] == g + (q + [m]);
    if TriggersAt(env, h, r) {
      CutWhileAdrift(env, g, q + [m], left, h');
      if Bare(h') {
        BareIsBad(h');
      }
    } else {
      QuietStep(env, h, r, h');
      PreparedOrphans(g, q + [m], left, env.texts.san);
      OrphanedIsBad(g, q + [m], left);
      OrphanedIsBad(Prepared(g, env.texts.san), q + [m], left);
    }
  }

  lemma BareStays(env: Env, h: seq<Message>, r: Result, h': seq<Message>)
    requires Bare(h) && AppendedOne(env, h, r, h')
    ensures Bare(h') && !Good(h')
    ensures TriggersAt(env, h, r) ==> CutAt(env, h, r) == 0
  {
    hide Prepared, Compacts, Triggered, Good, TailStart;
    var g := h + [ReplyTo(env, h, r)];
    assert Bare(g);
    if r.call.name == COMPACT_CONTEXT {
      CompactedBare(env, g, h');
    }
    BareIsBad(h');
  }

  // ---------------------------------------------------------------- one round

  function CallsLeft(results: seq<Result>, k: nat): (r: seq<string>)
    requires k <= |results|
    ensures |r| == |results| - k
    ensures forall i :: 0 <= i < |r| ==> r[i] == results[k + i].call.id
  {
    seq(|results| - k, i requires 0 <= i < |results| - k => results[k + i].call.id)
  }

  lemma CallsLeftNext(results: seq<Result>, k: nat)
    requires k < |results|
    ensures CallsLeft(results, k) == [results[k].call.id] + CallsLeft(results, k + 1)
  {
  }

  /** The batch is open until the first compaction that cuts, and adrift or bare from then on. */
  lemma {:induction false} BatchState(env: Env, results: seq<Result>, mids: seq<seq<Message>>, k: nat)
    requires Steps(env, results, mids) && k < |results|
    requires Open(mids[0], CallsLeft(results, 0))
    ensures if forall j :: 0 <= j < k ==> !TriggersAt(env, mids[j], results[j])
            then Open(mids[k], CallsLeft(results, k))
            else Adrift(mids[k], CallsLeft(results, k)) || Bare(mids[k])
  {
    hide AppendedOne, TriggersAt, Open, Adrift, Bare, Good, CallsLeft;
    if k > 0 {
      BatchState(env, results, mids, k - 1);
      CallsLeftNext(results, k - 1);
      var h, r, left, h' := mids[k - 1], results[k - 1], CallsLeft(results, k), mids[k];
      assert AppendedOne(env, h, r, h');
      if forall j :: 0 <= j < k - 1 ==> !TriggersAt(env, mids[j], results[j]) {
        if TriggersAt(env, h, r) {
          OpenBreaks(env, h, r, left, h');
        } else {
          OpenStays(env, h, r, left, h');
        }
      } else if Bare(h) {
        BareStays(env, h, r, h');
      } else {
        AdriftStays(env, h, r, left, h');
      }
    }
  }

  /** No compaction cuts before the last executed call, or that call is a compaction that cuts behind the first
      message and so takes the orphans away. */
  predicate CompactsSafely(env: Env, results: seq<Result>, mids: seq<seq<Message>>)
    requires |mids| == |results| + 1 && results != []
  {
    var n := |results|;
    || (forall k :: 0 <= k < n - 1 ==> !TriggersAt(env, mids[k], results[k]))
    || (TriggersAt(env, mids[n - 1], results[n - 1]) && CutAt(env, mids[n - 1], results[n - 1]) > 0)
  }

  lemma BatchGoodIff(env: Env, results: seq<Result>, mids: seq<seq<Message>>)
    requires Steps(env, results, mids) && results != []
    requires Open(mids[0], CallsLeft(results, 0))
    ensures Good(mids[|results|]) <==> CompactsSafely(env, results, mids)
  {
    hide AppendedOne, TriggersAt, Open, Adrift, Bare, Good, CallsLeft, CutAt;
    var n := |results| - 1;
    BatchState(env, results, mids, n);
    CallsLeftNext(results, n);
    NoCallsLeft(results);
    var h, r, h' := mids[n], results[n], mids[n + 1];
    assert AppendedOne(env, h, r, h');
    assert [r.call.id] + [] == [r.call.id];
    if forall j :: 0 <= j < n ==> !TriggersAt(env, mids[j], results[j]) {
      OpenEnds(env, h, r, h');
    } else if Bare(h) {
      BareStays(env, h, r, h');
    } else {
      AdriftStays(env, h, r, [], h');
    }
  }

  lemma NoCallsLeft(results: seq<Result>)
    ensures CallsLeft(results, |results|) == []
  {
  }

  /** The batch begins open: the skipped calls are answered, the executed ones are not. */
  lemma BatchBegins(env: Env, h: seq<Message>, turn: Turn)
    requires Good(h) && turn.Replied? && FreshCalls(h, turn.calls)
    ensures var before := BeforeResults(env, h, turn);
      Open(before, CallsLeft(Results(env, before, turn.calls[..Executed(env, turn.calls)]), 0))
  {
    hide Good, FreshCalls;
    var n := Executed(env, turn.calls);
    var a, skipped := AssistantMessage(env, h, turn), SkippedReplies(env, turn.calls[n..]);
    var before := BeforeResults(env, h, turn);
    var left := CallsLeft(Results(env, before, turn.calls[..n]), 0);
    assert left == Ids(turn.calls[..n]);
    assert ReplyIds(skipped) == Ids(turn.calls[n..]);
    assert Ids(turn.calls) == Ids(turn.calls[..n]) + Ids(turn.calls[n..]);
    assert Answering(h, a, skipped, left);
  }

  /** The histories a round goes through. */
  ghost predicate RoundSteps(env: Env, h: seq<Message>, turn: Turn, mids: seq<seq<Message>>) {
    && turn.Replied? && turn.calls != []
    && var before := BeforeResults(env, h, turn);
       Steps(env, Results(env, before, turn.calls[..Executed(env, turn.calls)]), mids) && mids[0] == before
  }

  /** The condition of RoundGoodIff for the round from `h` to `h'`. */
  ghost predicate RoundIsSafe(env: Env, h: seq<Message>, turn: Turn, h': seq<Message>) {
    exists mids :: RoundSteps(env, h, turn, mids) && mids[|mids| - 1] == h'
      && CompactsSafely(env, Results(env, mids[0], turn.calls[..Executed(env, turn.calls)]), mids)
  }

  /** A round with fresh calls leads from a good history to a good one exactly when no compaction cuts between the
      replies of its batch, or its last compaction takes the damage away. */
  lemma RoundGoodIff(env: Env, h: seq<Message>, turn: Turn, mids: seq<seq<Message>>)
    requires Good(h) && RoundSteps(env, h, turn, mids) && FreshCalls(h, turn.calls)
    ensures Good(mids[|mids| - 1]) <==>
      CompactsSafely(env, Results(env, mids[0], turn.calls[..Executed(env, turn.calls)]), mids)
  {
    hide Good, FreshCalls, CompactsSafely, Open, AppendedOne;
    BatchBegins(env, h, turn);
    var results := Results(env, mids[0], turn.calls[..Executed(env, turn.calls)]);
    BatchGoodIff(env, results, mids);
  }

  lemma RoundGoodIsSafe(env: Env, h: seq<Message>, turn: Turn, h': seq<Message>)
    requires Good(h) && Round(env, h, turn, h') && FreshCalls(h, turn.calls)
    ensures Good(h') <==> RoundIsSafe(env, h, turn, h')
  {
    hide Good, FreshCalls, CompactsSafely, AppendedOne;
    var before := BeforeResults(env, h, turn);
    var results := Results(env, before, turn.calls[..Executed(env, turn.calls)]);
    var mids :| Steps(env, results, mids) && mids[0] == before && mids[|results|] == h';
    assert RoundSteps(env, h, turn, mids);
    forall other | RoundSteps(env, h, turn, other) && other[|other| - 1] == h'
      ensures Good(h') <==> CompactsSafely(env, Results(env, other[0], turn.calls[..Executed(env, turn.calls)]), other)
    {
      RoundGoodIff(env, h, turn, other);
    }
  }

  ghost predicate FreshRun(turns: seq<Turn>, starts: seq<seq<Message>>) {
    forall i :: 0 <= i < |starts| - 1 && i < |turns| && turns[i].Replied? ==> FreshCalls(starts[i], turns[i].calls)
  }

  ghost predicate SafeUpTo(env: Env, turns: seq<Turn>, starts: seq<seq<Message>>, n: nat)
    requires n < |starts| <= |turns| + 1
  {
    forall i :: 0 <= i < n ==> RoundIsSafe(env, starts[i], turns[i], starts[i + 1])
  }

  /** While the rounds are safe the histories they start from are good. */
  lemma {:induction false} EveryRoundGood(env: Env, history: seq<Message>, prompt: string, turns: seq<Turn>,
                                          starts: seq<seq<Message>>, n: nat)
    requires Trace(env, history, prompt, turns, starts) && FreshRun(turns, starts)
    requires history == [] || Good(history)
    requires n < |starts| && SafeUpTo(env, turns, starts, n)
    ensures Good(starts[n])
  {
    hide Round, FreshCalls, RoundIsSafe, Good;
    if n == 0 {
      FirstGood(env, history, prompt);
    } else {
      EveryRoundGood(env, history, prompt, turns, starts, n - 1);
      assert Round(env, starts[n - 1], turns[n - 1], starts[n]);
      RoundHasReply(env, starts[n - 1], turns[n - 1], starts[n]);
      RoundGoodIsSafe(env, starts[n - 1], turns[n - 1], starts[n]);
    }
  }

  lemma RoundHasReply(env: Env, h: seq<Message>, turn: Turn, h': seq<Message>)
    requires Round(env, h, turn, h')
    ensures turn.Replied?
  {
  }

  /** A run works on good histories throughout exactly when every round of it is safe. */
  lemma EveryRoundGoodIff(env: Env, history: seq<Message>, prompt: string, turns: seq<Turn>, starts: seq<seq<Message>>)
    requires Trace(env, history, prompt, turns, starts) && FreshRun(turns, starts)
    requires history == [] || Good(history)
    ensures (forall i :: 0 <= i < |starts| ==> Good(starts[i])) <==> SafeUpTo(env, turns, starts, |starts| - 1)
  {
    hide Round, FreshCalls, RoundIsSafe, Good;
    if forall i :: 0 <= i < |starts| ==> Good(starts[i]) {
      forall i | 0 <= i < |starts| - 1 ensures RoundIsSafe(env, starts[i], turns[i], starts[i + 1]) {
        assert Round(env, starts[i], turns[i], starts[i + 1]);
        RoundHasReply(env, starts[i], turns[i], starts[i + 1]);
        RoundGoodIsSafe(env, starts[i], turns[i], starts[i + 1]);
      }
    }
    if SafeUpTo(env, turns, starts, |starts| - 1) {
      forall n | 0 <= n < |starts| ensures Good(starts[n]) {
        EveryRoundGood(env, history, prompt, turns, starts, n);
      }
    }
  }

  // ---------------------------------------------------------------- one compaction in a batch

  /** The messages the results become when nothing is compacted in between. */
  function Replies(env: Env, n: nat, results: seq<Result>): (r: seq<Message>)
    ensures |r| == |results|
    ensures forall i :: 0 <= i < |r| ==> IsReply(r[i]) && r[i].toolCallId == results[i].call.id
  {
    seq(|results|, i requires 0 <= i < |results| =>
      Message("tool", results[i].text, results[i].call.name, results[i].call.id, [], false, env.stamp(n + i)))
  }

  lemma RepliesSnoc(env: Env, h: seq<Message>, results: seq<Result>, k: nat)
    requires k < |results|
    ensures var so := h + Replies(env, |h|, results[..k]);
      so + [ReplyTo(env, so, results[k])] == h + Replies(env, |h|, results[..k + 1])
  {
    assert |h + Replies(env, |h|, results[..k])| == |h| + k;
  }

  /** Until a compact_context the replies are appended one after the other. */
  lemma {:induction false} NothingCompacted(env: Env, results: seq<Result>, mids: seq<seq<Message>>, k: nat)
    requires Steps(env, results, mids) && k <= |results|
    requires forall j :: 0 <= j < k ==> results[j].call.name != COMPACT_CONTEXT
    ensures mids[k] == mids[0] + Replies(env, |mids[0]|, results[..k])
  {
    hide Compacts, Replies, ReplyTo;
    if k > 0 {
      NothingCompacted(env, results, mids, k - 1);
      assert AppendedOne(env, mids[k - 1], results[k - 1], mids[k]);
      RepliesSnoc(env, mids[0], results, k - 1);
    }
  }

  /** With a single compact_context, before the last executed call: the round ends well exactly when the history up
      to its reply does not need compacting. */
  lemma OneCompaction(env: Env, h: seq<Message>, turn: Turn, mids: seq<seq<Message>>, i: nat)
    requires Good(h) && RoundSteps(env, h, turn, mids) && FreshCalls(h, turn.calls)
    requires i < Executed(env, turn.calls) - 1
    requires forall j :: 0 <= j < Executed(env, turn.calls) ==> (turn.calls[j].name == COMPACT_CONTEXT <==> j == i)
    ensures var before := BeforeResults(env, h, turn);
      var results := Results(env, before, turn.calls[..Executed(env, turn.calls)]);
      var whole := before + Replies(env, |before|, results[..i + 1]);
      Good(mids[|mids| - 1]) <==> !Triggered(env.cfg, Prepared(whole, env.texts.san))
  {
    hide Good, FreshCalls, Compacts, Triggered, Prepared, Replies, AppendedOne;
    RoundGoodIff(env, h, turn, mids);
    var results := Results(env, mids[0], turn.calls[..Executed(env, turn.calls)]);
    NothingCompacted(env, results, mids, i);
    RepliesSnoc(env, mids[0], results, i);
    assert forall j :: 0 <= j < |results| ==> results[j].call.name == turn.calls[j].name;
  }

  /** Compacting between the replies of a batch leaves replies without their calls, and appending the other replies
      does not bring the calls back. */
  lemma CompactingMidBatchBreaks(env: Env, p: seq<Message>, a: Message, r: seq<Message>, rest: seq<Message>,
                                 left: seq<string>, mid: seq<Message>)
    requires Answering(p, a, r, left) && left != []
    requires AllReplies(rest) && ReplyIds(rest) == left
    requires Compacts(env.cfg, env.texts, p + [a] + r, mid)
    requires Triggered(env.cfg, Prepared(p + [a] + r, env.texts.san))
    ensures !Paired(mid + rest)
  {
    hide Answering, Compacts, Triggered, Prepared, Paired, Orphans;
    CutWhileAnswering(env, p, a, r, left, mid);
    var g, q :| Orphans(g, q, left) && mid == g + q;
    OrphansAppendAll(g, q, rest);
    assert mid + rest == g + (q + rest);
    OrphanedIsBad(g, q + rest, []);
  }

  lemma OrphansAppendAll(g: seq<Message>, r: seq<Message>, rest: seq<Message>)
    requires Orphans(g, r, ReplyIds(rest)) && AllReplies(rest)
    ensures Orphans(g, r + rest, [])
  {
    hide Good, CallIds;
    forall m | m in r + rest ensures m.toolCallId !in CallIds(g) {
      if m in rest {
        var i :| 0 <= i < |rest| && rest[i] == m;
        assert ReplyIds(rest)[i] == m.toolCallId && ReplyIds(rest)[i] in ReplyIds(rest);
      }
    }
  }

  lemma FirstGood(env: Env, history: seq<Message>, prompt: string)
    requires history == [] || Good(history)
    ensures Good(history + [UserMessage(env, history, prompt)])
  {
    var u := [UserMessage(env, history, prompt)];
    SinglePaired(u);
    RepliesHaveNoCalls(u);
    if history == [] {
      assert history + u == u;
    } else {
      PairedJoin(history, u);
    }
  }

  /** The tool replies of a history, by the ID they answer. */
  function AnsweredInOrder(h: seq<Message>): (r: seq<string>) {
    if h == [] then []
    else (if h[0].role == "tool" then [h[0].toolCallId] else []) + AnsweredInOrder(h[1..])
  }

  lemma {:induction false} AnsweredConcat(a: seq<Message>, b: seq<Message>)
    ensures AnsweredInOrder(a + b) == AnsweredInOrder(a) + AnsweredInOrder(b)
  {
    if a == [] {
      assert a + b == b;
    } else {
      assert (a + b)[1..] == a[1..] + b;
      AnsweredConcat(a[1..], b);
    }
  }

  lemma {:induction false} AnsweredReplies(h: seq<Message>)
    requires forall i :: 0 <= i < |h| ==> h[i].role == "tool"
    ensures AnsweredInOrder(h) == ReplyIds(h)
  {
    if h != [] {
      AnsweredReplies(h[1..]);
      assert ReplyIds(h) == [h[0].toolCallId] + ReplyIds(h[1..]);
    }
  }

  /** Replies and calls of a history of blocks are the same IDs, counted with multiplicity. */
  lemma {:induction false} RepliesMatchCalls(h: seq<Message>)
    requires Blocks(h)
    ensures multiset(AnsweredInOrder(h)) == multiset(CallIds(h))
    decreases |h|
  {
    if h != [] {
      var n := BlockLength(h[0]);
      var b, rest := h[..n], h[n..];
      assert h == b + rest;
      RepliesMatchCalls(rest);
      AnsweredConcat(b, rest);
      CallIdsConcat(b, rest);
      BlockCallIds(b);
      assert forall i :: 1 <= i < |b| ==> IsReply(b[i]);
      AnsweredReplies(b[1..]);
    }
  }

  lemma {:induction false} DistinctOnce(s: seq<string>, id: string)
    requires Distinct(s) && id in s
    ensures multiset(s)[id] == 1
  {
    if s[0] == id {
      assert s == [s[0]] + s[1..];
      forall j | 0 <= j < |s[1..]| ensures s[1..][j] != id {
        assert s[0] != s[j + 1];
      }
    } else {
      assert s == [s[0]] + s[1..];
      DistinctOnce(s[1..], id);
    }
  }

  /** In a paired history every tool call has exactly one reply, executed or skipped. */
  lemma ExactlyOneReply(h: seq<Message>, id: string)
    requires Paired(h)
    ensures multiset(AnsweredInOrder(h))[id] == if id in CallIds(h) then 1 else 0
  {
    RepliesMatchCalls(h);
    if id in CallIds(h) {
      DistinctOnce(CallIds(h), id);
    }
  }
}
