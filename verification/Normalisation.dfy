/** normalizeToolCallHistory (internal/agent/agent.go): drop calls without replies and replies without calls. */
module Normalisation {
  import opened Text
  import opened Conversation

  /** The non-blank call IDs of a history, as written. */
  function OfferedIds(h: seq<Message>): (r: set<string>) {
    set m, c | m in h && c in m.toolCalls && TrimSpace(c.id) != "" :: c.id
  }

  /** The non-blank IDs the replies of a history answer, trimmed. */
  function AnsweredIds(h: seq<Message>): (r: set<string>) {
    set m | m in h && m.role == "tool" && TrimSpace(m.toolCallId) != "" :: TrimSpace(m.toolCallId)
  }

  predicate AllMatched(m: Message, answered: set<string>) {
    forall c :: c in m.toolCalls && TrimSpace(c.id) != "" ==> TrimSpace(c.id) in answered
  }

  predicate Kept(m: Message, offered: set<string>, answered: set<string>) {
    AllMatched(m, answered) && (m.role == "tool" ==> m.toolCallId in offered)
  }

  function KeepOnly(h: seq<Message>, offered: set<string>, answered: set<string>): (r: seq<Message>) {
    if h == [] then []
    else KeepOnly(h[..|h| - 1], offered, answered) + (if Kept(h[|h| - 1], offered, answered) then [h[|h| - 1]] else [])
  }

  function Normalize(h: seq<Message>): (r: seq<Message>) {
    KeepOnly(h, OfferedIds(h), AnsweredIds(h))
  }

  /** The two loops of the source. */
  method NormalizeToolCallHistory(history: seq<Message>) returns (cleaned: seq<Message>)
    ensures cleaned == Normalize(history)
  {
    hide OfferedIds, AnsweredIds, TrimSpace;
    var valid, responses := CollectIds(history);
    cleaned := [];
    for i := 0 to |history|
      invariant cleaned == KeepOnly(history[..i], valid, responses)
    {
      assert history[..i + 1][..i] == history[..i];
      var message := history[i];
      if |message.toolCalls| > 0 {
        var allMatched := AllCallsAnswered(message, responses);
        if !allMatched {
          continue;
        }
      }
      if message.role != "tool" {
        cleaned := cleaned + [message];
        continue;
      }
      if message.toolCallId !in valid {
        continue;
      }
      cleaned := cleaned + [message];
    }
    assert history[..|history|] == history;
  }

  method CollectIds(history: seq<Message>) returns (valid: set<string>, responses: set<string>)
    ensures valid == OfferedIds(history) && responses == AnsweredIds(history)
  {
    hide TrimSpace;
    valid := {};
    responses := {};
    for i := 0 to |history|
      invariant valid == OfferedIds(history[..i]) && responses == AnsweredIds(history[..i])
    {
      var message := history[i];
      ghost var before := valid;
      for j := 0 to |message.toolCalls|
        invariant valid == before + (set c | c in message.toolCalls[..j] && TrimSpace(c.id) != "" :: c.id)
      {
        assert message.toolCalls[..j + 1] == message.toolCalls[..j] + [message.toolCalls[j]];
        if TrimSpace(message.toolCalls[j].id) == "" {
          continue;
        }
        valid := valid + {message.toolCalls[j].id};
      }
      assert message.toolCalls[..|message.toolCalls|] == message.toolCalls;
      if message.role == "tool" && TrimSpace(message.toolCallId) != "" {
        responses := responses + {TrimSpace(message.toolCallId)};
      }
      OneMoreIds(history, i);
    }
    assert history[..|history|] == history;
  }

  method AllCallsAnswered(message: Message, responses: set<string>) returns (allMatched: bool)
    ensures allMatched <==> AllMatched(message, responses)
  {
    allMatched := true;
    for j := 0 to |message.toolCalls|
      invariant allMatched
      invariant forall c :: c in message.toolCalls[..j] && TrimSpace(c.id) != "" ==> TrimSpace(c.id) in responses
    {
      assert message.toolCalls[..j + 1] == message.toolCalls[..j] + [message.toolCalls[j]];
      var callId := TrimSpace(message.toolCalls[j].id);
      if callId == "" {
        continue;
      }
      if callId !in responses {
        assert message.toolCalls[j] in message.toolCalls;
        allMatched := false;
        break;
      }
    }
    assert message.toolCalls[..|message.toolCalls|] == message.toolCalls;
  }

  lemma OneMoreIds(h: seq<Message>, i: nat)
    requires i < |h|
    ensures OfferedIds(h[..i + 1]) ==
      OfferedIds(h[..i]) + (set c | c in h[i].toolCalls && TrimSpace(c.id) != "" :: c.id)
    ensures AnsweredIds(h[..i + 1]) == AnsweredIds(h[..i]) +
      (if h[i].role == "tool" && TrimSpace(h[i].toolCallId) != "" then {TrimSpace(h[i].toolCallId)} else {})
  {
    assert h[..i + 1] == h[..i] + [h[i]];
  }

  // ---------------------------------------------------------------- what is kept, on any history

  lemma {:induction false} KeepOnlyConcat(a: seq<Message>, b: seq<Message>, offered: set<string>, answered: set<string>)
    ensures KeepOnly(a + b, offered, answered) == KeepOnly(a, offered, answered) + KeepOnly(b, offered, answered)
  {
    if b == [] {
      assert a + b == a;
    } else {
      assert (a + b)[..|a + b| - 1] == a + b[..|b| - 1];
      KeepOnlyConcat(a, b[..|b| - 1], offered, answered);
    }
  }

  lemma {:induction false} KeepOnlyMembers(h: seq<Message>, offered: set<string>, answered: set<string>)
    ensures forall m :: m in KeepOnly(h, offered, answered) <==> m in h && Kept(m, offered, answered)
  {
    if h != [] {
      KeepOnlyMembers(h[..|h| - 1], offered, answered);
      assert h == h[..|h| - 1] + [h[|h| - 1]];
    }
  }

  lemma {:induction false} KeepOnlyAll(h: seq<Message>, offered: set<string>, answered: set<string>)
    requires forall m :: m in h ==> Kept(m, offered, answered)
    ensures KeepOnly(h, offered, answered) == h
  {
    hide Kept;
    if h != [] {
      KeepOnlyAll(h[..|h| - 1], offered, answered);
    }
  }

  lemma {:induction false} KeepOnlyNone(h: seq<Message>, offered: set<string>, answered: set<string>)
    requires forall m :: m in h ==> !Kept(m, offered, answered)
    ensures KeepOnly(h, offered, answered) == []
  {
    if h != [] {
      KeepOnlyNone(h[..|h| - 1], offered, answered);
    }
  }

  lemma {:induction false} KeepOnlySelects(h: seq<Message>, offered: set<string>, answered: set<string>)
    returns (at: seq<nat>)
    ensures Ascending(at, |h|) && |at| == |KeepOnly(h, offered, answered)|
    ensures forall i :: 0 <= i < |at| ==> KeepOnly(h, offered, answered)[i] == h[at[i]]
    ensures forall k :: 0 <= k < |h| ==> (k in at <==> Kept(h[k], offered, answered))
  {
    hide Kept;
    at := [];
    if h != [] {
      at := KeepOnlySelects(h[..|h| - 1], offered, answered);
      if Kept(h[|h| - 1], offered, answered) {
        at := at + [|h| - 1];
      }
    }
  }

  /** Some reply of the history answers the call. */
  predicate Answered(h: seq<Message>, c: ToolCall) {
    exists r :: r in h && r.role == "tool" && TrimSpace(r.toolCallId) != ""
      && TrimSpace(r.toolCallId) == TrimSpace(c.id)
  }

  /** Some message of the history makes a call with this very ID. */
  predicate Made(h: seq<Message>, id: string) {
    exists m, c :: m in h && c in m.toolCalls && TrimSpace(c.id) != "" && c.id == id
  }

  /** Which messages normalisation keeps, in order and as they are: those whose calls with an ID are all answered, and
      of replies only those to a call that is made. */
  lemma NormalizeSelects(h: seq<Message>) returns (at: seq<nat>)
    ensures Ascending(at, |h|) && |at| == |Normalize(h)|
    ensures forall i :: 0 <= i < |at| ==> Normalize(h)[i] == h[at[i]]
    ensures forall k :: 0 <= k < |h| ==> (k in at <==>
        && (forall c :: c in h[k].toolCalls && TrimSpace(c.id) != "" ==> Answered(h, c))
        && (h[k].role == "tool" ==> Made(h, h[k].toolCallId)))
  {
    hide TrimSpace;
    at := KeepOnlySelects(h, OfferedIds(h), AnsweredIds(h));
    forall k | 0 <= k < |h| ensures Kept(h[k], OfferedIds(h), AnsweredIds(h)) <==>
        && (forall c :: c in h[k].toolCalls && TrimSpace(c.id) != "" ==> Answered(h, c))
        && (h[k].role == "tool" ==> Made(h, h[k].toolCallId))
    {
      assert forall id :: id in OfferedIds(h) <==> Made(h, id);
      assert forall c: ToolCall :: TrimSpace(c.id) != "" ==> (TrimSpace(c.id) in AnsweredIds(h) <==> Answered(h, c));
    }
  }

  lemma TokensAppend(front: seq<Message>, last: Message)
    ensures Tokens(front + [last]) == Tokens(front) + MessageTokens(last)
  {
    TokensConcat(front, [last]);
    assert Tokens([last]) == MessageTokens([last][0]) + Tokens([last][1..]);
  }

  lemma KeepOnlyStep(h: seq<Message>, last: Message, offered: set<string>, answered: set<string>)
    ensures var k := KeepOnly(h, offered, answered);
      KeepOnly(h + [last], offered, answered) == k || KeepOnly(h + [last], offered, answered) == k + [last]
  {
    assert (h + [last])[..|h + [last]| - 1] == h;
  }

  /** Dropping messages never makes a history larger. */
  lemma {:induction false} KeepOnlyTokens(h: seq<Message>, offered: set<string>, answered: set<string>)
    ensures Tokens(KeepOnly(h, offered, answered)) <= Tokens(h)
    ensures |KeepOnly(h, offered, answered)| <= |h|
  {
    if h != [] {
      var front, last := h[..|h| - 1], h[|h| - 1];
      assert h == front + [last];
      KeepOnlyTokens(front, offered, answered);
      KeepOnlyStep(front, last, offered, answered);
      TokensAppend(front, last);
      TokensAppend(KeepOnly(front, offered, answered), last);
    }
  }

  /** Whatever calls survive normalisation were answered in the history it was given. */
  lemma SurvivingCallsWereAnswered(h: seq<Message>, m: Message, c: ToolCall)
    requires m in Normalize(h) && c in m.toolCalls && TrimSpace(c.id) != ""
    ensures exists r :: r in h && r.role == "tool" && TrimSpace(r.toolCallId) == TrimSpace(c.id)
  {
    KeepOnlyMembers(h, OfferedIds(h), AnsweredIds(h));
  }

  /** Every reply left has its call left as well. */
  predicate NoOrphans(h: seq<Message>) {
    forall r :: r in h && r.role == "tool" ==> r.toolCallId in OfferedIds(h)
  }

  /** The call `id` comes from a message all of whose calls were answered. */
  predicate FullyAnsweredCall(h: seq<Message>, id: string) {
    exists m :: m in h && id in OfferedIds([m]) && AllMatched(m, AnsweredIds(h))
      && (m.role == "tool" ==> m.toolCallId in OfferedIds(h))
  }

  /** The valid IDs are collected before messages are dropped, so a reply can outlive its call. It does so
      exactly when some reply that is kept answers a call no kept message makes. */
  lemma OrphansIff(h: seq<Message>)
    ensures NoOrphans(Normalize(h)) <==>
      forall r :: r in h && r.role == "tool" && r.toolCallId in OfferedIds(h) && AllMatched(r, AnsweredIds(h))
        ==> FullyAnsweredCall(h, r.toolCallId)
  {
    var offered, answered, n := OfferedIds(h), AnsweredIds(h), Normalize(h);
    KeepOnlyMembers(h, offered, answered);
    forall id ensures id in OfferedIds(n) <==> FullyAnsweredCall(h, id) {
      if id in OfferedIds(n) {
        var m, c :| m in n && c in m.toolCalls && TrimSpace(c.id) != "" && c.id == id;
        assert m in [m] && id in OfferedIds([m]);
      }
      if FullyAnsweredCall(h, id) {
        var m :| m in h && id in OfferedIds([m]) && AllMatched(m, answered)
          && (m.role == "tool" ==> m.toolCallId in offered);
        assert m in n;
      }
    }
  }

  function CallsMessage(ids: seq<string>): Message {
    Message("assistant", "", "", "", seq(|ids|, i requires 0 <= i < |ids| => ToolCall(ids[i], "grep_search", "")),
            false, "")
  }

  function ReplyMessage(id: string): Message {
    Message("tool", "ok", "grep_search", id, [], false, "")
  }

  /** The shortest such history: two calls, one reply. The message is dropped, its reply stays. */
  lemma OrphanExample()
    ensures Normalize([CallsMessage(["a", "b"]), ReplyMessage("a")]) == [ReplyMessage("a")]
    ensures !NoOrphans([ReplyMessage("a")])
  {
    TrimFixed("a");
    TrimFixed("b");
    hide TrimSpace;
    var m, r := CallsMessage(["a", "b"]), ReplyMessage("a");
    var h := [m, r];
    assert m.toolCalls == [ToolCall("a", "grep_search", ""), ToolCall("b", "grep_search", "")];
    OrphanExampleIds(h, m, r);
    assert h[..1] == [m] && h[..1][..0] == [];
    assert KeepOnly([m], {"a", "b"}, {"a"}) == [];
  }

  lemma OrphanExampleIds(h: seq<Message>, m: Message, r: Message)
    requires h == [m, r] && m.role == "assistant" && r.role == "tool" && r.toolCallId == "a" && r.toolCalls == []
    requires m.toolCalls == [ToolCall("a", "grep_search", ""), ToolCall("b", "grep_search", "")]
    requires TrimSpace("a") == "a" && TrimSpace("b") == "b"
    ensures OfferedIds(h) == {"a", "b"} && AnsweredIds(h) == {"a"} && !AllMatched(m, {"a"}) && OfferedIds([r]) == {}
  {
    hide TrimSpace;
    assert m in h && r in h && m.toolCalls[0] in m.toolCalls && m.toolCalls[1] in m.toolCalls;
    assert "a" in OfferedIds(h) && "b" in OfferedIds(h) && "a" in AnsweredIds(h);
  }

  // ---------------------------------------------------------------- on paired histories

  lemma {:induction false} CallIdsMember(h: seq<Message>, id: string)
    ensures id in CallIds(h) <==> exists m, c :: m in h && c in m.toolCalls && c.id == id
  {
    if h != [] {
      CallIdsMember(h[1..], id);
      assert h == [h[0]] + h[1..];
      var own := Ids(h[0].toolCalls);
      if id in own {
        var i :| 0 <= i < |own| && own[i] == id;
        assert h[0] in h && h[0].toolCalls[i] in h[0].toolCalls && h[0].toolCalls[i].id == id;
      }
      if m, c :| m in h && c in m.toolCalls && c.id == id {
        if m == h[0] {
          var i :| 0 <= i < |m.toolCalls| && m.toolCalls[i] == c;
          assert own[i] == id;
        } else {
          assert m in h[1..];
        }
      }
    }
  }

  lemma CleanOfferedIds(h: seq<Message>)
    requires CleanIds(h)
    ensures OfferedIds(h) == set id | id in CallIds(h)
  {
    forall id ensures id in OfferedIds(h) <==> id in CallIds(h) {
      CallIdsMember(h, id);
      if id in CallIds(h) {
        assert CleanId(id);
      }
    }
  }

  /** In a history of blocks every reply answers some call and every call has a reply. */
  lemma {:induction false} BlocksMatch(h: seq<Message>)
    requires Blocks(h)
    ensures forall r :: r in h && r.role == "tool" ==> r.toolCalls == [] && r.toolCallId in CallIds(h)
    ensures forall id :: id in CallIds(h) ==> exists r :: r in h && r.role == "tool" && r.toolCallId == id
    decreases |h|
  {
    if h != [] {
      var n := BlockLength(h[0]);
      var b, rest := h[..n], h[n..];
      assert h == b + rest;
      BlocksMatch(rest);
      CallIdsConcat(b, rest);
      BlockCallIds(b);
      OneBlockMatches(b);
    }
  }

  lemma OneBlockMatches(b: seq<Message>)
    requires Block(b)
    ensures forall r :: r in b && r.role == "tool" ==> r.toolCalls == [] && r.toolCallId in Ids(b[0].toolCalls)
    ensures forall id :: id in Ids(b[0].toolCalls) ==> exists r :: r in b && r.role == "tool" && r.toolCallId == id
  {
    forall r | r in b && r.role == "tool" ensures r.toolCalls == [] && r.toolCallId in Ids(b[0].toolCalls) {
      var k :| 0 <= k < |b| && b[k] == r;
      assert b[..|b|] == b;
      ReplyAnswersOwnBlock(b, |b|, k);
    }
    var replies := b[1..];
    forall id | id in Ids(b[0].toolCalls) ensures exists r :: r in b && r.role == "tool" && r.toolCallId == id {
      assert id in multiset(ReplyIds(replies));
      var k :| 0 <= k < |replies| && ReplyIds(replies)[k] == id;
      assert IsReply(b[k + 1]) && b[k + 1].toolCallId == id;
    }
  }

  lemma PairedKept(h: seq<Message>, offered: set<string>, answered: set<string>)
    requires Paired(h)
    requires forall id :: id in CallIds(h) ==> id in offered
    requires forall id :: id in CallIds(h) ==> id in answered
    ensures forall m :: m in h ==> Kept(m, offered, answered)
  {
    BlocksMatch(h);
    forall m | m in h ensures Kept(m, offered, answered) {
      forall c | c in m.toolCalls ensures TrimSpace(c.id) in answered {
        CallIdsMember(h, c.id);
        assert CleanId(c.id);
      }
    }
  }

  lemma AnsweredCoversCalls(h: seq<Message>)
    requires Paired(h)
    ensures forall id :: id in CallIds(h) ==> id in AnsweredIds(h)
  {
    BlocksMatch(h);
    forall id | id in CallIds(h) ensures id in AnsweredIds(h) {
      assert CleanId(id);
      var r :| r in h && r.role == "tool" && r.toolCallId == id;
    }
  }

  /** Normalisation changes nothing in a paired history. */
  lemma NormalizePaired(h: seq<Message>)
    requires Paired(h)
    ensures Normalize(h) == h
  {
    CleanOfferedIds(h);
    AnsweredCoversCalls(h);
    PairedKept(h, OfferedIds(h), AnsweredIds(h));
    KeepOnlyAll(h, OfferedIds(h), AnsweredIds(h));
  }

  /** Replies to calls that are not offered go; a paired rest whose calls are all offered stays. */
  lemma LeadGoesRestStays(lead: seq<Message>, rest: seq<Message>)
    requires Paired(rest)
    requires forall m :: m in lead ==> IsReply(m) && m.toolCallId !in CallIds(rest)
    ensures Normalize(lead + rest) == rest
  {
    var s := lead + rest;
    RepliesHaveNoCalls(lead);
    CleanIdsParts(lead, rest);
    CallIdsConcat(lead, rest);
    CleanOfferedIds(s);
    AnsweredCoversCalls(rest);
    AnsweredIdsGrow(lead, rest);
    PairedKept(rest, OfferedIds(s), AnsweredIds(s));
    KeepOnlyAll(rest, OfferedIds(s), AnsweredIds(s));
    KeepOnlyNone(lead, OfferedIds(s), AnsweredIds(s));
    KeepOnlyConcat(lead, rest, OfferedIds(s), AnsweredIds(s));
  }

  /** Normalising a suffix cut anywhere out of a paired history drops exactly the leading replies whose
      call was cut off, and what is left is paired. */
  lemma NormalizeSuffix(h: seq<Message>, i: nat)
    requires Paired(h) && i <= |h|
    ensures Normalize(h[i..]) == h[NextBoundary(h, i)..]
    ensures Paired(h[NextBoundary(h, i)..])
  {
    hide Blocks, CleanIds, CallIds, Normalize;
    var j := NextBoundary(h, i);
    BoundarySplits(h, i);
    NextBoundaryFixed(h, i);
    PairedCut(h, j);
    CallsBeforeCut(h, i, j);
    assert h[i..] == h[i..j] + h[j..];
    LeadGoesRestStays(h[i..j], h[j..]);
  }

  lemma CallsBeforeCut(h: seq<Message>, i: nat, j: nat)
    requires CleanIds(h) && i <= j <= |h|
    requires forall k :: i <= k < j ==> IsReply(h[k]) && h[k].toolCallId in CallIds(h[..i])
    ensures forall m :: m in h[i..j] ==> IsReply(m) && m.toolCallId !in CallIds(h[j..])
  {
    CleanIdsCut(h, i);
    CallIdsConcat(h[i..j], h[j..]);
    assert h[i..] == h[i..j] + h[j..];
  }

  lemma AnsweredIdsGrow(a: seq<Message>, b: seq<Message>)
    ensures AnsweredIds(b) <= AnsweredIds(a + b)
  {
  }
}
