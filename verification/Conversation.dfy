/** Messages, their estimated size, and what it means for tool calls and tool replies to match. */
module Conversation {
  import opened Text

  datatype ToolCall = ToolCall(id: string, name: string, arguments: string)

  datatype Message = Message(role: string, content: string, name: string, toolCallId: string,
                             toolCalls: seq<ToolCall>, isInternal: bool, timestamp: string)

  // ---------------------------------------------------------------- estimated tokens

  /** approximateTextTokens: four runes a token, rounded up, surrounding white space not counted. */
  function TextTokens(value: string): (n: nat) {
    (|TrimSpace(value)| + 3) / 4
  }

  function CallTokens(calls: seq<ToolCall>): (n: nat) {
    if calls == [] then 0
    else CallTokens(calls[..|calls| - 1]) + 8 + TextTokens(calls[|calls| - 1].id)
         + TextTokens(calls[|calls| - 1].name) + TextTokens(calls[|calls| - 1].arguments)
  }

  function MessageTokens(m: Message): (n: nat)
    ensures n >= 8
  {
    8 + TextTokens(m.role) + TextTokens(m.content) + TextTokens(m.name) + TextTokens(m.toolCallId)
      + CallTokens(m.toolCalls)
  }

  /** The texts a message is counted by. */
  function CountedTexts(m: Message): (r: seq<string>) {
    [m.role, m.content, m.name, m.toolCallId] + CallTexts(m.toolCalls)
  }

  function CallTexts(calls: seq<ToolCall>): (r: seq<string>) {
    if calls == [] then [] else [calls[0].id, calls[0].name, calls[0].arguments] + CallTexts(calls[1..])
  }

  /** A quarter of each text's length without the white space around it, rounded up. */
  function Quarters(texts: seq<string>): (n: nat) {
    if texts == [] then 0 else (|TrimSpace(texts[0])| + 3) / 4 + Quarters(texts[1..])
  }

  lemma {:induction false} QuartersConcat(a: seq<string>, b: seq<string>)
    ensures Quarters(a + b) == Quarters(a) + Quarters(b)
  {
    hide TrimSpace;
    if a == [] {
      assert a + b == b;
    } else {
      assert (a + b)[1..] == a[1..] + b;
      QuartersConcat(a[1..], b);
    }
  }

  lemma {:induction false} CallTextsAppend(calls: seq<ToolCall>, call: ToolCall)
    ensures CallTexts(calls + [call]) == CallTexts(calls) + [call.id, call.name, call.arguments]
  {
    if calls == [] {
      assert calls + [call] == [call];
    } else {
      assert (calls + [call])[1..] == calls[1..] + [call];
      CallTextsAppend(calls[1..], call);
    }
  }

  /** The estimate of one text. */
  lemma OneQuarter(text: string)
    ensures Quarters([text]) == TextTokens(text)
  {
    hide TrimSpace;
    assert [text][1..] == [];
  }

  lemma {:induction false} CallTokensTell(calls: seq<ToolCall>)
    ensures CallTokens(calls) == 8 * |calls| + Quarters(CallTexts(calls))
  {
    hide TextTokens;
    if calls != [] {
      var front, call := calls[..|calls| - 1], calls[|calls| - 1];
      CallTokensTell(front);
      assert calls == front + [call];
      CallTextsAppend(front, call);
      hide Quarters, CallTexts;
      QuartersConcat(CallTexts(front), [call.id, call.name, call.arguments]);
      QuartersOfThree(call.id, call.name, call.arguments);
    }
  }

  lemma QuartersOfThree(a: string, b: string, c: string)
    ensures Quarters([a, b, c]) == TextTokens(a) + TextTokens(b) + TextTokens(c)
  {
    hide TextTokens, Quarters;
    OneQuarter(a);
    OneQuarter(b);
    OneQuarter(c);
    assert [a, b, c] == [a] + ([b] + [c]);
    QuartersConcat([b], [c]);
    QuartersConcat([a], [b] + [c]);
  }

  /** A message costs eight tokens, another eight a call, and a quarter of every text it holds. */
  lemma MessageTokensTell(m: Message)
    ensures MessageTokens(m) == 8 + 8 * |m.toolCalls| + Quarters(CountedTexts(m))
  {
    hide TextTokens, Quarters, CallTexts, CallTokens;
    CallTokensTell(m.toolCalls);
    QuartersConcat([m.role, m.content, m.name, m.toolCallId], CallTexts(m.toolCalls));
    assert [m.role, m.content, m.name, m.toolCallId] == [m.role] + [m.content, m.name, m.toolCallId];
    OneQuarter(m.role);
    QuartersOfThree(m.content, m.name, m.toolCallId);
    QuartersConcat([m.role], [m.content, m.name, m.toolCallId]);
  }

  function Tokens(h: seq<Message>): (n: nat) {
    if h == [] then 0 else MessageTokens(h[0]) + Tokens(h[1..])
  }

  lemma {:induction false} TokensConcat(a: seq<Message>, b: seq<Message>)
    ensures Tokens(a + b) == Tokens(a) + Tokens(b)
  {
    if a == [] {
      assert a + b == b;
    } else {
      assert (a + b)[1..] == a[1..] + b;
      TokensConcat(a[1..], b);
    }
  }

  lemma TokensSuffix(h: seq<Message>, i: nat)
    requires i < |h|
    ensures Tokens(h[i..]) == MessageTokens(h[i]) + Tokens(h[i + 1..])
  {
    assert h[i..][1..] == h[i + 1..];
  }

  method ApproximateMessageTokens(m: Message) returns (count: nat)
    ensures count == MessageTokens(m)
  {
    count := 8;
    count := count + TextTokens(m.role);
    count := count + TextTokens(m.content);
    count := count + TextTokens(m.name);
    count := count + TextTokens(m.toolCallId);
    ghost var base := count;
    for i := 0 to |m.toolCalls|
      invariant count == base + CallTokens(m.toolCalls[..i])
    {
      assert m.toolCalls[..i + 1][..i] == m.toolCalls[..i];
      count := count + 8;
      count := count + TextTokens(m.toolCalls[i].id);
      count := count + TextTokens(m.toolCalls[i].name);
      count := count + TextTokens(m.toolCalls[i].arguments);
    }
    assert m.toolCalls[..|m.toolCalls|] == m.toolCalls;
  }

  method ApproximateHistoryTokens(h: seq<Message>) returns (total: nat)
    ensures total == Tokens(h)
  {
    hide MessageTokens;
    total := 0;
    for i := 0 to |h|
      invariant total == Tokens(h[..i])
    {
      var tokens := ApproximateMessageTokens(h[i]);
      total := total + tokens;
      assert h[..i + 1] == h[..i] + [h[i]];
      TokensConcat(h[..i], [h[i]]);
    }
    assert h[..|h|] == h;
  }

  // ---------------------------------------------------------------- paired histories

  predicate Plain(m: Message) {
    m.toolCalls == [] && m.role != "tool"
  }

  predicate IsReply(m: Message) {
    m.toolCalls == [] && m.role == "tool"
  }

  function Ids(calls: seq<ToolCall>): (r: seq<string>)
    ensures |r| == |calls|
    ensures forall i :: 0 <= i < |r| ==> r[i] == calls[i].id
  {
    seq(|calls|, i requires 0 <= i < |calls| => calls[i].id)
  }

  function ReplyIds(h: seq<Message>): (r: seq<string>)
    ensures |r| == |h|
    ensures forall i :: 0 <= i < |r| ==> r[i] == h[i].toolCallId
  {
    seq(|h|, i requires 0 <= i < |h| => h[i].toolCallId)
  }

  /** One plain message, or a message with calls and then its replies, one for each call in any order. */
  predicate Block(b: seq<Message>) {
    && b != [] && b[0].role != "tool" && |b| == 1 + |b[0].toolCalls|
    && (forall i :: 1 <= i < |b| ==> IsReply(b[i]))
    && multiset(Ids(b[0].toolCalls)) == multiset(ReplyIds(b[1..]))
  }

  function BlockLength(m: Message): (n: nat)
    ensures n >= 1
  {
    1 + |m.toolCalls|
  }

  predicate Blocks(h: seq<Message>)
    decreases |h|
  {
    h != [] ==>
      && BlockLength(h[0]) <= |h|
      && Block(h[..BlockLength(h[0])])
      && Blocks(h[BlockLength(h[0])..])
  }

  /** All call IDs of a history, in order. */
  function CallIds(h: seq<Message>): (r: seq<string>) {
    if h == [] then [] else Ids(h[0].toolCalls) + CallIds(h[1..])
  }

  predicate Distinct<T(==)>(s: seq<T>) {
    forall i, j :: 0 <= i < j < |s| ==> s[i] != s[j]
  }

  predicate CleanId(id: string) {
    id != "" && TrimSpace(id) == id
  }

  predicate CleanIds(h: seq<Message>) {
    Distinct(CallIds(h)) && forall id :: id in CallIds(h) ==> CleanId(id)
  }

  /** Every call answered exactly once, right after the message that made it; IDs clean and never reused. */
  predicate Paired(h: seq<Message>) {
    Blocks(h) && CleanIds(h)
  }

  predicate StartsPlain(h: seq<Message>) {
    h != [] && Plain(h[0])
  }

  // ---------------------------------------------------------------- joining and cutting

  lemma {:induction false} CallIdsConcat(a: seq<Message>, b: seq<Message>)
    ensures CallIds(a + b) == CallIds(a) + CallIds(b)
  {
    if a == [] {
      assert a + b == b;
    } else {
      assert (a + b)[1..] == a[1..] + b;
      CallIdsConcat(a[1..], b);
    }
  }

  lemma {:induction false} BlocksConcat(a: seq<Message>, b: seq<Message>)
    requires Blocks(a) && Blocks(b)
    ensures Blocks(a + b)
    decreases |a|
  {
    if a == [] {
      assert a + b == b;
    } else {
      var n := BlockLength(a[0]);
      assert (a + b)[..n] == a[..n] && (a + b)[n..] == a[n..] + b;
      BlocksConcat(a[n..], b);
    }
  }

  lemma OneBlock(b: seq<Message>)
    requires Block(b)
    ensures Blocks(b)
  {
    assert b[..|b|] == b && b[|b|..] == [];
  }

  lemma {:induction false} RepliesHaveNoCalls(h: seq<Message>)
    requires forall i :: 0 <= i < |h| ==> h[i].toolCalls == []
    ensures CallIds(h) == []
  {
    if h != [] {
      RepliesHaveNoCalls(h[1..]);
    }
  }

  lemma BlockCallIds(b: seq<Message>)
    requires Block(b)
    ensures CallIds(b) == Ids(b[0].toolCalls)
  {
    RepliesHaveNoCalls(b[1..]);
  }

  lemma DistinctParts<T>(a: seq<T>, b: seq<T>)
    ensures Distinct(a + b) <==> Distinct(a) && Distinct(b) && forall x :: x in a ==> x !in b
  {
    var c := a + b;
    assert forall i :: 0 <= i < |a| ==> c[i] == a[i];
    assert forall j :: 0 <= j < |b| ==> c[|a| + j] == b[j];
    if Distinct(c) {
      forall x | x in a ensures x !in b {
        var i :| 0 <= i < |a| && a[i] == x;
        forall j | 0 <= j < |b| ensures b[j] != x {
          assert c[i] != c[|a| + j];
        }
      }
    } else if Distinct(a) && Distinct(b) {
      var i, j :| 0 <= i < j < |c| && c[i] == c[j];
      assert i < |a| <= j;
      assert c[i] in a && c[j] == b[j - |a|];
    }
  }

  lemma CleanIdsParts(a: seq<Message>, b: seq<Message>)
    ensures CleanIds(a + b) <==>
      CleanIds(a) && CleanIds(b) && forall id :: id in CallIds(a) ==> id !in CallIds(b)
  {
    CallIdsConcat(a, b);
    DistinctParts(CallIds(a), CallIds(b));
    assert forall id :: id in CallIds(a + b) <==> id in CallIds(a) || id in CallIds(b);
  }

  /** The first block boundary at or after position i. */
  function NextBoundary(h: seq<Message>, i: nat): (j: nat)
    requires Blocks(h) && i <= |h|
    ensures i <= j <= |h|
    decreases |h|
  {
    if i == 0 then 0
    else
      var n := BlockLength(h[0]);
      if i < n then n else n + NextBoundary(h[n..], i - n)
  }

  /** The history falls apart at the boundary j, and only replies to calls before i lie between i and j. */
  predicate SplitsAt(h: seq<Message>, i: nat, j: nat)
    requires i <= j <= |h|
  {
    Blocks(h[..j]) && Blocks(h[j..]) && RepliesBetween(h, i, j)
  }

  predicate RepliesBetween(h: seq<Message>, i: nat, j: nat)
    requires i <= j <= |h|
  {
    forall k :: i <= k < j ==> IsReply(h[k]) && h[k].toolCallId in CallIds(h[..i])
  }

  lemma SplitInFirstBlock(h: seq<Message>, i: nat)
    requires Blocks(h) && h != [] && 0 < i < BlockLength(h[0])
    ensures SplitsAt(h, i, BlockLength(h[0]))
  {
    var n := BlockLength(h[0]);
    OneBlock(h[..n]);
    assert CallIds(h[..i]) == Ids(h[0].toolCalls) + CallIds(h[..i][1..]);
    forall k | i <= k < n ensures IsReply(h[k]) && h[k].toolCallId in CallIds(h[..i]) {
      ReplyAnswersOwnBlock(h, n, k);
    }
  }

  /** What holds of a history holds with one more block before it. */
  lemma SplitInRest(b: seq<Message>, rest: seq<Message>, i: nat, j: nat)
    requires Block(b) && i <= j <= |rest| && SplitsAt(rest, i, j)
    ensures SplitsAt(b + rest, |b| + i, |b| + j)
  {
    hide Block, Blocks, RepliesBetween;
    var n := |b|;
    OneBlock(b);
    BlocksConcat(b, rest[..j]);
    assert (b + rest)[..n + j] == b + rest[..j];
    assert (b + rest)[n + j..] == rest[j..];
    RepliesInRest(b, rest, i, j);
  }

  lemma RepliesInRest(b: seq<Message>, rest: seq<Message>, i: nat, j: nat)
    requires i <= j <= |rest| && RepliesBetween(rest, i, j)
    ensures RepliesBetween(b + rest, |b| + i, |b| + j)
  {
    hide CallIds, IsReply;
    var h, n := b + rest, |b|;
    assert h[..n + i] == b + rest[..i];
    CallIdsConcat(b, rest[..i]);
    forall k | n + i <= k < n + j ensures IsReply(h[k]) && h[k].toolCallId in CallIds(h[..n + i]) {
      assert h[k] == rest[k - n];
    }
  }

  lemma SplitAfterFirst(h: seq<Message>, n: nat, i: nat, j: nat)
    requires n <= i <= n + j <= |h| && Block(h[..n]) && SplitsAt(h[n..], i - n, j)
    ensures SplitsAt(h, i, n + j)
  {
    hide SplitsAt, Block;
    assert h == h[..n] + h[n..];
    SplitInRest(h[..n], h[n..], i - n, j);
  }

  /** Cutting at a boundary leaves two histories of blocks; between a cut and the next boundary there are
      only replies, and their calls lie before the cut. */
  lemma {:induction false} BoundarySplits(h: seq<Message>, i: nat)
    requires Blocks(h) && i <= |h|
    ensures SplitsAt(h, i, NextBoundary(h, i))
    decreases |h|
  {
    hide Block, CallIds;
    if i == 0 {
      assert h[0..] == h && h[..0] == [];
    } else {
      hide SplitsAt;
      if i < BlockLength(h[0]) {
        SplitInFirstBlock(h, i);
      } else {
        var n := BlockLength(h[0]);
        BoundarySplits(h[n..], i - n);
        SplitAfterFirst(h, n, i, NextBoundary(h[n..], i - n));
      }
    }
  }

  lemma ReplyAnswersOwnBlock(h: seq<Message>, n: nat, k: nat)
    requires 1 <= k < n <= |h| && Block(h[..n])
    ensures IsReply(h[k]) && h[k].toolCallId in Ids(h[0].toolCalls)
  {
    var b := h[..n];
    assert b[k] == h[k];
    assert ReplyIds(b[1..])[k - 1] == h[k].toolCallId;
    assert h[k].toolCallId in multiset(ReplyIds(b[1..]));
  }

  lemma CleanIdsCut(h: seq<Message>, j: nat)
    requires CleanIds(h) && j <= |h|
    ensures CleanIds(h[..j]) && CleanIds(h[j..])
    ensures forall id :: id in CallIds(h[..j]) ==> id !in CallIds(h[j..])
  {
    CleanIdsParts(h[..j], h[j..]);
    assert h[..j] + h[j..] == h;
  }

  lemma PairedCut(h: seq<Message>, j: nat)
    requires Paired(h) && j <= |h| && NextBoundary(h, j) == j
    ensures Paired(h[..j]) && Paired(h[j..])
    ensures forall id :: id in CallIds(h[..j]) ==> id !in CallIds(h[j..])
  {
    BoundarySplits(h, j);
    CleanIdsCut(h, j);
  }

  lemma PairedJoin(a: seq<Message>, b: seq<Message>)
    requires Paired(a) && Paired(b)
    requires forall id :: id in CallIds(a) ==> id !in CallIds(b)
    ensures Paired(a + b)
  {
    BlocksConcat(a, b);
    CleanIdsParts(a, b);
  }

  /** A boundary is found again from any position between it and the one before. */
  lemma {:induction false} NextBoundaryFixed(h: seq<Message>, i: nat)
    requires Blocks(h) && i <= |h|
    ensures NextBoundary(h, NextBoundary(h, i)) == NextBoundary(h, i)
    decreases |h|
  {
    if i > 0 {
      var n := BlockLength(h[0]);
      if i >= n {
        NextBoundaryFixed(h[n..], i - n);
      }
    }
  }

  /** A position that holds no tool reply is a boundary. */
  lemma {:induction false} NonReplyIsBoundary(h: seq<Message>, i: nat)
    requires Blocks(h) && i < |h| && h[i].role != "tool"
    ensures NextBoundary(h, i) == i
  {
    BoundarySplits(h, i);
  }

  /** Ascending places in a history of n messages. */
  predicate Ascending(at: seq<nat>, n: nat) {
    (forall i :: 0 <= i < |at| ==> at[i] < n) && forall i, j :: 0 <= i < j < |at| ==> at[i] < at[j]
  }
}
