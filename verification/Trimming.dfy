/** trimHistoryForContext (internal/agent/agent.go): the newest messages that fit a token budget. */
module Trimming {
  import opened Conversation
  import opened Normalisation

  /** historyTail */
  function HistoryTail(h: seq<Message>, count: int): (r: seq<Message>) {
    if count <= 0 then [] else if count >= |h| then h else h[|h| - count..]
  }

  /** The system prompt's share comes off the budget first. */
  function Remaining(systemPrompt: string, budget: int): int {
    budget - (TextTokens(systemPrompt) + 12)
  }

  /** The suffix starting at j fits, or it is the last message, which is taken whatever its size. */
  predicate Takes(h: seq<Message>, rem: int, j: nat)
    requires j < |h|
  {
    j == |h| - 1 || Tokens(h[j..]) <= rem
  }

  /** Where the longest such suffix starts. */
  function FitStart(h: seq<Message>, rem: int): (j: nat)
    requires h != []
    ensures j < |h|
  {
    LongestFrom(h, rem, |h| - 1)
  }

  function LongestFrom(h: seq<Message>, rem: int, j: nat): (r: nat)
    requires j < |h|
    ensures r <= j
  {
    if j == 0 || Tokens(h[j - 1..]) > rem then j else LongestFrom(h, rem, j - 1)
  }

  lemma {:induction false} TokensShrink(h: seq<Message>, i: nat, j: nat)
    requires i <= j <= |h|
    ensures Tokens(h[j..]) <= Tokens(h[i..])
    decreases j - i
  {
    if i < j {
      TokensSuffix(h, i);
      TokensShrink(h, i + 1, j);
    }
  }

  lemma {:induction false} LongestFromStops(h: seq<Message>, rem: int, j: nat)
    requires j < |h| && Takes(h, rem, j)
    ensures var r := LongestFrom(h, rem, j);
      Takes(h, rem, r) && (r == 0 || Tokens(h[r - 1..]) > rem)
    decreases j
  {
    hide MessageTokens;
    if j > 0 && Tokens(h[j - 1..]) <= rem {
      LongestFromStops(h, rem, j - 1);
    }
  }

  /** The suffix from FitStart is the longest that is taken: it and every shorter one are, no longer one is. */
  lemma FitStartIsLongest(h: seq<Message>, rem: int, k: nat)
    requires k < |h|
    ensures FitStart(h, rem) <= k <==> Takes(h, rem, k)
  {
    hide MessageTokens;
    var r := FitStart(h, rem);
    LongestFromStops(h, rem, |h| - 1);
    if r <= k {
      TokensShrink(h, r, k);
    } else {
      TokensShrink(h, k, r - 1);
    }
  }

  /** What trimHistoryForContext returns. */
  function Trimmed(h: seq<Message>, systemPrompt: string, budget: int): (r: seq<Message>) {
    if budget <= 0 || h == [] then h
    else if Remaining(systemPrompt, budget) <= 0 then HistoryTail(h, 1)
    else
      var n := Normalize(h[FitStart(h, Remaining(systemPrompt, budget))..]);
      if n == [] then HistoryTail(h, 1) else n
  }

  function Reversed(h: seq<Message>): (r: seq<Message>)
    ensures |r| == |h|
    ensures forall i :: 0 <= i < |r| ==> r[i] == h[|h| - 1 - i]
  {
    seq(|h|, i requires 0 <= i < |h| => h[|h| - 1 - i])
  }

  lemma ReversedTwice(h: seq<Message>)
    ensures Reversed(Reversed(h)) == h
  {
  }

  method TrimHistoryForContext(history: seq<Message>, systemPrompt: string, budgetTokens: int)
    returns (selected: seq<Message>)
    ensures selected == Trimmed(history, systemPrompt, budgetTokens)
  {
    hide Tokens, TextTokens, Normalize, FitStart;
    if budgetTokens <= 0 || |history| == 0 {
      return history;
    }
    var remaining := budgetTokens - (TextTokens(systemPrompt) + 12);
    if remaining <= 0 {
      return HistoryTail(history, 1);
    }
    var used, idx: int;
    selected, used, idx := CollectNewest(history, remaining);
    // the source trims a selection that is still over budget here; there is nothing to trim
    assert !(|selected| > 1 && used > remaining);
    ReversedTwice(history[idx + 1..]);
    selected := ReverseInPlace(selected);
    selected := NormalizeToolCallHistory(selected);
    if |selected| == 0 {
      return HistoryTail(history, 1);
    }
  }

  /** What taking one more message does to the suffix taken so far. */
  lemma TakeOneMore(h: seq<Message>, i: nat)
    requires i < |h|
    ensures Reversed(h[i..]) == Reversed(h[i + 1..]) + [h[i]]
    ensures Tokens(h[i..]) == MessageTokens(h[i]) + Tokens(h[i + 1..])
  {
    hide Tokens, MessageTokens;
    TokensSuffix(h, i);
    var a, b := Reversed(h[i..]), Reversed(h[i + 1..]) + [h[i]];
    forall k | 0 <= k < |a| ensures a[k] == b[k] {
    }
  }

  lemma LongestFromHere(h: seq<Message>, rem: int, j: nat)
    requires j < |h|
    ensures j == |h| - 1 ==> FitStart(h, rem) == LongestFrom(h, rem, j)
    ensures j > 0 && Tokens(h[j - 1..]) <= rem ==> LongestFrom(h, rem, j) == LongestFrom(h, rem, j - 1)
    ensures j == 0 || Tokens(h[j - 1..]) > rem ==> LongestFrom(h, rem, j) == j
  {
    hide Tokens;
  }

  /** The selection loop: newest first, until the next message would not fit. */
  method CollectNewest(history: seq<Message>, remaining: int) returns (selected: seq<Message>, used: int, idx: int)
    requires history != []
    ensures -1 <= idx < |history| - 1 && idx + 1 == FitStart(history, remaining)
    ensures selected == Reversed(history[idx + 1..]) && used == Tokens(history[idx + 1..])
    ensures |selected| > 1 ==> used <= remaining
  {
    hide Tokens, MessageTokens, Reversed, FitStart, LongestFrom;
    selected, used, idx := [], 0, |history| - 1;
    assert history[idx + 1..] == [];
    NothingTaken();
    while idx >= 0
      invariant -1 <= idx < |history|
      invariant selected == Reversed(history[idx + 1..]) && used == Tokens(history[idx + 1..])
      invariant |selected| > 1 ==> used <= remaining
      invariant |selected| == |history| - (idx + 1)
      invariant idx + 1 < |history| ==> FitStart(history, remaining) == LongestFrom(history, remaining, idx + 1)
      decreases idx
    {
      var message := history[idx];
      var tokens := ApproximateMessageTokens(message);
      TakeOneMore(history, idx);
      LongestFromHere(history, remaining, idx);
      if idx + 1 < |history| {
        LongestFromHere(history, remaining, idx + 1);
      }
      if |selected| == 0 {
        selected := selected + [message];
        used := used + tokens;
        idx := idx - 1;
        continue;
      }
      if used + tokens > remaining {
        break;
      }
      selected := selected + [message];
      used := used + tokens;
      idx := idx - 1;
    }
    if idx == -1 {
      LongestFromHere(history, remaining, 0);
    }
  }

  lemma NothingTaken()
    ensures Reversed([]) == [] && Tokens([]) == 0
  {
  }

  /** The swap loop that puts the selection back in order. */
  method ReverseInPlace(h: seq<Message>) returns (r: seq<Message>)
    ensures r == Reversed(h)
  {
    r := h;
    var left, right := 0, |r| - 1;
    while left < right
      invariant |r| == |h| && 0 <= left && left + right == |h| - 1
      invariant left <= right + 1
      invariant forall k :: left <= k <= right ==> r[k] == h[k]
      invariant forall k :: 0 <= k < left ==> r[k] == h[|h| - 1 - k]
      invariant forall k :: right < k < |h| ==> r[k] == h[|h| - 1 - k]
    {
      r := r[left := r[right]][right := r[left]];
      left, right := left + 1, right - 1;
    }
  }

  // ---------------------------------------------------------------- what trimming promises

  lemma TrimmedParts(h: seq<Message>, systemPrompt: string, budget: int)
    requires h != [] && Remaining(systemPrompt, budget) > 0
    ensures var j := FitStart(h, Remaining(systemPrompt, budget));
      Trimmed(h, systemPrompt, budget) == if Normalize(h[j..]) == [] then h[|h| - 1..] else Normalize(h[j..])
  {
    assert HistoryTail(h, 1) == h[|h| - 1..];
  }

  /** From j on the messages fit into rem, or only the last one is left; with the one before j they do not fit. */
  predicate LongestFitting(h: seq<Message>, rem: int, j: nat)
    requires j < |h|
  {
    (j == |h| - 1 || Tokens(h[j..]) <= rem) && (j > 0 ==> Tokens(h[j - 1..]) > rem)
  }

  /** What is kept: everything without a budget; the last message if the system prompt and 12 tokens use it up; else the
      longest end of the history that fits into the rest, without unanswered calls and replies to nothing, or the last
      message if that leaves nothing. */
  lemma TrimTells(h: seq<Message>, systemPrompt: string, budget: int) returns (j: nat)
    ensures budget <= 0 || h == [] ==> Trimmed(h, systemPrompt, budget) == h
    ensures var r := Trimmed(h, systemPrompt, budget);
      var rem := budget - 12 - TextTokens(systemPrompt);
      budget > 0 && h != [] ==>
        if rem <= 0 then r == [h[|h| - 1]]
        else
          && j < |h| && LongestFitting(h, rem, j)
          && r == if Normalize(h[j..]) == [] then [h[|h| - 1]] else Normalize(h[j..])
  {
    j := 0;
    if budget > 0 && h != [] {
      hide Tokens, TextTokens, Normalize;
      assert h[|h| - 1..] == [h[|h| - 1]];
      if Remaining(systemPrompt, budget) > 0 {
        j := FitStart(h, Remaining(systemPrompt, budget));
        TrimmedParts(h, systemPrompt, budget);
        LongestFromStops(h, Remaining(systemPrompt, budget), |h| - 1);
      }
    }
  }

  /** On any history the result is within the remaining budget or a single message. */
  lemma TrimmedFits(h: seq<Message>, systemPrompt: string, budget: int)
    requires h != [] && budget > 0
    ensures var r := Trimmed(h, systemPrompt, budget);
      |r| == 1 || (r != [] && Tokens(r) <= Remaining(systemPrompt, budget))
  {
    var rem := Remaining(systemPrompt, budget);
    if rem > 0 {
      var j := FitStart(h, rem);
      TrimmedParts(h, systemPrompt, budget);
      FitStartIsLongest(h, rem, j);
      KeepOnlyTokens(h[j..], OfferedIds(h[j..]), AnsweredIds(h[j..]));
    }
  }

  /** On a paired history: the longest suffix that fits, minus the leading replies whose call was cut; the
      last message alone if nothing else is left. */
  lemma TrimmedPaired(h: seq<Message>, systemPrompt: string, budget: int)
    requires Paired(h) && h != [] && Remaining(systemPrompt, budget) > 0
    ensures var j := NextBoundary(h, FitStart(h, Remaining(systemPrompt, budget)));
      Trimmed(h, systemPrompt, budget) == if j < |h| then h[j..] else h[|h| - 1..]
    ensures var j := NextBoundary(h, FitStart(h, Remaining(systemPrompt, budget)));
      j < |h| ==> Paired(h[j..])
  {
    TrimmedParts(h, systemPrompt, budget);
    NormalizeSuffix(h, FitStart(h, Remaining(systemPrompt, budget)));
  }

  lemma SingleBlock(h: seq<Message>)
    requires |h| == 1
    ensures Blocks(h) <==> Plain(h[0])
  {
    assert h[..1] == h && h[1..] == [];
    if Plain(h[0]) {
      assert Ids(h[0].toolCalls) == [] && ReplyIds(h[1..]) == [];
    }
  }

  lemma SinglePaired(h: seq<Message>)
    requires |h| == 1
    ensures Paired(h) <==> Plain(h[0])
  {
    SingleBlock(h);
    if Plain(h[0]) {
      RepliesHaveNoCalls(h);
    }
  }

  /** The result is paired except in one case, which is decided by the last block: it is a call with
      replies, and the block does not fit the budget as a whole. */
  lemma TrimmedPairedIff(h: seq<Message>, systemPrompt: string, budget: int)
    requires Paired(h) && h != [] && Remaining(systemPrompt, budget) > 0
    ensures Paired(Trimmed(h, systemPrompt, budget)) <==>
      || Plain(h[|h| - 1])
      || exists j :: 0 <= j < |h| && NextBoundary(h, j) == j && Tokens(h[j..]) <= Remaining(systemPrompt, budget)
  {
    var rem := Remaining(systemPrompt, budget);
    var f := FitStart(h, rem);
    var j := NextBoundary(h, f);
    TrimmedPaired(h, systemPrompt, budget);
    NextBoundaryFixed(h, f);
    if j < |h| {
      FitStartIsLongest(h, rem, j);
      assert Takes(h, rem, j);
      if Tokens(h[j..]) > rem {
        assert j == |h| - 1;
        LastBoundaryIsPlain(h);
      }
    } else {
      SinglePaired(h[|h| - 1..]);
      forall k | 0 <= k < |h| && NextBoundary(h, k) == k ensures Tokens(h[k..]) > rem {
        FitStartIsLongest(h, rem, k);
        if f <= k {
          NextBoundaryMonotone(h, f, k);
        }
      }
    }
  }

  lemma {:induction false} NextBoundaryMonotone(h: seq<Message>, i: nat, j: nat)
    requires Blocks(h) && i <= j <= |h|
    ensures NextBoundary(h, i) <= NextBoundary(h, j)
    decreases |h|
  {
    if i > 0 {
      var n := BlockLength(h[0]);
      if i >= n {
        NextBoundaryMonotone(h[n..], i - n, j - n);
      }
    }
  }

  /** A block of one message is plain. */
  lemma LastBoundaryIsPlain(h: seq<Message>)
    requires Blocks(h) && h != [] && NextBoundary(h, |h| - 1) == |h| - 1
    ensures Plain(h[|h| - 1])
  {
    hide Block, Blocks, NextBoundary, RepliesBetween;
    BoundarySplits(h, |h| - 1);
    var last := h[|h| - 1..];
    assert Blocks(last) && |last| == 1 && last[0] == h[|h| - 1];
    SingleBlock(last);
  }
}
