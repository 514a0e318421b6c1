/** The text of a compaction summary (internal/agent/compaction.go): bullet lines cut to a token target. */
module Summaries {
  import opened Text
  import opened Conversation
  import opened Compaction

  const HEADER := "Auto-generated conversation summary of earlier context:\n"

  const MIN_CHUNK_TARGET := 48
  const MAX_CHUNK_LINES := 48
  const COMPACTION_OVERHEAD_TOKENS := 256

  function Max(a: int, b: int): int {
    if a > b then a else b
  }

  /** The lines as a bullet list. */
  function Bullets(lines: seq<string>): (r: string) {
    if lines == [] then "" else Bullets(lines[..|lines| - 1]) + "- " + lines[|lines| - 1] + "\n"
  }

  /** trimSummaryToTarget */
  function TrimToTarget(summary: string, target: int): (r: string) {
    if summary == "" || target <= 0 then summary
    else if TextTokens(summary) <= target then summary
    else if target * 4 > 3 && |summary| > target * 4 then TrimSpace(summary[..target * 4 - 3]) + "..."
    else summary
  }

  lemma TrimmedTokens(s: string)
    ensures |TrimSpace(s)| <= |s|
    ensures TextTokens(s) <= (|s| + 3) / 4
  {
  }

  lemma {:induction false} TrimRightKeepsHead(s: string)
    requires s != [] && !IsSpace(s[0])
    ensures TrimRight(s) != [] && TrimRight(s)[0] == s[0]
  {
    if |s| > 1 && IsSpace(s[|s| - 1]) {
      TrimRightKeepsHead(s[..|s| - 1]);
    }
  }

  /** A trimmed summary is at most `target` estimated tokens long, and is not blank if it was not. */
  lemma TrimToTargetBound(summary: string, target: int)
    requires target >= 1 && summary != [] && !IsSpace(summary[0])
    ensures TextTokens(TrimToTarget(summary, target)) <= target
    ensures TrimToTarget(summary, target) != [] && !IsSpace(TrimToTarget(summary, target)[0])
  {
    if TextTokens(summary) > target {
      TrimmedTokens(summary);
      var cut := summary[..target * 4 - 3];
      TrimRightKeepsHead(cut);
      TrimmedTokens(TrimSpace(cut) + "...");
      TrimmedTokens(cut);
    }
  }

  /** A list of lines as a summary of at most `target` tokens. */
  function Rendered(lines: seq<string>, target: int): (r: string) {
    TrimToTarget(TrimSpace(HEADER + Bullets(lines)), target)
  }

  lemma HeaderHead()
    ensures HEADER != "" && !IsSpace(HEADER[0])
  {
    assert "Auto-generated " <= HEADER;
  }

  lemma RenderedBound(lines: seq<string>, target: int)
    requires target >= 1
    ensures TextTokens(Rendered(lines, target)) <= target
    ensures Rendered(lines, target) != [] && !IsSpace(Rendered(lines, target)[0])
  {
    var s := HEADER + Bullets(lines);
    HeaderHead();
    assert s[0] == HEADER[0];
    TrimRightKeepsHead(s);
    TrimToTargetBound(TrimSpace(s), target);
  }

  /** No shorter prefix of the lines was enough. */
  predicate GoesOn(lines: seq<string>, k: nat, most: nat, target: int)
    requires k <= |lines|
  {
    forall j :: 0 <= j < k ==> j < most && TextTokens(HEADER + Bullets(lines[..j])) < target
  }

  /** The bullets are the longest prefix of `lines` allowed: all of them, or as many as `most`, or up to the
      first at which the text reaches the target. */
  predicate Stops(lines: seq<string>, k: nat, most: nat, target: int)
    requires k <= |lines|
  {
    && GoesOn(lines, k, most, target)
    && (k == |lines| || k >= most || TextTokens(HEADER + Bullets(lines[..k])) >= target)
  }

  // ---------------------------------------------------------------- one chunk

  /** The non-empty summary lines of a chunk, in order. */
  function Lines(h: seq<Message>, line: Message -> string): (r: seq<string>) {
    if h == [] then []
    else Lines(h[..|h| - 1], line) + (if line(h[|h| - 1]) == "" then [] else [line(h[|h| - 1])])
  }

  lemma {:induction false} LinesPrefix(h: seq<Message>, i: nat, line: Message -> string)
    requires i <= |h|
    ensures Lines(h[..i], line) <= Lines(h, line)
    ensures |Lines(h, line)| <= |h|
    decreases |h|
  {
    if h != [] {
      if i < |h| {
        LinesPrefix(h[..|h| - 1], i, line);
        assert h[..|h| - 1][..i] == h[..i];
      } else {
        LinesPrefix(h[..|h| - 1], |h| - 1, line);
        assert h[..i] == h;
      }
    }
  }

  lemma LinesEnds(h: seq<Message>, line: Message -> string)
    ensures Lines(h[..0], line) == [] && Lines(h[..|h|], line) == Lines(h, line) && |Lines(h, line)| <= |h|
  {
    assert h[..|h|] == h;
    LinesPrefix(h, |h|, line);
  }

  lemma LinesStep(h: seq<Message>, i: nat, line: Message -> string)
    requires i < |h|
    ensures Lines(h[..i + 1], line) == Lines(h[..i], line) + (if line(h[i]) == "" then [] else [line(h[i])])
  {
    assert h[..i + 1][..i] == h[..i];
  }

  lemma NoBullets()
    ensures Bullets([]) == ""
  {
  }

  lemma BulletsStep(lines: seq<string>, k: nat)
    requires k < |lines|
    ensures Bullets(lines[..k + 1]) == Bullets(lines[..k]) + "- " + lines[k] + "\n"
  {
    assert lines[..k + 1][..k] == lines[..k];
  }

  lemma GoesOnAtFirst(lines: seq<string>, most: nat, target: int)
    ensures GoesOn(lines, 0, most, target)
  {
  }

  lemma GoesOnNext(lines: seq<string>, k: nat, most: nat, target: int)
    requires k < |lines| && GoesOn(lines, k, most, target)
    requires k < most && TextTokens(HEADER + Bullets(lines[..k])) < target
    ensures GoesOn(lines, k + 1, most, target)
  {
    hide TextTokens, Bullets;
  }

  lemma AllCollected(h: seq<Message>, k: nat, line: Message -> string)
    requires k <= |Lines(h, line)| && Lines(h[..|h|], line) == Lines(h, line)[..k]
    ensures k == |Lines(h, line)|
  {
    assert h[..|h|] == h;
    assert |Lines(h, line)[..k]| == k;
  }

  lemma NextInLine(all: seq<string>, k: nat, longer: seq<string>, line: string)
    requires k <= |all| && longer <= all && longer == all[..k] + [line]
    ensures k < |all| && all[k] == line && all[..k + 1] == longer
  {
    assert longer[k] == line;
  }

  /** The summary of one chunk: a prefix of its lines, rendered. */
  ghost predicate IsPartial(chunk: seq<Message>, target: int, line: Message -> string, partial: string) {
    exists k: nat ::
      && k <= |Lines(chunk, line)| && partial == Rendered(Lines(chunk, line)[..k], target)
      && Stops(Lines(chunk, line), k, if |chunk| > MAX_CHUNK_LINES then MAX_CHUNK_LINES else |chunk|, target)
  }

  /** summarizeHistoryChunk: at most 48 of the chunk's lines, and none once the text is long enough. */
  method SummarizeHistoryChunk(history: seq<Message>, target: int, line: Message -> string) returns (r: string)
    requires history != []
    ensures IsPartial(history, target, line, r)
  {
    hide TextTokens, TrimToTarget, TrimSpace, Bullets, Lines, GoesOn;
    LinesEnds(history, line);
    NoBullets();
    var builder := HEADER;
    var maxLines := |history|;
    if maxLines > MAX_CHUNK_LINES {
      maxLines := MAX_CHUNK_LINES;
    }
    ghost var all := Lines(history, line);
    GoesOnAtFirst(all, maxLines, target);
    var lines: nat := 0;
    var i := 0;
    while i < |history|
      invariant 0 <= i <= |history|
      invariant lines <= |all| && Lines(history[..i], line) == all[..lines]
      invariant builder == HEADER + Bullets(all[..lines])
      invariant GoesOn(all, lines, maxLines, target)
    {
      if lines >= maxLines || TextTokens(builder) >= target {
        break;
      }
      LinesPrefix(history, i + 1, line);
      LinesStep(history, i, line);
      var text := line(history[i]);
      i := i + 1;
      if text == "" {
        continue;
      }
      NextInLine(all, lines, Lines(history[..i], line), text);
      BulletsStep(all, lines);
      GoesOnNext(all, lines, maxLines, target);
      builder := builder + "- ";
      builder := builder + text;
      builder := builder + "\n";
      lines := lines + 1;
    }
    if i == |history| {
      AllCollected(history, lines, line);
    }
    assert Stops(all, lines, maxLines, target);
    r := TrimToTarget(TrimSpace(builder), target);
    assert r == Rendered(all[..lines], target);
  }

  // ---------------------------------------------------------------- merging the summaries of several chunks

  /** strings.Split(s, "\n") */
  function SplitLines(s: string): (r: seq<string>)
    ensures r != []
  {
    if s == [] then [""]
    else
      var front := SplitLines(s[..|s| - 1]);
      if s[|s| - 1] == '\n' then front + [""]
      else front[..|front| - 1] + [front[|front| - 1] + [s[|s| - 1]]]
  }

  /** strings.TrimPrefix */
  function TrimPrefix(s: string, prefix: string): (r: string) {
    if prefix <= s then s[|prefix|..] else s
  }

  function Body(partial: string): (r: string) {
    TrimSpace(TrimPrefix(TrimSpace(partial), HEADER))
  }

  function CleanLine(line: string): (r: string) {
    TrimSpace(TrimPrefix(line, "- "))
  }

  function CleanLines(lines: seq<string>): (r: seq<string>) {
    if lines == [] then []
    else
      CleanLines(lines[..|lines| - 1])
      + (if CleanLine(lines[|lines| - 1]) == "" then [] else [CleanLine(lines[|lines| - 1])])
  }

  function BodyLines(partial: string): (r: seq<string>) {
    if Body(partial) == "" then [] else CleanLines(SplitLines(Body(partial)))
  }

  /** All lines of all partial summaries, in order. */
  function MergedLines(partials: seq<string>): (r: seq<string>) {
    if partials == [] then [] else MergedLines(partials[..|partials| - 1]) + BodyLines(partials[|partials| - 1])
  }

  /** Here the target is looked at after a line is added. */
  predicate StopsAfter(lines: seq<string>, k: nat, target: int)
    requires k <= |lines|
  {
    && (forall j :: 0 < j < k ==> TextTokens(HEADER + Bullets(lines[..j])) < target)
    && (k == |lines| || (k > 0 && TextTokens(HEADER + Bullets(lines[..k])) >= target))
  }

  lemma {:induction false} MergedLinesPrefix(partials: seq<string>, i: nat)
    requires i <= |partials|
    ensures MergedLines(partials[..i]) <= MergedLines(partials)
    decreases |partials|
  {
    hide BodyLines;
    if i < |partials| {
      MergedLinesPrefix(partials[..|partials| - 1], i);
      assert partials[..|partials| - 1][..i] == partials[..i];
    } else {
      assert partials[..i] == partials;
    }
  }

  lemma {:induction false} CleanLinesPrefix(lines: seq<string>, i: nat)
    requires i <= |lines|
    ensures CleanLines(lines[..i]) <= CleanLines(lines)
    decreases |lines|
  {
    hide CleanLine;
    if i < |lines| {
      CleanLinesPrefix(lines[..|lines| - 1], i);
      assert lines[..|lines| - 1][..i] == lines[..i];
    } else {
      assert lines[..i] == lines;
    }
  }

  lemma NoCleanLines(lines: seq<string>)
    ensures CleanLines(lines[..0]) == [] && CleanLines(lines[..|lines|]) == CleanLines(lines)
  {
    assert lines[..|lines|] == lines;
  }

  lemma CleanLinesStep(lines: seq<string>, i: nat)
    requires i < |lines|
    ensures CleanLines(lines[..i + 1]) ==
      CleanLines(lines[..i]) + (if CleanLine(lines[i]) == "" then [] else [CleanLine(lines[i])])
  {
    assert lines[..i + 1][..i] == lines[..i];
  }

  lemma AppendPrefix(a: seq<string>, b: seq<string>, c: seq<string>, all: seq<string>)
    requires b <= c && a + c <= all
    ensures a + b <= all
  {
  }

  lemma MergedLinesStep(partials: seq<string>, i: nat)
    requires i < |partials|
    ensures MergedLines(partials[..i + 1]) == MergedLines(partials[..i]) + BodyLines(partials[i])
  {
    assert partials[..i + 1][..i] == partials[..i];
  }

  /** The inner loop of mergePartialSummaries over the lines of one partial summary; `full` reports that the
      target was reached. */
  method MergeLines(built: string, raw: seq<string>, target: int, ghost all: seq<string>, ghost k0: nat)
    returns (builder: string, full: bool, ghost k: nat)
    requires k0 <= |all| && all[..k0] + CleanLines(raw) <= all
    requires built == HEADER + Bullets(all[..k0])
    requires forall j :: 0 < j <= k0 ==> TextTokens(HEADER + Bullets(all[..j])) < target
    ensures k0 <= k <= |all| && builder == HEADER + Bullets(all[..k])
    ensures forall j :: 0 < j < k ==> TextTokens(HEADER + Bullets(all[..j])) < target
    ensures full ==> k > 0 && TextTokens(builder) >= target
    ensures !full ==> all[..k] == all[..k0] + CleanLines(raw)
    ensures !full && k > 0 ==> TextTokens(builder) < target
  {
    hide TextTokens, CleanLine, CleanLines, Bullets;
    NoCleanLines(raw);
    builder, full, k := built, false, k0;
    for i := 0 to |raw|
      invariant !full && k0 <= k <= |all| && builder == HEADER + Bullets(all[..k])
      invariant all[..k] == all[..k0] + CleanLines(raw[..i])
      invariant forall j :: 0 < j <= k ==> TextTokens(HEADER + Bullets(all[..j])) < target
    {
      CleanLinesPrefix(raw, i + 1);
      AppendPrefix(all[..k0], CleanLines(raw[..i + 1]), CleanLines(raw), all);
      CleanLinesStep(raw, i);
      var line := CleanLine(raw[i]);
      if line == "" {
        continue;
      }
      NextInLine(all, k, all[..k0] + CleanLines(raw[..i + 1]), line);
      BulletsStep(all, k);
      builder := builder + "- ";
      builder := builder + line;
      builder := builder + "\n";
      k := k + 1;
      if TextTokens(builder) >= target {
        full := true;
        return;
      }
    }
  }

  /** The merge: a prefix of the lines of all partial summaries, rendered. */
  ghost predicate IsMerge(partials: seq<string>, target: int, r: string) {
    exists k: nat ::
      && k <= |MergedLines(partials)| && r == Rendered(MergedLines(partials)[..k], target)
      && StopsAfter(MergedLines(partials), k, target)
  }

  /** mergePartialSummaries: the lines of all partial summaries in order, cut when the text is long enough. */
  method MergePartialSummaries(partials: seq<string>, target: int) returns (r: string)
    ensures IsMerge(partials, target, r)
  {
    hide TextTokens, TrimToTarget, TrimSpace, CleanLines, MergedLines;
    ghost var all := MergedLines(partials);
    NoMergedLines();
    assert partials[..0] == [];
    var builder := HEADER;
    ghost var k: nat := 0;
    for i := 0 to |partials|
      invariant k <= |all| && all[..k] == MergedLines(partials[..i])
      invariant builder == HEADER + Bullets(all[..k])
      invariant forall j :: 0 < j <= k ==> TextTokens(HEADER + Bullets(all[..j])) < target
    {
      MergedLinesStep(partials, i);
      MergedLinesPrefix(partials, i + 1);
      var trimmed := Body(partials[i]);
      if trimmed == "" {
        continue;
      }
      var full;
      builder, full, k := MergeLines(builder, SplitLines(trimmed), target, all, k);
      if full {
        r := TrimToTarget(TrimSpace(builder), target);
        assert StopsAfter(all, k, target) && r == Rendered(all[..k], target);
        return;
      }
    }
    assert partials[..|partials|] == partials;
    assert all[..k] == all;
    r := TrimToTarget(TrimSpace(builder), target);
    assert StopsAfter(all, k, target) && r == Rendered(all[..k], target);
  }

  lemma NoMergedLines()
    ensures MergedLines([]) == []
  {
  }

  // ---------------------------------------------------------------- the whole summary

  function ChunkLimit(target: int): (r: int) {
    EffectiveMax(Max(1, target - COMPACTION_OVERHEAD_TOKENS))
  }

  /** What each chunk may contribute when there are n of them. */
  function ChunkTarget(target: int, n: nat): (r: int)
    requires n > 0
    ensures r >= MIN_CHUNK_TARGET
  {
    Max(MIN_CHUNK_TARGET, target / n)
  }

  /** summarizeHistoryAdaptive: the head in chunks, each summarised, the summaries merged. */
  ghost predicate IsSummary(head: seq<Message>, target: int, line: Message -> string, summary: string) {
    exists chunks: seq<seq<Message>>, partials: seq<string> ::
      SummaryParts(head, target, line, summary, chunks, partials)
  }

  ghost predicate SummaryParts(head: seq<Message>, target: int, line: Message -> string, summary: string,
                               chunks: seq<seq<Message>>, partials: seq<string>) {
    && chunks != [] && Flat(chunks) == head && NonEmpty(chunks)
    && (forall i :: 0 <= i < |chunks| ==> Fits(chunks[i], ChunkLimit(target)))
    && ChunksSummarised(chunks, target, line, summary, partials)
  }

  /** One partial summary a chunk, merged unless there is only one. */
  ghost predicate ChunksSummarised(chunks: seq<seq<Message>>, target: int, line: Message -> string, summary: string,
                                   partials: seq<string>) {
    && |partials| == |chunks| > 0
    && (forall i :: 0 <= i < |chunks| ==> IsPartial(chunks[i], ChunkTarget(target, |chunks|), line, partials[i]))
    && if |partials| == 1 then summary == partials[0] else IsMerge(partials, target, summary)
  }

  lemma FlatConcat(a: seq<seq<Message>>, b: seq<seq<Message>>)
    ensures Flat(a + b) == Flat(a) + Flat(b)
  {
    if b == [] {
      assert a + b == a;
    } else {
      assert (a + b)[..|a + b| - 1] == a + b[..|b| - 1];
      FlatConcat(a, b[..|b| - 1]);
    }
  }

  /** The split into parts and of each part into chunks. */
  method BuildChunks(history: seq<Message>, target: int, parts: int) returns (chunks: seq<seq<Message>>)
    requires history != []
    ensures chunks != [] && Flat(chunks) == history && NonEmpty(chunks)
    ensures forall i :: 0 <= i < |chunks| ==> Fits(chunks[i], ChunkLimit(target))
  {
    hide Fits, Greedy, Flat, Tokens;
    NoChunks(1);
    var shares := SplitMessagesByTokenShare(history, parts);
    chunks := [];
    assert shares[..0] == [];
    for i := 0 to |shares|
      invariant Flat(chunks) == Flat(shares[..i]) && NonEmpty(chunks)
      invariant forall j :: 0 <= j < |chunks| ==> Fits(chunks[j], ChunkLimit(target))
    {
      var more := ChunkMessagesByMaxTokens(shares[i], Max(1, target - COMPACTION_OVERHEAD_TOKENS));
      FlatConcat(chunks, more);
      assert shares[..i + 1] == shares[..i] + [shares[i]];
      FlatAppend(shares[..i], shares[i]);
      chunks := chunks + more;
    }
    assert shares[..|shares|] == shares;
  }

  method SummarizeHistoryAdaptive(history: seq<Message>, target: int, parts: int, line: Message -> string)
    returns (summary: string)
    ensures history == [] || target <= 0 ==> summary == ""
    ensures history != [] && target > 0 ==> IsSummary(history, target, line, summary)
  {
    if |history| == 0 || target <= 0 {
      return "";
    }
    hide IsPartial, IsMerge, Fits, Flat, NonEmpty;
    var chunks := BuildChunks(history, target, parts);
    summary := SummarizeChunks(chunks, target, line);
    ghost var partials: seq<string> :| ChunksSummarised(chunks, target, line, summary, partials);
    assert SummaryParts(history, target, line, summary, chunks, partials);
  }

  method SummarizeChunks(chunks: seq<seq<Message>>, target: int, line: Message -> string) returns (summary: string)
    requires chunks != [] && NonEmpty(chunks)
    ensures exists partials: seq<string> :: ChunksSummarised(chunks, target, line, summary, partials)
  {
    hide IsPartial, IsMerge, TrimSpace;
    var partials: seq<string> := [];
    var perChunkTarget := ChunkTarget(target, |chunks|);
    for i := 0 to |chunks|
      invariant |partials| == i
      invariant forall j :: 0 <= j < i ==> IsPartial(chunks[j], perChunkTarget, line, partials[j])
    {
      var partial := SummarizeHistoryChunk(chunks[i], perChunkTarget, line);
      PartialIsNotBlank(chunks[i], perChunkTarget, line, partial);
      if TrimSpace(partial) != "" {
        partials := partials + [partial];
      }
    }
    if |partials| == 1 {
      summary := partials[0];
    } else {
      summary := MergePartialSummaries(partials, target);
    }
    assert ChunksSummarised(chunks, target, line, summary, partials);
  }

  lemma PartialIsNotBlank(chunk: seq<Message>, target: int, line: Message -> string, partial: string)
    requires target >= 1 && IsPartial(chunk, target, line, partial)
    ensures TextTokens(partial) <= target && TrimSpace(partial) != ""
  {
    hide Stops, Rendered, Lines;
    var k: nat :| k <= |Lines(chunk, line)| && partial == Rendered(Lines(chunk, line)[..k], target);
    RenderedBound(Lines(chunk, line)[..k], target);
    TrimEmptyIffBlank(partial);
  }

  lemma MergeIsNotBlank(partials: seq<string>, target: int, r: string)
    requires target >= 1 && IsMerge(partials, target, r)
    ensures TextTokens(r) <= target && TrimSpace(r) != ""
  {
    hide StopsAfter, Rendered, MergedLines;
    var k: nat :| k <= |MergedLines(partials)| && r == Rendered(MergedLines(partials)[..k], target);
    RenderedBound(MergedLines(partials)[..k], target);
    TrimEmptyIffBlank(r);
  }

  /** Every summary of a non-empty head is at most max(48, target) estimated tokens long and is not blank. */
  lemma SummaryBound(head: seq<Message>, target: int, line: Message -> string, summary: string)
    requires target >= 1 && IsSummary(head, target, line, summary)
    ensures TextTokens(summary) <= Max(MIN_CHUNK_TARGET, target)
    ensures TrimSpace(summary) != ""
  {
    hide IsPartial, IsMerge, TextTokens, TrimSpace, Flat, NonEmpty, Fits;
    var chunks: seq<seq<Message>>, partials: seq<string> :| SummaryParts(head, target, line, summary, chunks, partials);
    if |partials| == 1 {
      assert IsPartial(chunks[0], ChunkTarget(target, |chunks|), line, partials[0]);
      PartialIsNotBlank(chunks[0], ChunkTarget(target, |chunks|), line, summary);
    } else {
      MergeIsNotBlank(partials, target, summary);
    }
  }
}
