/** What a compaction summary says (internal/agent/compaction.go): its text spelled out, and that merging partial
    summaries reads their lines back. */
module SummaryText {
  import opened Text
  import opened Conversation
  import opened Compaction
  import opened Summaries

  // ---------------------------------------------------------------- the text

  /** Every line on a line of its own after a dash. */
  function Listed(lines: seq<string>): (r: string) {
    if lines == [] then "" else "- " + lines[0] + "\n" + Listed(lines[1..])
  }

  lemma {:induction false} ListedAppend(lines: seq<string>, line: string)
    ensures Listed(lines + [line]) == Listed(lines) + "- " + line + "\n"
  {
    if lines == [] {
      assert lines + [line] == [line] && [line][1..] == [];
      assert Listed([line]) == "- " + line + "\n" + "";
    } else {
      ListedAppend(lines[1..], line);
      assert (lines + [line])[1..] == lines[1..] + [line];
    }
  }

  lemma {:induction false} BulletsListed(lines: seq<string>)
    ensures Bullets(lines) == Listed(lines)
  {
    if lines != [] {
      var front, line := lines[..|lines| - 1], lines[|lines| - 1];
      BulletsListed(front);
      ListedAppend(front, line);
      assert lines == front + [line];
    }
  }

  /** A summary is the heading and its lines; if that is longer than four characters a token, it is cut and ends in
      three dots. */
  lemma RenderedTells(lines: seq<string>, target: int)
    requires target >= 1
    ensures var text := TrimSpace("Auto-generated conversation summary of earlier context:\n" + Listed(lines));
      Rendered(lines, target) ==
        if |text| <= 4 * target then text else TrimSpace(text[..4 * target - 3]) + "..."
  {
    BulletsListed(lines);
    hide TrimSpace, TrimToTarget, Bullets, Listed;
    CutToTarget(HEADER + Listed(lines), target);
  }

  lemma CutToTarget(s: string, target: int)
    requires target >= 1
    ensures var text := TrimSpace(s);
      TrimToTarget(text, target) ==
        if |text| <= 4 * target then text else TrimSpace(text[..4 * target - 3]) + "..."
  {
    TrimFixed(TrimSpace(s));
    hide TrimSpace;
  }

  // ---------------------------------------------------------------- which lines

  /** The length of a summary text without the white space around it. */
  function Length(lines: seq<string>): (n: nat) {
    |TrimSpace("Auto-generated conversation summary of earlier context:\n" + Listed(lines))|
  }

  function Filled(texts: seq<string>): (r: seq<string>) {
    if texts == [] then []
    else Filled(texts[..|texts| - 1]) + (if texts[|texts| - 1] == "" then [] else [texts[|texts| - 1]])
  }

  lemma {:induction false} LinesFilled(h: seq<Message>, line: Message -> string, given: seq<string>)
    requires |given| == |h| && forall k :: 0 <= k < |h| ==> given[k] == line(h[k])
    ensures Lines(h, line) == Filled(given)
  {
    if h != [] {
      LinesFilled(h[..|h| - 1], line, given[..|h| - 1]);
    }
  }

  predicate Shown(text: string) {
    text != ""
  }

  lemma {:induction false} FilledPicks(texts: seq<string>) returns (at: seq<nat>)
    ensures Ascending(at, |texts|) && |at| == |Filled(texts)|
    ensures forall i :: 0 <= i < |at| ==> Filled(texts)[i] == texts[at[i]]
    ensures forall k :: 0 <= k < |texts| ==> (k in at <==> Shown(texts[k]))
  {
    at := [];
    if texts != [] {
      var front, last := texts[..|texts| - 1], texts[|texts| - 1];
      assert Filled(texts) == Filled(front) + (if Shown(last) then [last] else []);
      hide Shown, Filled;
      at := FilledPicks(front);
      if Shown(last) {
        at := at + [|texts| - 1];
      }
    }
  }

  /** The lines of a history are those its messages give, in order, without the empty ones. */
  lemma LinesSelect(h: seq<Message>, line: Message -> string, given: seq<string>) returns (at: seq<nat>)
    requires |given| == |h| && forall k :: 0 <= k < |h| ==> given[k] == line(h[k])
    ensures Ascending(at, |h|) && |at| == |Lines(h, line)|
    ensures forall k :: 0 <= k < |h| ==> (k in at <==> given[k] != "")
    ensures forall i :: 0 <= i < |at| ==> Lines(h, line)[i] == given[at[i]]
  {
    LinesFilled(h, line, given);
    hide Lines, Filled;
    at := FilledPicks(given);
  }

  /** How many lines a chunk's summary has: at most 48 and no more than it has messages; it stops before the line at
      which the text has reached the target. */
  lemma PartialTells(chunk: seq<Message>, target: int, line: Message -> string, partial: string) returns (k: nat)
    requires IsPartial(chunk, target, line, partial)
    ensures k <= |Lines(chunk, line)| && partial == Rendered(Lines(chunk, line)[..k], target)
    ensures k <= 48
    ensures forall j :: 0 <= j < k ==> Length(Lines(chunk, line)[..j]) <= 4 * (target - 1)
    ensures k == 48 || k == |Lines(chunk, line)| || Length(Lines(chunk, line)[..k]) > 4 * (target - 1)
  {
    hide Rendered, Lines, TextTokens, Bullets, Length;
    LinesPrefix(chunk, |chunk|, line);
    var all, most := Lines(chunk, line), if |chunk| > MAX_CHUNK_LINES then MAX_CHUNK_LINES else |chunk|;
    k :| k <= |all| && partial == Rendered(all[..k], target) && Stops(all, k, most, target);
    assert k > 0 ==> |all[..k - 1]| < most;
    forall j | 0 <= j <= k
      ensures TextTokens(HEADER + Bullets(all[..j])) < target <==> Length(all[..j]) <= 4 * (target - 1)
    {
      BelowTarget(all[..j], target);
    }
  }

  lemma BelowTarget(lines: seq<string>, target: int)
    ensures TextTokens(HEADER + Bullets(lines)) < target <==> Length(lines) <= 4 * (target - 1)
  {
    BulletsListed(lines);
    hide Bullets, Listed, TrimSpace;
  }

  // ---------------------------------------------------------------- reading it back

  /** A line that white space around it or a line break would not change. */
  predicate OneLine(line: string) {
    line != "" && !IsSpace(line[0]) && !IsSpace(line[|line| - 1]) && '\n' !in line
  }

  predicate AllOneLine(lines: seq<string>) {
    forall i :: 0 <= i < |lines| ==> OneLine(lines[i])
  }

  /** The list without its last line break. */
  function Joined(lines: seq<string>): (r: string)
    requires lines != []
  {
    if |lines| == 1 then "- " + lines[0] else Joined(lines[..|lines| - 1]) + "\n" + ("- " + lines[|lines| - 1])
  }

  lemma SameEnd(a: string, b: string)
    requires b != ""
    ensures a + b != "" && (a + b)[|a + b| - 1] == b[|b| - 1]
  {
  }

  lemma {:induction false} BulletsJoined(lines: seq<string>)
    requires lines != [] && AllOneLine(lines)
    ensures Bullets(lines) == Joined(lines) + "\n"
    ensures Joined(lines) != "" && Joined(lines)[0] == '-'
    ensures Joined(lines)[|Joined(lines)| - 1] == lines[|lines| - 1][|lines[|lines| - 1]| - 1]
  {
    var front, last := lines[..|lines| - 1], lines[|lines| - 1];
    assert OneLine(last);
    SameEnd("- ", last);
    if |lines| > 1 {
      BulletsJoined(front);
      hide OneLine, AllOneLine, Bullets;
      SameEnd(Joined(front) + "\n", "- " + last);
      BulletsEnd(lines);
      assert Joined(lines) == Joined(front) + "\n" + ("- " + last);
    } else {
      assert front == [];
      assert Bullets(lines) == "" + "- " + last + "\n";
    }
  }

  lemma BulletsEnd(lines: seq<string>)
    requires lines != []
    ensures Bullets(lines) == Bullets(lines[..|lines| - 1]) + "- " + lines[|lines| - 1] + "\n"
  {
  }

  lemma {:induction false} SplitJoin(a: string, b: string)
    requires '\n' !in b
    ensures SplitLines(a + "\n" + b) == SplitLines(a) + [b]
    decreases |b|
  {
    var s := a + "\n" + b;
    if b == "" {
      assert s[..|s| - 1] == a;
    } else {
      SplitJoin(a, b[..|b| - 1]);
      assert s[..|s| - 1] == a + "\n" + b[..|b| - 1];
      assert s[|s| - 1] == b[|b| - 1] != '\n';
      assert b[..|b| - 1] + [b[|b| - 1]] == b;
    }
  }

  lemma {:induction false} SplitOne(b: string)
    requires '\n' !in b
    ensures SplitLines(b) == [b]
  {
    if b != "" {
      SplitOne(b[..|b| - 1]);
      assert b[..|b| - 1] + [b[|b| - 1]] == b;
    }
  }

  function Dashed(lines: seq<string>): (r: seq<string>) {
    seq(|lines|, i requires 0 <= i < |lines| => "- " + lines[i])
  }

  lemma {:induction false} SplitJoined(lines: seq<string>)
    requires lines != [] && AllOneLine(lines)
    ensures SplitLines(Joined(lines)) == Dashed(lines)
  {
    var front, last := lines[..|lines| - 1], lines[|lines| - 1];
    assert OneLine(last) && '\n' !in "- " + last;
    hide OneLine, SplitLines;
    if |lines| > 1 {
      SplitJoined(front);
      SplitJoin(Joined(front), "- " + last);
    } else {
      SplitOne("- " + last);
    }
    assert Dashed(lines) == Dashed(front) + ["- " + last];
  }

  lemma CleanDashed(line: string)
    requires OneLine(line)
    ensures CleanLine("- " + line) == line
  {
    assert ("- " + line)[2..] == line;
    TrimFixed(line);
  }

  lemma CleanLinesAppend(lines: seq<string>, line: string)
    ensures CleanLines(lines + [line]) == CleanLines(lines) + (if CleanLine(line) == "" then [] else [CleanLine(line)])
  {
    hide CleanLine;
    assert (lines + [line])[..|lines|] == lines;
  }

  lemma DashedAppend(lines: seq<string>)
    requires lines != []
    ensures Dashed(lines) == Dashed(lines[..|lines| - 1]) + ["- " + lines[|lines| - 1]]
  {
  }

  lemma {:induction false} CleanAllDashed(lines: seq<string>)
    requires AllOneLine(lines)
    ensures CleanLines(Dashed(lines)) == lines
  {
    if lines != [] {
      var front, last := lines[..|lines| - 1], lines[|lines| - 1];
      assert AllOneLine(front) && OneLine(last) && last != "";
      hide AllOneLine, OneLine, CleanLine, CleanLines, Dashed;
      CleanAllDashed(front);
      CleanDashed(last);
      DashedAppend(lines);
      CleanLinesAppend(Dashed(front), "- " + last);
    } else {
      assert Dashed(lines) == [];
    }
  }

  lemma TrimLastBreak(s: string)
    requires s != "" && !IsSpace(s[0]) && !IsSpace(s[|s| - 1])
    ensures TrimSpace(s + "\n") == s
  {
    var t := s + "\n";
    assert t[0] == s[0] && t[|t| - 1] == '\n';
    assert t[..|t| - 1] == s;
    assert TrimLeft(t) == t;
    assert TrimRight(t) == TrimRight(s) == s;
  }

  /** The whole text of some lines. */
  lemma WholeText(lines: seq<string>)
    requires lines != [] && AllOneLine(lines)
    ensures TrimSpace(HEADER + Bullets(lines)) == HEADER + Joined(lines)
    ensures TrimSpace(Joined(lines)) == Joined(lines) != ""
    ensures TrimSpace(HEADER + Joined(lines)) == HEADER + Joined(lines)
  {
    var last, joined := lines[|lines| - 1], Joined(lines);
    assert OneLine(last);
    BulletsJoined(lines);
    HeaderHead();
    hide Joined, Bullets, HEADER, OneLine, AllOneLine;
    SameEnd(HEADER, joined);
    assert (HEADER + joined)[0] == HEADER[0];
    assert HEADER + Bullets(lines) == (HEADER + joined) + "\n";
    hide TrimSpace;
    TrimLastBreak(HEADER + joined);
    TrimFixed(joined);
    TrimFixed(HEADER + joined);
  }

  /** Merging reads the lines of a summary that was not cut back as they were. Of one without lines the heading is left
      as if it were a line: it has lost the line break by which it would be told apart. */
  lemma ReadBack(lines: seq<string>, target: int)
    requires AllOneLine(lines)
    requires target >= 1 && Length(lines) <= 4 * target
    ensures lines != [] ==> BodyLines(Rendered(lines, target)) == lines
    ensures lines == [] ==> Body(Rendered(lines, target)) == "Auto-generated conversation summary of earlier context:"
  {
    RenderedTells(lines, target);
    BulletsListed(lines);
    if lines == [] {
      HeadingStays();
    } else {
      WholeText(lines);
      SplitJoined(lines);
      CleanAllDashed(lines);
      hide TrimSpace, SplitLines, CleanLines, Rendered, Bullets, Listed, Joined;
      var r := HEADER + Joined(lines);
      assert r[|HEADER|..] == Joined(lines);
    }
  }

  lemma HeadingStays()
    ensures Body(TrimSpace(HEADER + "")) == "Auto-generated conversation summary of earlier context:"
  {
    var line := "Auto-generated conversation summary of earlier context:";
    HeaderHead();
    assert HEADER == line + "\n";
    assert line[54] == ':';
    assert line[0] == HEADER[0];
    assert HEADER + "" == line + "\n";
    TrimLastBreak(line);
    TrimFixed(line);
    assert !(HEADER <= line);
  }

  /** All lines of several uncut partial summaries, in order, are what merging has to choose from. */
  lemma {:induction false} AllReadBack(each: seq<seq<string>>, target: int, partials: seq<string>)
    requires target >= 1 && |partials| == |each|
    requires forall i :: 0 <= i < |each| ==>
      && each[i] != [] && AllOneLine(each[i]) && Length(each[i]) <= 4 * target
      && partials[i] == Rendered(each[i], target)
    ensures MergedLines(partials) == Together(each)
  {
    hide BodyLines, Rendered, AllOneLine, Length;
    if each != [] {
      var n := |each| - 1;
      AllReadBack(each[..n], target, partials[..n]);
      ReadBack(each[n], target);
    }
  }

  function Together(each: seq<seq<string>>): (r: seq<string>) {
    if each == [] then [] else Together(each[..|each| - 1]) + each[|each| - 1]
  }

  /** A merge stops after the line with which the text reaches the target. */
  lemma MergeTells(partials: seq<string>, target: int, r: string) returns (k: nat)
    requires IsMerge(partials, target, r)
    ensures k <= |MergedLines(partials)| && r == Rendered(MergedLines(partials)[..k], target)
    ensures forall j :: 0 < j < k ==> Length(MergedLines(partials)[..j]) <= 4 * (target - 1)
    ensures k == |MergedLines(partials)| || (k > 0 && Length(MergedLines(partials)[..k]) > 4 * (target - 1))
  {
    hide Rendered, MergedLines, TextTokens, Bullets, Length;
    var all := MergedLines(partials);
    k :| k <= |all| && r == Rendered(all[..k], target) && StopsAfter(all, k, target);
    forall j | 0 <= j <= k
      ensures TextTokens(HEADER + Bullets(all[..j])) < target <==> Length(all[..j]) <= 4 * (target - 1)
    {
      BelowTarget(all[..j], target);
    }
  }

  // ---------------------------------------------------------------- the whole summary

  lemma NonEmptyCosts(h: seq<Message>)
    requires h != []
    ensures Tokens(h) >= 8
  {
  }

  /** How a head is summarised: in chunks, each a single message or within five sixths of the target less 256 tokens,
      each with an even share of the target or 48 tokens. */
  lemma SummaryTells(head: seq<Message>, target: int, line: Message -> string, summary: string)
    returns (chunks: seq<seq<Message>>, partials: seq<string>)
    requires target >= 1 && IsSummary(head, target, line, summary)
    ensures Flat(chunks) == head && NonEmpty(chunks) && |partials| == |chunks| > 0
    ensures forall i :: 0 <= i < |chunks| ==> |chunks[i]| == 1 || 6 * Tokens(chunks[i]) <= 5 * (target - 256)
    ensures forall i :: 0 <= i < |chunks| ==>
      IsPartial(chunks[i], if target / |chunks| > 48 then target / |chunks| else 48, line, partials[i])
    ensures if |partials| == 1 then summary == partials[0] else IsMerge(partials, target, summary)
  {
    hide IsPartial, IsMerge, Flat, Tokens;
    chunks, partials :| SummaryParts(head, target, line, summary, chunks, partials);
    forall i | 0 <= i < |chunks| ensures |chunks[i]| == 1 || 6 * Tokens(chunks[i]) <= 5 * (target - 256) {
      assert Fits(chunks[i], ChunkLimit(target));
      NonEmptyCosts(chunks[i]);
    }
  }
}
