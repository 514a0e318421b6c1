/** Splitting a reply into Discord messages of at most 2000 runes (internal/discordbot/messages.go). */
module DiscordSplitter {
  import opened Text

  const DISCORD_MESSAGE_LIMIT := 2000

  const PREFERRED := ["\n\n", "\n", ". ", "! ", "? ", " ", ", "]

  /** strings.LastIndex in runes. */
  function LastIndex(s: string, token: string, from: nat): (r: int)
    ensures -1 <= r <= from
    ensures r >= 0 ==> At(s, token, r)
    ensures forall j :: r < j <= from ==> !At(s, token, j)
  {
    if At(s, token, from) then from else if from == 0 then -1 else LastIndex(s, token, from - 1)
  }

  /** The place right after the last occurrence of the token, unless there is none or it stands at the front. */
  function Candidate(prefix: string, token: string): (r: nat)
    ensures r <= |prefix|
  {
    var idx := LastIndex(prefix, token, |prefix|);
    if idx <= 0 then 0 else idx + |token|
  }

  /** The candidate of the first preferred token that falls in the back half, else the latest candidate of all. */
  ghost predicate IsSplitPoint(prefix: string, r: nat) {
    || (exists i :: 0 <= i < |PREFERRED| && FirstLate(prefix, i) && r == Candidate(prefix, PREFERRED[i]))
    || (AllEarly(prefix, |PREFERRED|) && IsLatest(prefix, |PREFERRED|, r))
  }

  ghost predicate AllEarly(prefix: string, n: nat)
    requires n <= |PREFERRED|
  {
    forall j :: 0 <= j < n ==> Candidate(prefix, PREFERRED[j]) < DISCORD_MESSAGE_LIMIT / 2
  }

  ghost predicate FirstLate(prefix: string, i: nat)
    requires i < |PREFERRED|
  {
    AllEarly(prefix, i) && Candidate(prefix, PREFERRED[i]) >= DISCORD_MESSAGE_LIMIT / 2
  }

  ghost predicate IsLatest(prefix: string, n: nat, r: nat)
    requires n <= |PREFERRED|
  {
    && (r == 0 || exists j :: 0 <= j < n && r == Candidate(prefix, PREFERRED[j]))
    && (forall j :: 0 <= j < n ==> Candidate(prefix, PREFERRED[j]) <= r)
  }

  method FindSplitPoint(prefix: string) returns (r: nat)
    ensures IsSplitPoint(prefix, r)
    ensures r <= |prefix|
  {
    hide Candidate;
    var best := 0;
    for k := 0 to |PREFERRED|
      invariant AllEarly(prefix, k) && IsLatest(prefix, k, best) && best <= |prefix|
    {
      var token := PREFERRED[k];
      var idx := LastIndex(prefix, token, |prefix|);
      CandidateIs(prefix, token);
      if idx <= 0 {
        continue;
      }
      var candidate := idx + |token|;
      if candidate >= DISCORD_MESSAGE_LIMIT / 2 {
        assert FirstLate(prefix, k);
        return candidate;
      }
      if candidate > best {
        best := candidate;
      }
    }
    return best;
  }

  lemma CandidateIs(prefix: string, token: string)
    ensures Candidate(prefix, token) ==
      var idx := LastIndex(prefix, token, |prefix|);
      if idx <= 0 then 0 else idx + |token|
  {
  }

  /** There is one split point only. */
  lemma SplitPointUnique(prefix: string, a: nat, b: nat)
    requires IsSplitPoint(prefix, a) && IsSplitPoint(prefix, b)
    ensures a == b
  {
    hide Candidate;
  }

  /** A message Discord takes: not empty, within the limit, no white space around it. */
  predicate Sendable(part: string) {
    0 < |part| <= DISCORD_MESSAGE_LIMIT && !IsSpace(part[0]) && !IsSpace(part[|part| - 1])
  }

  /** The text cut at one place: what goes out and what is left. */
  lemma CutKeeps(runes: string, cut: nat)
    requires 0 < cut <= DISCORD_MESSAGE_LIMIT && cut < |runes|
    requires !IsSpace(runes[0]) && !IsSpace(runes[|runes| - 1])
    ensures Sendable(TrimSpace(runes[..cut]))
    ensures TrimSpace(runes[cut..]) != "" && |TrimSpace(runes[cut..])| < |runes|
    ensures Solid(TrimSpace(runes[..cut])) + Solid(TrimSpace(runes[cut..])) == Solid(runes)
  {
    hide TrimSpace, Solid, IsSpace;
    assert runes == runes[..cut] + runes[cut..];
    SolidConcat(runes[..cut], runes[cut..]);
    SolidTrim(runes[..cut]);
    SolidTrim(runes[cut..]);
    TrimEmptyIffBlank(runes[..cut]);
    TrimEmptyIffBlank(runes[cut..]);
    assert runes[..cut][0] == runes[0] && runes[cut..][|runes| - cut - 1] == runes[|runes| - 1];
  }

  /** The place of one cut in a text over the limit; no split point means the limit itself. */
  ghost predicate IsCut(runes: string, cut: nat)
    requires |runes| > DISCORD_MESSAGE_LIMIT
  {
    exists r: nat :: IsSplitPoint(runes[..DISCORD_MESSAGE_LIMIT], r)
      && cut == if r == 0 then DISCORD_MESSAGE_LIMIT else r
  }

  /** What the splitter makes of a trimmed text: cut by cut until the rest is within the limit. */
  ghost predicate SplitInto(runes: string, parts: seq<string>)
    decreases |parts|
  {
    if runes == "" then parts == []
    else if |runes| <= DISCORD_MESSAGE_LIMIT then parts == [TrimSpace(runes)]
    else
      && parts != []
      && exists cut: nat ::
        && cut <= |runes| && IsCut(runes, cut)
        && parts[0] == TrimSpace(runes[..cut])
        && SplitInto(TrimSpace(runes[cut..]), parts[1..])
  }

  predicate Trimmed(s: string) {
    s == "" || (!IsSpace(s[0]) && !IsSpace(s[|s| - 1]))
  }

  lemma CutInRange(runes: string, cut: nat)
    requires |runes| > DISCORD_MESSAGE_LIMIT && IsCut(runes, cut)
    ensures 0 < cut <= DISCORD_MESSAGE_LIMIT
  {
    hide Candidate;
  }

  lemma OneSendable(runes: string)
    requires Trimmed(runes) && 0 < |runes| <= DISCORD_MESSAGE_LIMIT
    ensures Sendable(TrimSpace(runes))
  {
    TrimFixed(runes);
  }

  /** Every part can be sent. */
  lemma {:induction false} PartsSendable(runes: string, parts: seq<string>)
    requires Trimmed(runes) && SplitInto(runes, parts)
    ensures forall i :: 0 <= i < |parts| ==> Sendable(parts[i])
    ensures parts == [] <==> runes == ""
    decreases |parts|
  {
    hide TrimSpace, IsSpace, IsCut, Sendable;
    if 0 < |runes| <= DISCORD_MESSAGE_LIMIT {
      OneSendable(runes);
    } else if |runes| > DISCORD_MESSAGE_LIMIT {
      var cut: nat :| cut <= |runes| && IsCut(runes, cut)
                    && parts[0] == TrimSpace(runes[..cut])
                    && SplitInto(TrimSpace(runes[cut..]), parts[1..]);
      CutInRange(runes, cut);
      CutKeeps(runes, cut);
      PartsSendable(TrimSpace(runes[cut..]), parts[1..]);
    }
  }

  /** Nothing but white space is lost, and nothing is reordered. */
  lemma {:induction false} PartsKeepText(runes: string, parts: seq<string>)
    requires Trimmed(runes) && SplitInto(runes, parts)
    ensures Solid(Concat(parts)) == Solid(runes)
    decreases |parts|
  {
    hide TrimSpace, IsSpace, IsCut;
    if runes == "" {
    } else if |runes| <= DISCORD_MESSAGE_LIMIT {
      TrimFixed(runes);
      ConcatCons(runes, []);
      assert [runes] + [] == parts && runes + "" == runes;
    } else {
      var cut: nat :| cut <= |runes| && IsCut(runes, cut)
                    && parts[0] == TrimSpace(runes[..cut])
                    && SplitInto(TrimSpace(runes[cut..]), parts[1..]);
      CutInRange(runes, cut);
      CutKeeps(runes, cut);
      PartsKeepText(TrimSpace(runes[cut..]), parts[1..]);
      ConcatCons(parts[0], parts[1..]);
      SolidConcat(parts[0], Concat(parts[1..]));
      assert parts == [parts[0]] + parts[1..];
    }
  }

  /** The text determines the parts. */
  lemma {:induction false} PartsUnique(runes: string, a: seq<string>, b: seq<string>)
    requires SplitInto(runes, a) && SplitInto(runes, b)
    ensures a == b
    decreases |a|
  {
    hide TrimSpace, IsSplitPoint;
    if |runes| > DISCORD_MESSAGE_LIMIT {
      var i: nat :| i <= |runes| && IsCut(runes, i) && a[0] == TrimSpace(runes[..i])
        && SplitInto(TrimSpace(runes[i..]), a[1..]);
      var j: nat :| j <= |runes| && IsCut(runes, j) && b[0] == TrimSpace(runes[..j])
        && SplitInto(TrimSpace(runes[j..]), b[1..]);
      CutUnique(runes, i, j);
      PartsUnique(TrimSpace(runes[i..]), a[1..], b[1..]);
      assert a == [a[0]] + a[1..] && b == [b[0]] + b[1..];
    }
  }

  lemma CutUnique(runes: string, a: nat, b: nat)
    requires |runes| > DISCORD_MESSAGE_LIMIT && IsCut(runes, a) && IsCut(runes, b)
    ensures a == b
  {
    hide IsSplitPoint;
    var prefix := runes[..DISCORD_MESSAGE_LIMIT];
    var r: nat :| IsSplitPoint(prefix, r) && a == if r == 0 then DISCORD_MESSAGE_LIMIT else r;
    var q: nat :| IsSplitPoint(prefix, q) && b == if q == 0 then DISCORD_MESSAGE_LIMIT else q;
    SplitPointUnique(prefix, r, q);
  }

  method SplitDiscordSized(text: string) returns (parts: seq<string>)
    ensures SplitInto(TrimSpace(text), parts)
    ensures forall i :: 0 <= i < |parts| ==> Sendable(parts[i])
    ensures Solid(Concat(parts)) == Solid(text)
    ensures parts == [] <==> Blank(text)
  {
    var trimmed := TrimSpace(text);
    assert Trimmed(trimmed);
    TrimFixed(trimmed);
    SolidTrim(text);
    TrimEmptyIffBlank(text);
    hide TrimSpace, IsSpace, Solid, Sendable, Blank;
    if trimmed == "" {
      parts := [];
    } else if |trimmed| <= DISCORD_MESSAGE_LIMIT {
      parts := [trimmed];
    } else {
      parts := SplitLong(trimmed);
    }
    PartsSendable(trimmed, parts);
    PartsKeepText(trimmed, parts);
  }

  lemma SplitIntoEnd(runes: string)
    requires |runes| <= DISCORD_MESSAGE_LIMIT
    ensures SplitInto(runes, if runes == "" then [] else [TrimSpace(runes)])
  {
  }

  method SplitLong(trimmed: string) returns (parts: seq<string>)
    requires Trimmed(trimmed)
    ensures SplitInto(trimmed, parts)
  {
    hide TrimSpace, IsSpace, IsSplitPoint, SplitInto;
    parts := [];
    var runes := trimmed;
    assert forall tail: seq<string> :: parts + tail == tail;
    while |runes| > 0
      invariant Trimmed(runes)
      invariant forall tail :: SplitInto(runes, tail) ==> SplitInto(trimmed, parts + tail)
      decreases |runes|
    {
      if |runes| <= DISCORD_MESSAGE_LIMIT {
        SplitIntoEnd(runes);
        parts := parts + [TrimSpace(runes)];
        return;
      }
      var cut := FindSplitPoint(runes[..DISCORD_MESSAGE_LIMIT]);
      if cut <= 0 || cut > DISCORD_MESSAGE_LIMIT {
        cut := DISCORD_MESSAGE_LIMIT;
      }
      assert IsCut(runes, cut);
      hide IsCut;
      CutKeeps(runes, cut);
      ghost var before := parts;
      parts := parts + [TrimSpace(runes[..cut])];
      forall tail | SplitInto(TrimSpace(runes[cut..]), tail) ensures SplitInto(trimmed, parts + tail) {
        SplitIntoCons(runes, cut, tail);
        assert before + ([TrimSpace(runes[..cut])] + tail) == parts + tail;
      }
      runes := TrimSpace(runes[cut..]);
    }
    SplitIntoEnd(runes);
    assert parts + [] == parts;
  }

  lemma SplitIntoCons(runes: string, cut: nat, tail: seq<string>)
    requires |runes| > DISCORD_MESSAGE_LIMIT && cut <= |runes| && IsCut(runes, cut)
    requires SplitInto(TrimSpace(runes[cut..]), tail)
    ensures SplitInto(runes, [TrimSpace(runes[..cut])] + tail)
  {
    hide TrimSpace, IsCut;
    assert ([TrimSpace(runes[..cut])] + tail)[1..] == tail;
  }

  // ---------------------------------------------------------------- the cuts spelled out

  /** `r` is where the last occurrence of the token ends, one at the very front not counted; 0 if there is none. */
  ghost predicate EndsLast(prefix: string, token: string, r: nat) {
    if r == 0 then forall i :: 0 < i ==> !At(prefix, token, i)
    else
      && |token| < r && At(prefix, token, r - |token|)
      && forall i :: r - |token| < i ==> !At(prefix, token, i)
  }

  lemma CandidateEndsLast(prefix: string, token: string)
    ensures EndsLast(prefix, token, Candidate(prefix, token))
  {
    var idx := LastIndex(prefix, token, |prefix|);
    hide LastIndex;
    if idx > 0 {
      assert At(prefix, token, idx);
    }
  }

  /** The first of these tokens that ends late decides, else the one that ends last. */
  ghost predicate Decides(ends: seq<nat>, r: nat) {
    || (exists i :: 0 <= i < |ends| && ends[i] >= 1000 && r == ends[i] && forall j :: 0 <= j < i ==> ends[j] < 1000)
    || (&& (forall j :: 0 <= j < |ends| ==> ends[j] < 1000 && ends[j] <= r)
        && (r == 0 || exists j :: 0 <= j < |ends| && r == ends[j]))
  }

  lemma SplitPointTells(prefix: string, r: nat) returns (ends: seq<nat>)
    requires IsSplitPoint(prefix, r)
    ensures |ends| == 7 && Decides(ends, r)
    ensures EndsLast(prefix, "\n\n", ends[0]) && EndsLast(prefix, "\n", ends[1])
    ensures EndsLast(prefix, ". ", ends[2]) && EndsLast(prefix, "! ", ends[3]) && EndsLast(prefix, "? ", ends[4])
    ensures EndsLast(prefix, " ", ends[5]) && EndsLast(prefix, ", ", ends[6])
  {
    hide Candidate, EndsLast;
    ends := seq(|PREFERRED|, i requires 0 <= i < |PREFERRED| => Candidate(prefix, PREFERRED[i]));
    forall i | 0 <= i < |PREFERRED| ensures EndsLast(prefix, PREFERRED[i], ends[i]) {
      CandidateEndsLast(prefix, PREFERRED[i]);
    }
  }

  /** How a text is cut: what is over 2000 runes gives up a piece at its split point, or of 2000 runes if it has
      none. */
  lemma PartsTell(runes: string, parts: seq<string>) returns (cut: nat)
    requires SplitInto(runes, parts)
    ensures runes == "" ==> parts == []
    ensures 0 < |runes| <= 2000 ==> parts == [TrimSpace(runes)]
    ensures |runes| > 2000 ==>
      && 0 < cut <= 2000 && (IsSplitPoint(runes[..2000], cut) || (cut == 2000 && IsSplitPoint(runes[..2000], 0)))
      && parts != [] && parts[0] == TrimSpace(runes[..cut]) && SplitInto(TrimSpace(runes[cut..]), parts[1..])
  {
    hide TrimSpace, IsSplitPoint;
    cut := 0;
    if |runes| > 2000 {
      cut :| cut <= |runes| && IsCut(runes, cut) && parts[0] == TrimSpace(runes[..cut])
        && SplitInto(TrimSpace(runes[cut..]), parts[1..]);
      CutInRange(runes, cut);
    }
  }
}
