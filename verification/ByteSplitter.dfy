/** Splitting a long text by UTF-8 bytes, as Messenger (internal/messenger/messenger.go) and WhatsApp
    (internal/whatsapp/text.go) do, each part under a "[part i/n]" label. A string is its runes. */
module ByteSplitter {
  import opened Options
  import opened Text
  import opened Decimals

  lemma BytesPrefix(s: string, a: nat, b: nat)
    requires a <= b <= |s|
    ensures ByteLen(s[..a]) <= ByteLen(s[..b])
  {
    BytesSplit(s[..b], a);
    assert s[..b][..a] == s[..a];
  }

  lemma BytesNext(s: string, n: nat)
    requires n < |s|
    ensures ByteLen(s[..n + 1]) == ByteLen(s[..n]) + RuneLen(s[n])
  {
    assert s[..n + 1] == s[..n] + [s[n]];
    BytesConcat(s[..n], [s[n]]);
  }

  lemma {:induction false} RuneInBytes(s: string, c: char)
    requires c in s
    ensures RuneLen(c) <= ByteLen(s)
  {
    if s[0] != c {
      RuneInBytes(s[1..], c);
    }
  }

  lemma {:induction false} BytesTrimLeft(s: string)
    ensures ByteLen(TrimLeft(s)) <= ByteLen(s)
  {
    if s != "" && IsSpace(s[0]) {
      BytesTrimLeft(s[1..]);
    }
  }

  lemma BytesTrim(s: string)
    ensures ByteLen(TrimSpace(s)) <= ByteLen(s)
  {
    hide IsSpace;
    BytesTrimLeft(s);
    BytesSplit(TrimLeft(s), |TrimSpace(s)|);
  }

  lemma {:induction false} SolidIsPart(s: string, c: char)
    requires c in Solid(s)
    ensures c in s
  {
    if IsSpace(s[0]) || c != s[0] {
      SolidIsPart(s[1..], c);
    }
  }

  // ---------------------------------------------------------------- one cut

  /** How many leading runes fit: all of them, or as many as leave no room for the next. */
  function FitCut(runes: string, max: int): (cut: nat)
    ensures cut <= |runes|
    ensures cut > 0 ==> ByteLen(runes[..cut]) <= max
    ensures cut < |runes| ==> ByteLen(runes[..cut + 1]) > max
  {
    if runes == "" || RuneLen(runes[0]) > max then
      assert runes != "" ==> runes[..1] == [runes[0]];
      0
    else
      var rest := FitCut(runes[1..], max - RuneLen(runes[0]));
      assert runes[..rest + 1][1..] == runes[1..][..rest];
      assert rest + 1 < |runes| ==> runes[..rest + 2][1..] == runes[1..][..rest + 1];
      rest + 1
  }

  predicate IsBreak(c: char) {
    c == '\n' || c == ' '
  }

  /** The cut right after the last break of the window's back half, or the cut itself if that half has none. */
  function BackCut(runes: string, cut: nat, i: int): (r: nat)
    requires -1 <= i < cut <= |runes| || i == -1
    requires cut <= |runes|
    ensures r == cut || (cut / 2 < r - 1 <= i && IsBreak(runes[r - 1]))
    ensures forall j :: cut / 2 < j <= i && IsBreak(runes[j]) ==> j < r
    ensures r == cut ==> (forall j :: cut / 2 < j <= i ==> !IsBreak(runes[j])) || (cut > 0 && IsBreak(runes[cut - 1]))
    decreases i - cut / 2
  {
    if i <= cut / 2 then cut
    else if IsBreak(runes[i]) then i + 1
    else BackCut(runes, cut, i - 1)
  }

  function Window(runes: string, max: int): (r: nat)
    ensures r <= FitCut(runes, max)
    ensures r == 0 <==> FitCut(runes, max) == 0
  {
    var cut := FitCut(runes, max);
    BackCut(runes, cut, cut - 1)
  }

  // ---------------------------------------------------------------- the parts

  /** The parts, or None if the loop never ends: a round that leaves the text as it was repeats for ever. */
  function Parts(runes: string, max: int): (r: Option<seq<string>>)
    decreases |runes|
  {
    if runes == "" then Some([])
    else if FitCut(runes, max) == |runes| then Some([TrimSpace(runes)])
    else
      var cut := Window(runes, max);
      var rest := TrimSpace(runes[cut..]);
      if |rest| == |runes| then None
      else
        match Parts(rest, max)
        case None => None
        case Some(parts) => Some([TrimSpace(runes[..cut])] + parts)
  }

  lemma ConcatOne(part: string)
    ensures Concat([part]) == part
  {
    assert [part][1..] == [];
  }

  lemma SolidCut(runes: string, cut: nat)
    requires cut <= |runes|
    ensures Solid(TrimSpace(runes[..cut])) + Solid(TrimSpace(runes[cut..])) == Solid(runes)
  {
    hide TrimSpace, Solid;
    assert runes == runes[..cut] + runes[cut..];
    SolidConcat(runes[..cut], runes[cut..]);
    SolidTrim(runes[..cut]);
    SolidTrim(runes[cut..]);
  }

  /** Nothing but white space is lost, and nothing is reordered. */
  lemma {:induction false} PartsKeepText(runes: string, max: int)
    requires Parts(runes, max).Some?
    ensures Solid(Concat(Parts(runes, max).value)) == Solid(runes)
    decreases |runes|
  {
    hide Window, FitCut, TrimSpace;
    if runes == "" {
    } else if FitCut(runes, max) == |runes| {
      SolidTrim(runes);
      ConcatOne(TrimSpace(runes));
    } else {
      var cut := Window(runes, max);
      var rest := TrimSpace(runes[cut..]);
      PartsKeepText(rest, max);
      SolidCut(runes, cut);
      var parts := Parts(rest, max).value;
      assert ([TrimSpace(runes[..cut])] + parts)[1..] == parts;
      SolidConcat(TrimSpace(runes[..cut]), Concat(parts));
    }
  }

  lemma WindowFits(runes: string, max: int)
    ensures Window(runes, max) == 0 || ByteLen(TrimSpace(runes[..Window(runes, max)])) <= max
  {
    var cut := Window(runes, max);
    var fit := FitCut(runes, max);
    if cut > 0 {
      hide TrimSpace;
      BytesTrim(runes[..cut]);
      BytesSplit(runes[..fit], cut);
      assert runes[..fit][..cut] == runes[..cut];
    }
  }

  /** Every part fits, or is empty (when even the first rune is too long). */
  lemma {:induction false} PartsFit(runes: string, max: int)
    requires Parts(runes, max).Some?
    ensures forall part :: part in Parts(runes, max).value ==> part == "" || ByteLen(part) <= max
    decreases |runes|
  {
    hide Window, TrimSpace, ByteLen;
    if runes == "" {
    } else if FitCut(runes, max) == |runes| {
      BytesTrim(runes);
      assert runes[..|runes|] == runes;
    } else {
      var cut := Window(runes, max);
      PartsFit(TrimSpace(runes[cut..]), max);
      WindowFits(runes, max);
      if cut == 0 {
        assert TrimSpace("") == "" by { TrimFixed(""); }
        assert runes[..0] == "";
      }
    }
  }

  /** Some rune that is not white space is longer than a whole part may be. */
  ghost predicate HasTooLong(runes: string, max: int) {
    exists c :: c in Solid(runes) && RuneLen(c) > max
  }

  lemma FittingHasNoneTooLong(s: string, max: int)
    requires s == "" || ByteLen(s) <= max
    ensures !HasTooLong(s, max)
  {
    hide RuneLen;
    if c :| c in Solid(s) && RuneLen(c) > max {
      SolidIsPart(s, c);
      RuneInBytes(s, c);
      assert false;
    }
  }

  lemma TooLongOfCut(runes: string, cut: nat, max: int)
    requires cut <= |runes| && !HasTooLong(runes[..cut], max)
    ensures HasTooLong(runes, max) <==> HasTooLong(TrimSpace(runes[cut..]), max)
  {
    hide RuneLen, Solid, TrimSpace;
    assert runes == runes[..cut] + runes[cut..];
    SolidConcat(runes[..cut], runes[cut..]);
    SolidTrim(runes[cut..]);
  }

  lemma StuckIsTooLong(runes: string, max: int)
    requires runes != "" && FitCut(runes, max) < |runes|
    requires |TrimSpace(runes[Window(runes, max)..])| == |runes|
    ensures HasTooLong(runes, max)
  {
    var cut := Window(runes, max);
    assert cut == 0;
    assert runes[0..] == runes;
    TrimWhole(runes);
    assert runes[..1] == [runes[0]];
    assert ByteLen(runes[..1]) == RuneLen(runes[0]);
    assert runes[0] in Solid(runes);
  }

  lemma TrimWhole(s: string)
    requires |TrimSpace(s)| == |s|
    ensures TrimSpace(s) == s
  {
    assert TrimLeft(s) == s;
  }

  /** The loop ends exactly for the texts without such a rune. */
  lemma {:induction false} EndsIffNoneTooLong(runes: string, max: int)
    ensures Parts(runes, max).None? <==> HasTooLong(runes, max)
    decreases |runes|
  {
    if runes == "" {
    } else if FitCut(runes, max) == |runes| {
      assert runes[..|runes|] == runes;
      FittingHasNoneTooLong(runes, max);
    } else {
      var cut := Window(runes, max);
      var rest := TrimSpace(runes[cut..]);
      var fit := FitCut(runes, max);
      hide TrimSpace, HasTooLong, Window, FitCut, ByteLen, Solid;
      if |rest| == |runes| {
        StuckIsTooLong(runes, max);
      } else {
        PrefixFits(runes, max);
        FittingHasNoneTooLong(runes[..cut], max);
        TooLongOfCut(runes, cut, max);
        EndsIffNoneTooLong(rest, max);
      }
    }
  }

  lemma PrefixFits(runes: string, max: int)
    ensures runes[..Window(runes, max)] == "" || ByteLen(runes[..Window(runes, max)]) <= max
  {
    var cut := Window(runes, max);
    var fit := FitCut(runes, max);
    if cut > 0 {
      BytesSplit(runes[..fit], cut);
      assert runes[..fit][..cut] == runes[..cut];
    }
  }

  // ---------------------------------------------------------------- labels

  function Label(i: nat, n: nat): (s: string) {
    "[part " + Decimal(i) + "/" + Decimal(n) + "]\n"
  }

  function Labelled(parts: seq<string>): (r: seq<string>)
    ensures |r| == |parts|
    ensures forall i :: 0 <= i < |r| ==> r[i] == Label(i + 1, |parts|) + parts[i]
  {
    seq(|parts|, i requires 0 <= i < |parts| => Label(i + 1, |parts|) + parts[i])
  }

  const LABEL_RESERVE := 32

  function BodyMax(max: int): (r: int) {
    if max - LABEL_RESERVE < 1 then max else max - LABEL_RESERVE
  }

  /** Messenger's splitMessage. */
  function MessengerParts(text: string, max: int): (r: Option<seq<string>>) {
    if ByteLen(text) <= max then Some([text])
    else
      match Parts(text, BodyMax(max))
      case None => None
      case Some(parts) => Some(Labelled(parts))
  }

  /** WhatsApp's splitText, which leaves a text whole when the limit is not positive. */
  function WhatsAppParts(text: string, max: int): (r: Option<seq<string>>) {
    if max < 1 then Some([text]) else MessengerParts(text, max)
  }

  lemma {:induction false} DigitsBytes(s: string)
    requires forall i :: 0 <= i < |s| ==> s[i] as int < 0x80
    ensures ByteLen(s) == |s|
  {
    if s != "" {
      DigitsBytes(s[1..]);
    }
  }

  lemma LabelBytes(i: nat, n: nat)
    ensures ByteLen(Label(i, n)) == 9 + |Decimal(i)| + |Decimal(n)|
  {
    hide Decimal;
    DigitsBytes(Label(i, n));
  }

  lemma DecimalOfCount(i: nat)
    requires i < 100_000_000_000
    ensures |Decimal(i)| <= 11
  {
    assert Pow10(6) == 1_000_000;
    assert Pow10(11) == 100_000 * Pow10(6);
    DecimalLength(i, 11);
  }

  ghost predicate AllFit(parts: seq<string>, max: int) {
    forall i :: 0 <= i < |parts| ==> ByteLen(parts[i]) <= max
  }

  lemma LabelledPartFits(part: string, i: nat, n: nat, max: int)
    requires max > LABEL_RESERVE && (part == "" || ByteLen(part) <= max - LABEL_RESERVE)
    requires i < 100_000_000_000 && n < 100_000_000_000
    ensures ByteLen(Label(i, n) + part) <= max
  {
    hide Label, Decimal, ByteLen;
    LabelBytes(i, n);
    DecimalOfCount(i);
    DecimalOfCount(n);
    BytesConcat(Label(i, n), part);
    assert ByteLen("") == 0 by { DigitsBytes(""); }
  }

  /** With room for the label, every final message fits. */
  lemma LabelledFit(text: string, max: int)
    requires max > LABEL_RESERVE && MessengerParts(text, max).Some?
    requires |MessengerParts(text, max).value| < 100_000_000_000
    ensures AllFit(MessengerParts(text, max).value, max)
  {
    hide Parts, Label, Labelled, Decimal, ByteLen;
    var final := MessengerParts(text, max).value;
    if ByteLen(text) > max {
      var parts := Parts(text, max - LABEL_RESERVE).value;
      PartsFit(text, max - LABEL_RESERVE);
      forall i | 0 <= i < |final| ensures ByteLen(final[i]) <= max {
        assert parts[i] in parts;
        LabelledPartFits(parts[i], i + 1, |parts|, max);
      }
    }
  }

  lemma LabelTooLong(part: string, i: nat, n: nat, max: int)
    requires ByteLen(part) >= max || max < 11
    ensures ByteLen(Label(i, n) + part) > max
  {
    hide Label, Decimal, ByteLen;
    LabelBytes(i, n);
    BytesConcat(Label(i, n), part);
  }

  function Letters(n: nat): (s: string)
    ensures |s| == n
    ensures forall i :: 0 <= i < n ==> s[i] == 'a'
  {
    seq(n, i => 'a')
  }

  lemma LettersBytes(s: string)
    requires forall i :: 0 <= i < |s| ==> s[i] == 'a'
    ensures ByteLen(s) == |s| && TrimSpace(s) == s
  {
    DigitsBytes(s);
    TrimFixed(s);
  }

  lemma LettersFit(n: nat, max: nat)
    ensures FitCut(Letters(n), max) == if n <= max then n else max
    ensures Window(Letters(n), max) == FitCut(Letters(n), max)
  {
    var text := Letters(n);
    var fit := FitCut(text, max);
    LettersBytes(text[..fit]);
    if fit < n {
      LettersBytes(text[..fit + 1]);
    }
  }

  lemma PartsWhole(runes: string, max: int)
    requires runes != "" && FitCut(runes, max) == |runes|
    ensures Parts(runes, max) == Some([TrimSpace(runes)])
  {
  }

  lemma PartsTwo(runes: string, max: int, rest: string)
    requires runes != "" && FitCut(runes, max) < |runes|
    requires TrimSpace(runes[Window(runes, max)..]) == rest && |rest| < |runes|
    requires Parts(rest, max).Some?
    ensures Parts(runes, max) == Some([TrimSpace(runes[..Window(runes, max)])] + Parts(rest, max).value)
  {
  }

  lemma LettersCut(max: nat)
    ensures Letters(1) == "a"
    ensures Letters(max + 1)[..max] == Letters(max) && Letters(max + 1)[max..] == "a"
  {
  }

  /** One letter over the limit gives a full part and a letter. */
  lemma LettersParts(max: nat)
    requires max >= 1
    ensures Parts(Letters(max + 1), max) == Some([Letters(max), "a"])
  {
    hide Parts, TrimSpace, FitCut, Window, Letters, ByteLen;
    LettersFit(max + 1, max);
    LettersFit(1, max);
    LettersCut(max);
    LettersBytes("a");
    LettersBytes(Letters(max));
    PartsWhole("a", max);
    PartsTwo(Letters(max + 1), max, "a");
    assert [Letters(max)] + ["a"] == [Letters(max), "a"];
  }

  lemma BlankParts(max: int)
    requires max < 1
    ensures Parts(" ", max) == Some([""])
  {
    assert FitCut(" ", max) == 0 && Window(" ", max) == 0;
    assert TrimSpace(" ") == "" by {
      assert " "[1..] == "";
    }
    assert " "[..0] == "" && " "[0..] == " ";
    assert Parts("", max) == Some([]);
    TrimFixed("");
    hide TrimSpace, FitCut, Window;
    PartsTwo(" ", max, "");
    assert [""] + [] == [""];
  }

  lemma LettersOverflow(max: nat)
    requires 1 <= max <= LABEL_RESERVE
    ensures MessengerParts(Letters(max + 1), max) == Some(Labelled([Letters(max), "a"]))
    ensures !AllFit(Labelled([Letters(max), "a"]), max)
  {
    LettersBytes(Letters(max + 1));
    LettersBytes(Letters(max));
    LettersParts(max);
    hide Parts, Label, ByteLen, Letters;
    LabelTooLong(Letters(max), 1, 2, max);
    assert ByteLen(Labelled([Letters(max), "a"])[0]) > max;
  }

  lemma BlankOverflows(max: int)
    requires max < 1
    ensures MessengerParts(" ", max) == Some(Labelled([""]))
    ensures !AllFit(Labelled([""]), max)
  {
    BlankParts(max);
    DigitsBytes(" ");
    hide Parts, Label, ByteLen;
    LabelTooLong("", 1, 1, max);
    assert ByteLen(Labelled([""])[0]) > max;
  }

  /** "Keeps every final message below the limit" is true of exactly the limits that leave room for the label. */
  lemma LimitKeptIff(max: int)
    ensures (forall text :: MessengerParts(text, max).Some? && |MessengerParts(text, max).value| < 100_000_000_000 ==>
               AllFit(MessengerParts(text, max).value, max))
       <==> max > LABEL_RESERVE
  {
    hide MessengerParts, AllFit, Labelled;
    if max > LABEL_RESERVE {
      forall text | MessengerParts(text, max).Some? && |MessengerParts(text, max).value| < 100_000_000_000
        ensures AllFit(MessengerParts(text, max).value, max)
      {
        LabelledFit(text, max);
      }
    } else if max >= 1 {
      LettersOverflow(max);
      assert |MessengerParts(Letters(max + 1), max).value| == 2;
    } else {
      BlankOverflows(max);
      assert |MessengerParts(" ", max).value| == 1;
    }
  }

  lemma NoneTooLongForFour(runes: string, max: int)
    requires max >= 4
    ensures !HasTooLong(runes, max)
  {
    hide Solid;
    assert forall c: char :: RuneLen(c) <= 4;
  }

  lemma PartsEnd(runes: string, max: int)
    requires max >= 4
    ensures Parts(runes, max).Some?
  {
    hide Parts, HasTooLong;
    EndsIffNoneTooLong(runes, max);
    NoneTooLongForFour(runes, max);
  }

  /** Four bytes of body hold any rune, so every such split ends. */
  lemma SplitEnds(text: string, max: int)
    requires max - LABEL_RESERVE >= 4
    ensures MessengerParts(text, max).Some?
  {
    hide Parts, ByteLen, Labelled;
    PartsEnd(text, max - LABEL_RESERVE);
  }

  /** A split never ends exactly when the text is over the limit and has such a rune. */
  lemma SplitHangsIff(text: string, max: int)
    ensures MessengerParts(text, max).None? <==> ByteLen(text) > max && HasTooLong(text, BodyMax(max))
  {
    hide Parts, ByteLen, HasTooLong, Labelled;
    EndsIffNoneTooLong(text, BodyMax(max));
  }

  /** A euro sign does not go into two bytes. */
  lemma EuroHangs()
    ensures MessengerParts("\U{20AC}", 2).None?
  {
    var euro := "\U{20AC}";
    assert Solid(euro) == [euro[0]] && ByteLen(euro) == 3 by {
      assert euro[1..] == "";
    }
    SplitHangsIff(euro, 2);
  }

  /** A split loses white space only: without the labels the final messages carry the text. */
  lemma FinalKeepText(text: string, max: int)
    requires MessengerParts(text, max).Some? && ByteLen(text) > max
    ensures exists parts: seq<string> ::
      && MessengerParts(text, max).value == Labelled(parts)
      && Solid(Concat(parts)) == Solid(text)
  {
    var parts := Parts(text, BodyMax(max)).value;
    PartsKeepText(text, BodyMax(max));
    assert MessengerParts(text, max).value == Labelled(parts);
  }

  // ---------------------------------------------------------------- the code

  method SplitMessageBytes(text: string, max: int) returns (r: Option<seq<string>>)
    ensures r == Parts(text, max)
  {
    hide ByteLen, TrimSpace, FitCut, Window, Parts, After;
    var runes := text;
    var chunks: seq<string> := [];
    AfterNothing(text, max);
    while |runes| > 0
      invariant Parts(text, max) == After(chunks, Parts(runes, max))
      decreases |runes|
    {
      PartsNext(runes, max);
      var cut := FitRunes(runes, max);
      if cut == |runes| {
        AfterOne(chunks, TrimSpace(runes), Some([]));
        chunks := chunks + [TrimSpace(runes)];
        AfterEnds(chunks);
        return Some(chunks);
      }
      cut := BackToBreak(runes, cut);
      assert cut == Window(runes, max) by { WindowIs(runes, max); }
      var rest := TrimSpace(runes[cut..]);
      if |rest| == |runes| {
        AfterEnds(chunks);
        return None;
      }
      AfterOne(chunks, TrimSpace(runes[..cut]), Parts(rest, max));
      chunks := chunks + [TrimSpace(runes[..cut])];
      runes := rest;
    }
    PartsNext(runes, max);
    AfterEnds(chunks);
    return Some(chunks);
  }

  /** The parts, with those already cut off before them. */
  function After(chunks: seq<string>, parts: Option<seq<string>>): (r: Option<seq<string>>) {
    if parts.None? then None else Some(chunks + parts.value)
  }

  /** One round of the loop. */
  lemma PartsNext(runes: string, max: int)
    ensures runes == "" ==> Parts(runes, max) == Some([])
    ensures runes != "" && FitCut(runes, max) == |runes| ==> Parts(runes, max) == After([TrimSpace(runes)], Some([]))
    ensures runes != "" && FitCut(runes, max) != |runes| ==>
      var cut := Window(runes, max);
      var rest := TrimSpace(runes[cut..]);
      Parts(runes, max) == if |rest| == |runes| then None else After([TrimSpace(runes[..cut])], Parts(rest, max))
  {
    hide TrimSpace, FitCut, Window;
    assert [TrimSpace(runes)] + [] == [TrimSpace(runes)];
  }

  lemma AfterNothing(text: string, max: int)
    ensures After([], Parts(text, max)) == Parts(text, max)
  {
    hide Parts;
    assert Parts(text, max).Some? ==> [] + Parts(text, max).value == Parts(text, max).value;
  }

  lemma AfterOne(chunks: seq<string>, chunk: string, parts: Option<seq<string>>)
    ensures After(chunks, After([chunk], parts)) == After(chunks + [chunk], parts)
  {
    assert parts.Some? ==> chunks + ([chunk] + parts.value) == chunks + [chunk] + parts.value;
  }

  lemma AfterEnds(chunks: seq<string>)
    ensures After(chunks, None) == None && After(chunks, Some([])) == Some(chunks)
  {
    assert chunks + [] == chunks;
  }

  lemma WindowIs(runes: string, max: int)
    ensures Window(runes, max) == BackCut(runes, FitCut(runes, max), FitCut(runes, max) - 1)
  {
  }

  method FitRunes(runes: string, max: int) returns (cut: nat)
    ensures cut == FitCut(runes, max)
  {
    cut := 0;
    var bytes := 0;
    while cut < |runes|
      invariant cut <= FitCut(runes, max)
      invariant bytes == ByteLen(runes[..cut])
    {
      var n := RuneLen(runes[cut]);
      BytesNext(runes, cut);
      if bytes + n > max {
        break;
      }
      PrefixStillFits(runes, max, cut);
      bytes := bytes + n;
      cut := cut + 1;
    }
    if cut < FitCut(runes, max) {
      PrefixesFit(runes, max, cut + 1);
    }
  }

  lemma PrefixesFit(runes: string, max: int, k: nat)
    requires 0 < k <= FitCut(runes, max)
    ensures ByteLen(runes[..k]) <= max
  {
    BytesPrefix(runes, k, FitCut(runes, max));
  }

  lemma PrefixStillFits(runes: string, max: int, k: nat)
    requires k < |runes| && ByteLen(runes[..k + 1]) <= max
    ensures k < FitCut(runes, max)
  {
    var fit := FitCut(runes, max);
    if fit <= k {
      BytesPrefix(runes, fit + 1, k + 1);
    }
  }

  method BackToBreak(runes: string, cut: nat) returns (r: nat)
    requires cut <= |runes|
    ensures r == BackCut(runes, cut, cut - 1)
  {
    var i: int := cut - 1;
    while i > cut / 2
      invariant -1 <= i < cut || i == -1
      invariant BackCut(runes, cut, i) == BackCut(runes, cut, cut - 1)
    {
      if runes[i] == '\n' || runes[i] == ' ' {
        return i + 1;
      }
      i := i - 1;
    }
    return cut;
  }

  /** splitMessage of the Messenger client. */
  method SplitMessage(text: string, max: int) returns (r: Option<seq<string>>)
    ensures r == MessengerParts(text, max)
  {
    hide ByteLen, Parts;
    if ByteLen(text) <= max {
      return Some([text]);
    }
    var bodyMax := max - 32;
    if bodyMax < 1 {
      bodyMax := max;
    }
    r := SplitMessageBytes(text, bodyMax);
    if r.Some? {
      var chunks := r.value;
      ghost var bare := chunks;
      for i := 0 to |chunks|
        invariant |chunks| == |bare|
        invariant forall j :: 0 <= j < i ==> chunks[j] == Label(j + 1, |bare|) + bare[j]
        invariant forall j :: i <= j < |bare| ==> chunks[j] == bare[j]
      {
        chunks := chunks[i := "[part " + Decimal(i + 1) + "/" + Decimal(|chunks|) + "]\n" + chunks[i]];
      }
      assert chunks == Labelled(bare);
      r := Some(chunks);
    }
  }

  /** splitText of the WhatsApp client, whose labels come from itoa. */
  method SplitText(text: string, max: int) returns (r: Option<seq<string>>)
    requires |text| < MAX_INT
    ensures r == WhatsAppParts(text, max)
  {
    hide ByteLen, Parts;
    if max < 1 || ByteLen(text) <= max {
      return Some([text]);
    }
    var bodyMax := max - LABEL_RESERVE;
    if bodyMax < 1 {
      bodyMax := max;
    }
    r := SplitMessageBytes(text, bodyMax);
    if r.Some? {
      var parts := r.value;
      ghost var bare := parts;
      PartsAreFew(text, bodyMax);
      for i := 0 to |parts|
        invariant |parts| == |bare|
        invariant forall j :: 0 <= j < i ==> parts[j] == Label(j + 1, |bare|) + bare[j]
        invariant forall j :: i <= j < |bare| ==> parts[j] == bare[j]
      {
        var number := Itoa(i + 1);
        var count := Itoa(|parts|);
        parts := parts[i := "[part " + number + "/" + count + "]\n" + parts[i]];
      }
      assert parts == Labelled(bare);
      r := Some(parts);
    }
  }

  lemma {:induction false} PartsAreFew(runes: string, max: int)
    requires Parts(runes, max).Some?
    ensures |Parts(runes, max).value| <= |runes|
    decreases |runes|
  {
    hide Window, FitCut, TrimSpace;
    if runes != "" && FitCut(runes, max) != |runes| {
      PartsAreFew(TrimSpace(runes[Window(runes, max)..]), max);
    }
  }
}
