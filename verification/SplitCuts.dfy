/** Where the messages of a split text are cut (internal/messenger/messenger.go, internal/whatsapp/text.go), and how
    they are labelled. */
module SplitCuts {
  import opened Options
  import opened Text
  import opened Decimals
  import opened ByteSplitter

  /** The longest beginning that fits. */
  predicate LongestFit(runes: string, max: int, fit: nat) {
    fit <= |runes| && (fit > 0 ==> ByteLen(runes[..fit]) <= max) && (fit < |runes| ==> ByteLen(runes[..fit + 1]) > max)
  }

  predicate BreakAt(runes: string, i: int) {
    0 <= i < |runes| && (runes[i] == '\n' || runes[i] == ' ')
  }

  /** The cut comes right after the last break in the back half of what fits, or after all that fits if there is
      none. */
  predicate CutAt(runes: string, fit: nat, cut: nat) {
    if cut < fit then fit / 2 < cut - 1 && BreakAt(runes, cut - 1) && forall j :: cut <= j < fit ==> !BreakAt(runes, j)
    else cut == fit && (BreakAt(runes, fit - 1) || forall j :: fit / 2 < j < fit ==> !BreakAt(runes, j))
  }

  /** The parts of a text: the whole of it if it fits, else what is before the cut, and the parts of the rest. */
  ghost predicate SplitsInto(runes: string, max: int, parts: seq<string>)
    decreases |parts|
  {
    if runes == "" then parts == []
    else if ByteLen(runes) <= max then parts == [TrimSpace(runes)]
    else exists fit: nat, cut: nat ::
      && LongestFit(runes, max, fit) && fit < |runes| && cut <= |runes| && CutAt(runes, fit, cut)
      && parts != [] && parts[0] == TrimSpace(runes[..cut]) && SplitsInto(TrimSpace(runes[cut..]), max, parts[1..])
  }

  lemma WholeFits(runes: string, max: int)
    requires runes != ""
    ensures FitCut(runes, max) == |runes| <==> ByteLen(runes) <= max
  {
    var fit := FitCut(runes, max);
    if fit < |runes| {
      BytesSplit(runes, fit + 1);
    } else {
      assert runes[..fit] == runes;
    }
  }

  lemma WindowIsCut(runes: string, max: int)
    ensures LongestFit(runes, max, FitCut(runes, max)) && CutAt(runes, FitCut(runes, max), Window(runes, max))
  {
  }

  /** The parts are cut there and nowhere else. */
  lemma {:induction false} PartsAreCut(runes: string, max: int)
    requires Parts(runes, max).Some?
    ensures SplitsInto(runes, max, Parts(runes, max).value)
    decreases |runes|
  {
    hide Window, FitCut, TrimSpace, ByteLen, CutAt, LongestFit;
    if runes != "" {
      WholeFits(runes, max);
      if FitCut(runes, max) < |runes| {
        var cut := Window(runes, max);
        WindowIsCut(runes, max);
        PartsAreCut(TrimSpace(runes[cut..]), max);
        var parts := Parts(runes, max).value;
        assert parts[1..] == Parts(TrimSpace(runes[cut..]), max).value;
      }
    }
  }

  lemma SameFit(runes: string, max: int, a: nat, b: nat)
    requires LongestFit(runes, max, a) && LongestFit(runes, max, b)
    ensures a == b
  {
    if a < b {
      BytesPrefix(runes, a + 1, b);
    } else if b < a {
      BytesPrefix(runes, b + 1, a);
    }
  }

  lemma SameCut(runes: string, fit: nat, a: nat, b: nat)
    requires fit <= |runes| && CutAt(runes, fit, a) && CutAt(runes, fit, b)
    ensures a == b
  {
  }

  /** So the text and the limit determine the parts. */
  lemma {:induction false} PartsUnique(runes: string, max: int, a: seq<string>, b: seq<string>)
    requires SplitsInto(runes, max, a) && SplitsInto(runes, max, b)
    ensures a == b
    decreases |a|
  {
    hide TrimSpace, ByteLen, CutAt, LongestFit;
    if runes != "" && ByteLen(runes) > max {
      var f: nat, c: nat :| LongestFit(runes, max, f) && f < |runes| && c <= |runes| && CutAt(runes, f, c)
        && a[0] == TrimSpace(runes[..c]) && SplitsInto(TrimSpace(runes[c..]), max, a[1..]);
      var g: nat, d: nat :| LongestFit(runes, max, g) && g < |runes| && d <= |runes| && CutAt(runes, g, d)
        && b[0] == TrimSpace(runes[..d]) && SplitsInto(TrimSpace(runes[d..]), max, b[1..]);
      SameFit(runes, max, f, g);
      SameCut(runes, f, c, d);
      PartsUnique(TrimSpace(runes[c..]), max, a[1..], b[1..]);
      assert a == [a[0]] + a[1..] && b == [b[0]] + b[1..];
    }
  }

  /** The final messages: the text if it fits, else the parts of the text cut to leave 32 bytes, each under a label with
      its number and their count. */
  lemma MessagesTell(text: string, max: int)
    requires MessengerParts(text, max).Some?
    ensures var messages := MessengerParts(text, max).value;
      if ByteLen(text) <= max then messages == [text]
      else exists parts: seq<string> ::
        && SplitsInto(text, if max - 32 < 1 then max else max - 32, parts) && |messages| == |parts|
        && forall i :: 0 <= i < |parts| ==>
            messages[i] == "[part " + Decimal(i + 1) + "/" + Decimal(|parts|) + "]\n" + parts[i]
  {
    hide Parts, ByteLen, Decimal, SplitsInto;
    if ByteLen(text) > max {
      var parts := Parts(text, BodyMax(max)).value;
      PartsAreCut(text, BodyMax(max));
      assert MessengerParts(text, max).value == Labelled(parts);
    }
  }

  /** WhatsApp splits the same way, and leaves a text whole if the limit is not positive. */
  lemma WhatsAppSplitsSame(text: string, max: int)
    ensures WhatsAppParts(text, max) == if max <= 0 then Some([text]) else MessengerParts(text, max)
  {
    hide MessengerParts;
  }
}
