/** When redaction leaves no secret behind. */
module RedactionGuarantees {
  import opened Text
  import opened Redaction

  predicate BracketFree(w: string) {
    w != "" && '[' !in w && ']' !in w
  }

  /** A replaced stretch: it opens and closes with a bracket, as every marker does. */
  predicate Bracketed(s: string) {
    |s| >= 2 && s[0] == '[' && s[|s| - 1] == ']'
  }

  predicate IsBracket(c: char) {
    c == '[' || c == ']'
  }

  /** No bracket-free string lies across the border of the two. */
  predicate Apart(a: string, b: string) {
    a == "" || b == "" || IsBracket(b[0]) || IsBracket(a[|a| - 1])
  }

  lemma MarkerBracketed(name: string)
    ensures Bracketed(Marker(name))
  {
  }

  // ---------------------------------------------------------------- occurrences

  lemma OccursAt(w: string, s: string, i: int)
    requires At(s, w, i)
    ensures Occurs(w, s)
  {
  }

  lemma CharsAcross(s: string, w: string, i: int, k: int)
    requires At(s, w, i) && i < k < i + |w|
    ensures s[k - 1] in w && s[k] in w
  {
    assert s[i..i + |w|][k - 1 - i] == s[k - 1] && s[i..i + |w|][k - i] == s[k];
  }

  lemma SliceLeft(a: string, b: string, i: nat, j: nat)
    requires i <= j <= |a|
    ensures (a + b)[i..j] == a[i..j]
  {
  }

  lemma SliceRight(a: string, b: string, i: nat, j: nat)
    requires |a| <= i <= j <= |a + b|
    ensures (a + b)[i..j] == b[i - |a|..j - |a|]
  {
  }

  lemma NotAcross(w: string, a: string, b: string, i: int)
    requires BracketFree(w) && Apart(a, b) && At(a + b, w, i)
    ensures i + |w| <= |a| || i >= |a|
  {
    AtBorder(a, b);
    if i < |a| < i + |w| {
      CharsAcross(a + b, w, i, |a|);
    }
  }

  lemma AtBorder(a: string, b: string)
    ensures a != "" && b != "" ==> (a + b)[|a| - 1] == a[|a| - 1] && (a + b)[|a|] == b[0]
  {
  }

  lemma OccursSplit(w: string, a: string, b: string)
    requires BracketFree(w) && Apart(a, b) && Occurs(w, a + b)
    ensures Occurs(w, a) || Occurs(w, b)
  {
    hide BracketFree, Apart;
    var s := a + b;
    var i :| 0 <= i <= |s| && At(s, w, i);
    NotAcross(w, a, b, i);
    if i + |w| <= |a| {
      SliceLeft(a, b, i, i + |w|);
      OccursAt(w, a, i);
    } else {
      SliceRight(a, b, i, i + |w|);
      OccursAt(w, b, i - |a|);
    }
  }

  lemma OccursInside(w: string, a: string, s: string, b: string)
    requires Occurs(w, s)
    ensures Occurs(w, a + s + b)
  {
    var i :| 0 <= i <= |s| && At(s, w, i);
    assert (a + s + b)[|a| + i..|a| + i + |w|] == s[i..i + |w|];
    OccursAt(w, a + s + b, |a| + i);
  }

  // ---------------------------------------------------------------- one replacement

  function FirstFrom(text: string, v: string, from: nat): (i: nat)
    requires from <= |text|
    ensures from <= i <= |text|
    ensures i < |text| ==> At(text, v, i)
    ensures forall j :: from <= j < i ==> !At(text, v, j)
    decreases |text| - from
  {
    if from == |text| || At(text, v, from) then from else FirstFrom(text, v, from + 1)
  }

  lemma PrefixIsAt(text: string, v: string, k: nat)
    requires k <= |text|
    ensures v <= text[k..] <==> At(text, v, k)
  {
    if |v| <= |text| - k {
      assert text[k..][..|v|] == text[k..k + |v|];
    }
  }

  lemma {:induction false} ReplaceSkips(text: string, v: string, m: string, i: nat)
    requires v != "" && i <= |text|
    requires forall j :: 0 <= j < i ==> !At(text, v, j)
    ensures Replace(text, v, m) == text[..i] + Replace(text[i..], v, m)
    decreases i
  {
    if i == 0 {
      assert text[0..] == text && text[..0] == "";
    } else {
      ReplaceSkips(text, v, m, i - 1);
      var rest := text[i - 1..];
      PrefixIsAt(text, v, i - 1);
      assert rest[1..] == text[i..];
      assert text[..i - 1] + ([rest[0]] + Replace(text[i..], v, m)) == text[..i] + Replace(text[i..], v, m);
    }
  }

  lemma ReplaceMatch(text: string, v: string, m: string)
    requires v != ""
    ensures text == "" ==> Replace(text, v, m) == ""
    ensures v <= text ==> Replace(text, v, m) == m + Replace(text[|v|..], v, m)
  {
  }

  lemma ReplaceFrom(text: string, v: string, m: string, i: nat)
    requires v != "" && i <= |text| && At(text, v, i)
    ensures Replace(text[i..], v, m) == m + Replace(text[i + |v|..], v, m)
  {
    hide Replace;
    ReplaceMatch(text[i..], v, m);
    PrefixIsAt(text, v, i);
    assert text[i..][|v|..] == text[i + |v|..];
  }

  lemma ReplaceNowhere(text: string, v: string, m: string)
    requires v != "" && forall j :: 0 <= j < |text| ==> !At(text, v, j)
    ensures Replace(text, v, m) == text
  {
    hide At;
    ReplaceSkips(text, v, m, |text|);
    assert text[|text|..] == "";
  }

  /** Up to the first match nothing changes; from there the rest is replaced after the marker. */
  lemma ReplaceFirst(text: string, v: string, m: string)
    requires v != ""
    ensures var i := FirstFrom(text, v, 0);
            Replace(text, v, m) == if i == |text| then text else text[..i] + (m + Replace(text[i + |v|..], v, m))
  {
    hide Replace, FirstFrom, At;
    var i := FirstFrom(text, v, 0);
    if i == |text| {
      ReplaceNowhere(text, v, m);
    } else {
      ReplaceSkips(text, v, m, i);
      ReplaceFrom(text, v, m, i);
    }
  }

  lemma NoMatchNoChange(text: string, v: string, m: string)
    requires v != "" && !Occurs(v, text)
    ensures Replace(text, v, m) == text
  {
    ReplaceFirst(text, v, m);
  }

  /** Replacing works piece by piece where a bracket separates the pieces. */
  lemma {:induction false} ReplaceSplit(a: string, b: string, v: string, m: string)
    requires BracketFree(v) && Apart(a, b)
    ensures Replace(a + b, v, m) == Replace(a, v, m) + Replace(b, v, m)
    decreases |a|
  {
    if a == "" {
      assert a + b == b;
    } else if v <= a + b {
      MatchStaysInside(a, b, v);
      assert (a + b)[|v|..] == a[|v|..] + b;
      ReplaceSplit(a[|v|..], b, v, m);
      assert m + (Replace(a[|v|..], v, m) + Replace(b, v, m)) == m + Replace(a[|v|..], v, m) + Replace(b, v, m);
    } else {
      assert v <= a ==> v <= a + b;
      assert (a + b)[1..] == a[1..] + b;
      ReplaceSplit(a[1..], b, v, m);
      assert [a[0]] + (Replace(a[1..], v, m) + Replace(b, v, m)) == [a[0]] + Replace(a[1..], v, m) + Replace(b, v, m);
    }
  }

  lemma MatchStaysInside(a: string, b: string, v: string)
    requires BracketFree(v) && Apart(a, b) && a != "" && v <= a + b
    ensures v <= a
  {
    if |v| <= |a| {
      assert v == (a + b)[..|v|] == a[..|v|];
    } else {
      CharsAcross(a + b, v, 0, |a|);
    }
  }

  /** A bracketed stretch stays one. */
  lemma ReplaceKeepsBrackets(s: string, v: string, m: string)
    requires BracketFree(v) && Bracketed(s)
    ensures Bracketed(Replace(s, v, m))
  {
    var body := s[1..|s| - 1];
    assert s == "[" + (body + "]");
    ReplaceSplit("[", body + "]", v, m);
    ReplaceSplit(body, "]", v, m);
    NoMatchInBracket('[', v, m);
    NoMatchInBracket(']', v, m);
  }

  lemma NoMatchInBracket(c: char, v: string, m: string)
    requires BracketFree(v) && IsBracket(c)
    ensures Replace([c], v, m) == [c]
  {
    assert v[0] in v && v[0] != c;
    assert [c][1..] == "";
  }

  // ---------------------------------------------------------------- the whole loop

  ghost predicate AllBracketFree(pairs: seq<Pair>) {
    forall i :: 0 <= i < |pairs| ==> BracketFree(pairs[i].value)
  }

  lemma {:induction false} RedactedKeepsBrackets(s: string, pairs: seq<Pair>)
    requires Secrets(pairs) && AllBracketFree(pairs) && Bracketed(s)
    ensures Bracketed(Redacted(s, pairs))
    decreases |pairs|
  {
    hide Bracketed, Replace, Marker;
    if pairs != [] {
      ReplaceKeepsBrackets(s, pairs[0].value, Marker(pairs[0].name));
      RedactedKeepsBrackets(Replace(s, pairs[0].value, Marker(pairs[0].name)), pairs[1..]);
    }
  }

  /** Redaction works piece by piece around a bracketed stretch. */
  lemma {:induction false} RedactedSplit(a: string, s: string, b: string, pairs: seq<Pair>)
    requires Secrets(pairs) && AllBracketFree(pairs) && Bracketed(s)
    ensures Redacted(a + (s + b), pairs) == Redacted(a, pairs) + (Redacted(s, pairs) + Redacted(b, pairs))
    decreases |pairs|
  {
    if pairs != [] {
      var v, m := pairs[0].value, Marker(pairs[0].name);
      BordersApart(a, s, b);
      hide Replace, Marker, Apart, Bracketed;
      ReplaceSplit(a, s + b, v, m);
      ReplaceSplit(s, b, v, m);
      ReplaceKeepsBrackets(s, v, m);
      RedactedSplit(Replace(a, v, m), Replace(s, v, m), Replace(b, v, m), pairs[1..]);
    }
  }

  lemma BordersApart(a: string, s: string, b: string)
    requires Bracketed(s)
    ensures Apart(a, s + b) && Apart(s, b)
  {
  }

  lemma OccursAround(w: string, a: string, s: string, b: string)
    requires BracketFree(w) && Bracketed(s) && Occurs(w, a + (s + b))
    ensures Occurs(w, a) || Occurs(w, s) || Occurs(w, b)
  {
    BordersApart(a, s, b);
    OccursSplit(w, a, s + b);
    if !Occurs(w, a) {
      OccursSplit(w, s, b);
    }
  }

  /** The redaction of some stretch of the text without a match of `v` shows the string. */
  ghost predicate ShownByStretch(text: string, v: string, rest: seq<Pair>, w: string)
    requires Secrets(rest)
  {
    exists i: nat, j: nat :: i <= j <= |text| && !Occurs(v, text[i..j]) && Occurs(w, Redacted(text[i..j], rest))
  }

  lemma StretchOfTail(text: string, k: nat, v: string, rest: seq<Pair>, w: string)
    requires Secrets(rest) && k <= |text| && ShownByStretch(text[k..], v, rest, w)
    ensures ShownByStretch(text, v, rest, w)
  {
    hide Redacted, Occurs;
    var tail := text[k..];
    var i: nat, j: nat :| i <= j <= |tail| && !Occurs(v, tail[i..j]) && Occurs(w, Redacted(tail[i..j], rest));
    assert tail[i..j] == text[k + i..k + j];
  }

  lemma StretchOfHead(text: string, k: nat, v: string, rest: seq<Pair>, w: string)
    requires Secrets(rest) && k <= |text| && !Occurs(v, text[..k]) && Occurs(w, Redacted(text[..k], rest))
    ensures ShownByStretch(text, v, rest, w)
  {
    hide Redacted, Occurs;
    assert text[0..k] == text[..k];
  }

  lemma AtPrefix(text: string, v: string, i: nat, j: int)
    requires i <= |text|
    ensures At(text[..i], v, j) ==> At(text, v, j) && j + |v| <= i
  {
    if At(text[..i], v, j) {
      assert text[..i][j..j + |v|] == text[j..j + |v|];
    }
  }

  lemma FirstStretch(text: string, v: string)
    requires v != ""
    ensures !Occurs(v, text[..FirstFrom(text, v, 0)])
  {
    var i := FirstFrom(text, v, 0);
    forall j | 0 <= j <= i ensures !At(text[..i], v, j) {
      AtPrefix(text, v, i, j);
    }
  }

  lemma NotEmptyIfFree(v: string)
    requires BracketFree(v)
    ensures v != ""
  {
  }

  /** Replacing and then redacting shows a string only through the redacted marker, or through the redaction of a
      stretch of the text that holds no match. */
  lemma {:induction false} WhereFrom(text: string, v: string, m: string, rest: seq<Pair>, w: string)
    requires Secrets(rest) && AllBracketFree(rest) && BracketFree(v) && BracketFree(w) && Bracketed(m)
    requires Occurs(w, Redacted(Replace(text, v, m), rest))
    ensures (Occurs(v, text) && Occurs(w, Redacted(m, rest))) || ShownByStretch(text, v, rest, w)
    decreases |text|
  {
    hide Redacted, Replace, Occurs, ShownByStretch, Bracketed, AllBracketFree, FirstFrom, BracketFree;
    NotEmptyIfFree(v);
    var i := FirstFrom(text, v, 0);
    ReplaceFirst(text, v, m);
    FirstStretch(text, v);
    if i == |text| {
      assert text[..i] == text;
      StretchOfHead(text, i, v, rest, w);
    } else {
      var tail := text[i + |v|..];
      OccursAt(v, text, i);
      RedactedSplit(text[..i], m, Replace(tail, v, m), rest);
      RedactedKeepsBrackets(m, rest);
      OccursAround(w, Redacted(text[..i], rest), Redacted(m, rest), Redacted(Replace(tail, v, m), rest));
      if Occurs(w, Redacted(text[..i], rest)) {
        StretchOfHead(text, i, v, rest, w);
      } else if !Occurs(w, Redacted(m, rest)) {
        WhereFrom(tail, v, m, rest, w);
        StretchOfTail(text, i + |v|, v, rest, w);
      }
    }
  }

  /** No pair before it holds its value. */
  ghost predicate First(pairs: seq<Pair>, i: nat)
    requires i < |pairs|
  {
    forall k :: 0 <= k < i ==> pairs[k].value != pairs[i].value
  }

  /** The text holds a secret whose marker, redacted by the secrets after it, shows the string. */
  ghost predicate ShownByMarker(text: string, pairs: seq<Pair>, w: string)
    requires Secrets(pairs)
  {
    exists i :: 0 <= i < |pairs| && First(pairs, i) && Occurs(pairs[i].value, text)
      && Occurs(w, Redacted(Marker(pairs[i].name), pairs[i + 1..]))
  }

  ghost predicate IsSecret(pairs: seq<Pair>, w: string) {
    exists i :: 0 <= i < |pairs| && pairs[i].value == w
  }

  lemma SecretLater(pairs: seq<Pair>, w: string)
    requires pairs != []
    ensures IsSecret(pairs, w) <==> w == pairs[0].value || IsSecret(pairs[1..], w)
  {
    var rest := pairs[1..];
    assert forall k :: 0 <= k < |rest| ==> rest[k] == pairs[k + 1];
    if IsSecret(pairs, w) && w != pairs[0].value {
      var k :| 0 <= k < |pairs| && pairs[k].value == w;
      assert rest[k - 1].value == w;
    }
  }

  /** What a later marker shows of a stretch without the first secret, it shows of the text. */
  lemma ShownLater(text: string, i: nat, j: nat, pairs: seq<Pair>, w: string)
    requires Secrets(pairs) && pairs != [] && i <= j <= |text| && !Occurs(pairs[0].value, text[i..j])
    requires ShownByMarker(text[i..j], pairs[1..], w)
    ensures ShownByMarker(text, pairs, w)
  {
    hide Redacted, Marker, Occurs;
    var rest := pairs[1..];
    var k :| 0 <= k < |rest| && First(rest, k) && Occurs(rest[k].value, text[i..j])
      && Occurs(w, Redacted(Marker(rest[k].name), rest[k + 1..]));
    assert rest[k] == pairs[k + 1] && rest[k + 1..] == pairs[k + 2..];
    OccursInStretch(rest[k].value, text, i, j);
    forall l | 0 <= l < k + 1 ensures pairs[l].value != pairs[k + 1].value {
      assert l > 0 ==> pairs[l] == rest[l - 1];
    }
    assert First(pairs, k + 1);
  }

  lemma OccursInStretch(w: string, text: string, i: nat, j: nat)
    requires i <= j <= |text| && Occurs(w, text[i..j])
    ensures Occurs(w, text)
  {
    OccursInside(w, text[..i], text[i..j], text[j..]);
    assert text[..i] + text[i..j] + text[j..] == text;
  }

  /** What the output shows comes from the marker of a secret in the text, or from the text and is no secret. */
  lemma {:induction false} OutputShows(text: string, pairs: seq<Pair>, w: string)
    requires Secrets(pairs) && AllBracketFree(pairs) && BracketFree(w)
    requires Occurs(w, Redacted(text, pairs))
    ensures ShownByMarker(text, pairs, w) || (Occurs(w, text) && !IsSecret(pairs, w))
    decreases |pairs|, 0
  {
    if pairs != [] {
      MarkerBracketed(pairs[0].name);
      RedactedStep(text, pairs);
      hide Redacted, Replace, Marker, BracketFree, Occurs, ShownByStretch, IsSecret, Bracketed;
      WhereFrom(text, pairs[0].value, Marker(pairs[0].name), pairs[1..], w);
      if Occurs(pairs[0].value, text) && Occurs(w, Redacted(Marker(pairs[0].name), pairs[1..])) {
        assert First(pairs, 0);
      } else {
        StretchShows(text, pairs, w);
      }
    }
  }

  lemma {:induction false} StretchShows(text: string, pairs: seq<Pair>, w: string)
    requires Secrets(pairs) && AllBracketFree(pairs) && BracketFree(w) && pairs != []
    requires ShownByStretch(text, pairs[0].value, pairs[1..], w)
    ensures ShownByMarker(text, pairs, w) || (Occurs(w, text) && !IsSecret(pairs, w))
    decreases |pairs| - 1, 1
  {
    hide Redacted, BracketFree, Occurs, ShownByMarker, IsSecret;
    var v, rest := pairs[0].value, pairs[1..];
    var i: nat, j: nat :| i <= j <= |text| && !Occurs(v, text[i..j]) && Occurs(w, Redacted(text[i..j], rest));
    OutputShows(text[i..j], rest, w);
    if ShownByMarker(text[i..j], rest, w) {
      ShownLater(text, i, j, pairs, w);
    } else {
      OccursInStretch(w, text, i, j);
      SecretLater(pairs, w);
    }
  }

  lemma RedactedStep(text: string, pairs: seq<Pair>)
    requires Secrets(pairs) && pairs != []
    ensures Redacted(text, pairs) == Redacted(Replace(text, pairs[0].value, Marker(pairs[0].name)), pairs[1..])
  {
  }

  // ---------------------------------------------------------------- no leak

  ghost predicate NoLeak(text: string, pairs: seq<Pair>)
    requires Secrets(pairs)
  {
    forall i :: 0 <= i < |pairs| ==> !Occurs(pairs[i].value, Redacted(text, pairs))
  }

  /** No secret's value occurs in any marker. */
  ghost predicate MarkersClean(pairs: seq<Pair>) {
    forall i, j :: 0 <= i < |pairs| && 0 <= j < |pairs| ==> !Occurs(pairs[i].value, Marker(pairs[j].name))
  }

  lemma {:induction false} CleanStays(s: string, pairs: seq<Pair>)
    requires Secrets(pairs) && forall i :: 0 <= i < |pairs| ==> !Occurs(pairs[i].value, s)
    ensures Redacted(s, pairs) == s
    decreases |pairs|
  {
    hide Occurs, Marker, Replace;
    if pairs != [] {
      NoMatchNoChange(s, pairs[0].value, Marker(pairs[0].name));
      CleanStays(s, pairs[1..]);
    }
  }

  /** With bracket-free values, none of them in a marker, no secret occurs in any redacted text, not even across the
      border of a marker. */
  lemma CleanMarkersNeverLeak(text: string, pairs: seq<Pair>)
    requires Secrets(pairs) && AllBracketFree(pairs) && MarkersClean(pairs)
    ensures NoLeak(text, pairs)
  {
    hide Occurs, Marker, Redacted, BracketFree;
    forall j | 0 <= j < |pairs| ensures !Occurs(pairs[j].value, Redacted(text, pairs)) {
      if Occurs(pairs[j].value, Redacted(text, pairs)) {
        OutputShows(text, pairs, pairs[j].value);
        var i :| 0 <= i < |pairs| && Occurs(pairs[j].value, Redacted(Marker(pairs[i].name), pairs[i + 1..]));
        CleanStays(Marker(pairs[i].name), pairs[i + 1..]);
        assert false;
      }
    }
  }

  /** A string that is no shorter occurs only in itself. */
  lemma LongOccursInItself(w: string, s: string)
    requires ByteLen(w) >= ByteLen(s) && Occurs(w, s)
    ensures w == s
  {
    var i :| 0 <= i <= |s| && At(s, w, i);
    var j := i + |w|;
    BytesSplit(s, j);
    BytesSplit(s[..j], i);
    assert s[..j][i..] == w;
    assert ByteLen(s[..j][..i]) == 0 && ByteLen(s[j..]) == 0;
    assert s[..j][..i] == "" && s[j..] == "";
  }

  /** Longest first: a text that is one whole secret becomes the marker of the first pair with that value, redacted by
      the pairs after it. */
  lemma {:induction false} WholeSecret(pairs: seq<Pair>, i: nat)
    requires Secrets(pairs) && LongestFirst(pairs) && i < |pairs| && First(pairs, i)
    ensures Redacted(pairs[i].value, pairs) == Redacted(Marker(pairs[i].name), pairs[i + 1..])
    decreases i
  {
    hide Marker, ByteLen;
    var v := pairs[0].value;
    RedactedStep(pairs[i].value, pairs);
    hide Redacted;
    if i == 0 {
      WholeReplaced(v, Marker(pairs[0].name));
    } else {
      if Occurs(v, pairs[i].value) {
        LongOccursInItself(v, pairs[i].value);
        assert false;
      }
      NoMatchNoChange(pairs[i].value, v, Marker(pairs[0].name));
      assert pairs[1..][i - 1] == pairs[i] && pairs[1..][i..] == pairs[i + 1..];
      assert forall k :: 0 <= k < i - 1 ==> pairs[1..][k] == pairs[k + 1];
      WholeSecret(pairs[1..], i - 1);
    }
  }

  lemma WholeReplaced(v: string, m: string)
    requires v != ""
    ensures Replace(v, v, m) == m
  {
    assert v[|v|..] == "" && m + "" == m;
  }

  /** Redaction of bracket-free secrets never leaks on any text exactly when it does not leak on the secret
      values themselves. */
  lemma BracketFreeLeaksIff(pairs: seq<Pair>)
    requires Secrets(pairs) && LongestFirst(pairs) && AllBracketFree(pairs)
    ensures (forall text :: NoLeak(text, pairs)) <==> (forall i :: 0 <= i < |pairs| ==> NoLeak(pairs[i].value, pairs))
  {
    if forall i :: 0 <= i < |pairs| ==> NoLeak(pairs[i].value, pairs) {
      forall text ensures NoLeak(text, pairs) {
        NoLeakFromValues(text, pairs);
      }
    }
  }

  lemma NoLeakFromValues(text: string, pairs: seq<Pair>)
    requires Secrets(pairs) && LongestFirst(pairs) && AllBracketFree(pairs)
    requires forall i :: 0 <= i < |pairs| ==> NoLeak(pairs[i].value, pairs)
    ensures NoLeak(text, pairs)
  {
    hide Occurs, Marker, Redacted, BracketFree, LongestFirst, First;
    forall j | 0 <= j < |pairs| ensures !Occurs(pairs[j].value, Redacted(text, pairs)) {
      if Occurs(pairs[j].value, Redacted(text, pairs)) {
        OutputShows(text, pairs, pairs[j].value);
        var i :| 0 <= i < |pairs| && First(pairs, i) && Occurs(pairs[i].value, text)
          && Occurs(pairs[j].value, Redacted(Marker(pairs[i].name), pairs[i + 1..]));
        WholeSecret(pairs, i);
      }
    }
  }

  // ---------------------------------------------------------------- one secret, brackets or not

  /** A proper beginning of the value ends the marker: the rest of the value may follow it. */
  predicate RunsOutOf(v: string, m: string) {
    exists k :: 0 < k < |v| && k <= |m| && v[..k] == m[|m| - k..]
  }

  /** A proper beginning of the value may stand before a marker that goes on with the value, as far as one of them
      reaches. It is there to stand before a match only if it does not start an earlier one with it. */
  predicate RunsInto(v: string, m: string) {
    exists a: nat :: 0 < a < |v| && (v[a..] <= m || m <= v[a..]) && FirstFrom(v[..a] + v, v, 0) == a
  }

  predicate SelfLeaks(v: string, m: string) {
    Occurs(v, m) || RunsOutOf(v, m) || RunsInto(v, m)
  }

  lemma ShortStays(r: string, v: string, m: string)
    requires |r| < |v|
    ensures Replace(r, v, m) == r
  {
    NoMatchNoChange(r, v, m);
  }

  lemma OutOfLeaks(v: string, m: string) returns (text: string)
    requires v != "" && RunsOutOf(v, m)
    ensures Occurs(v, Replace(text, v, m))
  {
    var k :| 0 < k < |v| && k <= |m| && v[..k] == m[|m| - k..];
    hide Replace, Occurs;
    var r := v[k..];
    text := v + r;
    assert text[|v|..] == r;
    ReplaceMatch(text, v, m);
    ShortStays(r, v, m);
    OutOfShows(v, m, k);
  }

  lemma OutOfShows(v: string, m: string, k: nat)
    requires k < |v| && k <= |m| && v[..k] == m[|m| - k..]
    ensures Occurs(v, m + v[k..])
  {
    var i, out := |m| - k, m + v[k..];
    assert out[i..] == m[i..] + v[k..];
    assert v == v[..k] + v[k..];
    assert out[i..i + |v|] == v;
    OccursAt(v, out, i);
  }

  lemma FirstFromLonger(v: string, a: nat, r: string)
    requires 0 < a < |v| && FirstFrom(v[..a] + v, v, 0) == a
    ensures FirstFrom(v[..a] + v + r, v, 0) == a
  {
    var s, t := v[..a] + v, v[..a] + v + r;
    forall j | 0 <= j <= a ensures At(s, v, j) <==> At(t, v, j) {
      assert t[j..j + |v|] == s[j..j + |v|];
    }
    hide At;
  }

  lemma IntoReplaced(v: string, m: string, a: nat, r: string)
    requires 0 < a < |v| && FirstFrom(v[..a] + v, v, 0) == a && |r| < |v|
    ensures Replace(v[..a] + v + r, v, m) == v[..a] + (m + r)
  {
    var text := v[..a] + v + r;
    FirstFromLonger(v, a, r);
    ReplaceFirst(text, v, m);
    assert text[..a] == v[..a] && text[a + |v|..] == r;
    ShortStays(r, v, m);
  }

  lemma IntoShows(v: string, m: string, a: nat, r: string)
    requires 0 < a < |v| && (if m <= v[a..] then r == v[a + |m|..] else v[a..] <= m && r == "")
    ensures Occurs(v, v[..a] + (m + r))
  {
    var out := v[..a] + (m + r);
    if m <= v[a..] {
      assert v[a..] == m + r;
    } else {
      assert v[a..] == (m + r)[..|v| - a];
    }
    assert out[..|v|] == v[..a] + v[a..] == v;
    OccursAt(v, out, 0);
  }

  lemma IntoLeaks(v: string, m: string) returns (text: string)
    requires v != "" && RunsInto(v, m)
    ensures Occurs(v, Replace(text, v, m))
  {
    hide FirstFrom, Replace, Occurs;
    var a: nat :| 0 < a < |v| && (v[a..] <= m || m <= v[a..]) && FirstFrom(v[..a] + v, v, 0) == a;
    var r := if m <= v[a..] then v[a + |m|..] else "";
    text := v[..a] + v + r;
    IntoReplaced(v, m, a, r);
    IntoShows(v, m, a, r);
  }

  /** Where an occurrence across a first match lies, and what it says about value and marker. */
  lemma AcrossMarker(text: string, v: string, m: string, i: nat, rest: string, k: nat)
    requires v != "" && m != "" && i == FirstFrom(text, v, 0) < |text|
    requires k < i + |m| && At(text[..i] + (m + rest), v, k)
    ensures SelfLeaks(v, m)
  {
    var out := text[..i] + (m + rest);
    if i <= k {
      var o: nat := k - i;
      if o + |v| <= |m| {
        assert m[o..o + |v|] == out[k..k + |v|];
        OccursAt(v, m, o);
      } else {
        var n := |m| - o;
        assert v[..n] == out[k..k + n] == m[o..];
        assert RunsOutOf(v, m);
      }
    } else {
      BeforeMarker(text, v, m, i, rest, k);
    }
  }

  lemma BeforeMarker(text: string, v: string, m: string, i: nat, rest: string, k: nat)
    requires v != "" && m != "" && i == FirstFrom(text, v, 0) < |text|
    requires k < i && At(text[..i] + (m + rest), v, k)
    ensures RunsInto(v, m)
  {
    var out, a := text[..i] + (m + rest), i - k;
    if a >= |v| {
      assert text[k..k + |v|] == out[k..k + |v|];
      assert At(text, v, k);
      assert false;
    }
    assert v[..a] == out[k..i] == text[k..i];
    assert v[a..] == out[i..k + |v|] == (m + rest)[..|v| - a];
    MatchStaysFirst(text, v, i, k);
  }

  lemma AtInSlice(text: string, v: string, lo: nat, hi: nat, j: nat)
    requires lo + j + |v| <= hi <= |text|
    ensures At(text[lo..hi], v, j) <==> At(text, v, lo + j)
  {
    var tail := text[lo..hi];
    var x, y := tail[j..j + |v|], text[lo + j..lo + j + |v|];
    forall q | 0 <= q < |v| ensures x[q] == y[q] {
      assert x[q] == tail[j + q] && y[q] == text[lo + j + q];
    }
    assert x == y;
  }

  lemma MatchStaysFirst(text: string, v: string, i: nat, k: nat)
    requires v != "" && i == FirstFrom(text, v, 0) < |text| && k < i
    ensures FirstFrom(text[k..i] + v, v, 0) == i - k
  {
    var hi := i + |v|;
    assert At(text, v, i) && text[i..hi] == v;
    assert text[k..i] + v == text[k..hi];
    hide At, FirstFrom;
    forall j: nat | j <= i - k ensures At(text[k..hi], v, j) <==> At(text, v, k + j) {
      AtInSlice(text, v, k, hi, j);
    }
    assert At(text[k..hi], v, i - k);
    var f := FirstFrom(text[k..hi], v, 0);
    assert f < i - k ==> At(text, v, k + f);
  }

  lemma OccursAfter(w: string, a: string, b: string, k: int)
    requires At(a + b, w, k) && k >= |a|
    ensures Occurs(w, b)
  {
    assert (a + b)[k..k + |w|] == b[k - |a|..k - |a| + |w|];
    OccursAt(w, b, k - |a|);
  }

  /** A value that comes out of its own replacement meets the marker in one of the three ways. */
  lemma {:induction false} LeakIsSelfLeak(text: string, v: string, m: string)
    requires v != "" && m != "" && Occurs(v, Replace(text, v, m))
    ensures SelfLeaks(v, m)
    decreases |text|
  {
    hide SelfLeaks, FirstFrom, Replace;
    var i := FirstFrom(text, v, 0);
    ReplaceFirst(text, v, m);
    var out := Replace(text, v, m);
    var k :| 0 <= k <= |out| && At(out, v, k);
    if i < |text| {
      var rest := Replace(text[i + |v|..], v, m);
      if k < i + |m| {
        AcrossMarker(text, v, m, i, rest, k);
      } else {
        assert out == text[..i] + m + rest;
        OccursAfter(v, text[..i] + m, rest, k);
        LeakIsSelfLeak(text[i + |v|..], v, m);
      }
    }
  }

  lemma RedactedOne(text: string, p: Pair)
    requires p.value != ""
    ensures Redacted(text, [p]) == Replace(text, p.value, Marker(p.name))
  {
    RedactedStep(text, [p]);
    assert [p][1..] == [];
  }

  /** One secret, whatever its value: some text leaks it exactly when the value occurs in its own marker or meets one of
      the marker's ends so that a text around it can complete the value. */
  lemma OneSecretIff(p: Pair)
    requires p.value != ""
    ensures (forall text :: NoLeak(text, [p])) <==> !SelfLeaks(p.value, Marker(p.name))
  {
    var v, m := p.value, Marker(p.name);
    MarkerBracketed(p.name);
    hide Marker, Occurs, Replace, RunsInto, RunsOutOf, Redacted;
    if SelfLeaks(v, m) {
      var text := v;
      if Occurs(v, m) {
        WholeReplaced(v, m);
      } else if RunsOutOf(v, m) {
        text := OutOfLeaks(v, m);
      } else {
        text := IntoLeaks(v, m);
      }
      RedactedOne(text, p);
      assert [p][0].value == v;
      assert !NoLeak(text, [p]);
    } else {
      forall text ensures NoLeak(text, [p]) {
        RedactedOne(text, p);
        if Occurs(v, Replace(text, v, m)) {
          LeakIsSelfLeak(text, v, m);
        }
      }
    }
  }

  lemma MeetsAtEnds(v: string, m: string)
    requires m != ""
    ensures RunsOutOf(v, m) ==> m[|m| - 1] in v
    ensures RunsInto(v, m) ==> m[0] in v
  {
    if RunsOutOf(v, m) {
      var k :| 0 < k < |v| && k <= |m| && v[..k] == m[|m| - k..];
      assert v[..k][k - 1] == m[|m| - 1];
    }
    hide RunsOutOf;
    MeetsAtStart(v, m);
  }

  lemma MeetsAtStart(v: string, m: string)
    requires m != ""
    ensures RunsInto(v, m) ==> m[0] in v
  {
    hide FirstFrom;
    if RunsInto(v, m) {
      var a: nat :| 0 < a < |v| && (v[a..] <= m || m <= v[a..]) && FirstFrom(v[..a] + v, v, 0) == a;
      assert v[a..][0] == m[0];
    }
  }

  /** Without brackets only the first way is left. */
  lemma BracketFreeSelfLeaks(v: string, name: string)
    requires BracketFree(v)
    ensures SelfLeaks(v, Marker(name)) <==> Occurs(v, Marker(name))
  {
    MarkerBracketed(name);
    hide Marker, Occurs, RunsInto, RunsOutOf;
    MeetsAtEnds(v, Marker(name));
  }

  lemma RedactedTwo(text: string, first: Pair, second: Pair)
    requires first.value != "" && second.value != ""
    ensures Redacted(text, [first, second]) ==
      Replace(Replace(text, first.value, Marker(first.name)), second.value, Marker(second.name))
  {
    var next := Replace(text, first.value, Marker(first.name));
    RedactedStep(text, [first, second]);
    RedactedStep(next, [second]);
    assert [first, second][1..] == [second] && [second][1..] == [];
  }

  lemma ShortInLong(m: string)
    ensures Replace("abc", "ab", m) == m + "c"
  {
    assert "abc"[2..] == "c" && "c"[1..] == "";
    assert Replace("c", "ab", m) == "c";
  }

  /** Shortest first, the rest of a longer secret would be left in the open. */
  lemma OrderMatters()
    ensures Redacted("abc", [Pair("x", "ab"), Pair("y", "abc")]) == Marker("x") + "c"
    ensures Redacted("abc", [Pair("y", "abc"), Pair("x", "ab")]) == Marker("y")
  {
    var m, n := Marker("x"), Marker("y");
    assert 'a' !in m + "c" && 'a' !in n;
    hide Redacted, Replace, Marker, Occurs;
    RedactedTwo("abc", Pair("x", "ab"), Pair("y", "abc"));
    ShortInLong(m);
    NoMatchWithoutChar(m + "c", "abc");
    NoMatchNoChange(m + "c", "abc", n);
    RedactedTwo("abc", Pair("y", "abc"), Pair("x", "ab"));
    WholeReplaced("abc", n);
    NoMatchWithoutChar(n, "ab");
    NoMatchNoChange(n, "ab", m);
  }

  lemma OccursShowsChar(w: string, s: string)
    requires Occurs(w, s) && w != ""
    ensures w[0] in s
  {
    var i :| 0 <= i <= |s| && At(s, w, i);
    assert s[i..i + |w|][0] == s[i];
  }

  lemma NoMatchWithoutChar(s: string, w: string)
    requires w != "" && w[0] !in s
    ensures !Occurs(w, s)
  {
    if Occurs(w, s) {
      OccursShowsChar(w, s);
    }
  }

  /** A value with a bracket can leak although no marker holds it; two opening brackets meet the marker's border and
      yet never leak. */
  lemma BracketsMayLeak(name: string)
    requires '[' !in name && 'a' !in name
    ensures !Occurs("a[", Marker(name)) && SelfLeaks("a[", Marker(name))
    ensures !SelfLeaks("[[", Marker(name))
  {
    var v, m := "a[", Marker(name);
    assert 'a' !in m;
    NoMatchWithoutChar(m, v);
    hide Occurs;
    var s := v[..1] + v;
    assert s == ['a', 'a', '['] && s[0..2] == ['a', 'a'] && s[1..3] == ['a', '['];
    assert !At(s, v, 0) && At(s, v, 1);
    assert v[1..] <= m && FirstFrom(s, v, 0) == 1;
    assert RunsInto(v, m);
    TwoBrackets(m);
  }

  lemma SecondChar(w: string, s: string)
    requires |w| == 2
    ensures Occurs(w, s) ==> exists i :: 1 <= i < |s| && s[i] == w[1]
  {
    if Occurs(w, s) {
      var i :| 0 <= i <= |s| && At(s, w, i);
      assert s[i..i + 2][1] == s[i + 1];
    }
  }

  lemma TwoBrackets(m: string)
    requires |m| > 1 && forall i :: 0 < i < |m| ==> m[i] != '['
    ensures !SelfLeaks("[[", m)
  {
    var v := "[[";
    SecondChar(v, m);
    MeetsAtEnds(v, m);
    assert At(v[..1] + v, v, 0);
  }
}
