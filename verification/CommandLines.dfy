/** Every way to write a command line, and the tokens the splitter of internal/tools/exec.go makes of it. */
module CommandLines {
  import opened Text
  import opened ShellWords

  /** A character inside double quotes, with a backslash before it or not. */
  datatype Inner = Inner(escaped: bool, c: char)

  /** The pieces a word is written in: a bare character, one behind a backslash, and two kinds of quotes. */
  datatype Piece = Bare(c: char) | Escape(c: char) | Single(text: string) | Double(inner: seq<Inner>)

  type Word = seq<Piece>

  predicate PieceOk(p: Piece) {
    match p
    case Bare(c) => !IsSpace(c) && c != '\\' && c != '\'' && c != '"'
    case Escape(_) => true
    case Single(text) => '\'' !in text
    case Double(inner) => forall i :: 0 <= i < |inner| ==> inner[i].escaped || (inner[i].c != '\\' && inner[i].c != '"')
  }

  predicate WordOk(w: Word) {
    forall i :: 0 <= i < |w| ==> PieceOk(w[i])
  }

  // ---------------------------------------------------------------- how it is written

  function WrittenInner(inner: seq<Inner>): (r: string) {
    if inner == [] then ""
      else (if inner[0].escaped then ['\\', inner[0].c] else [inner[0].c]) + WrittenInner(inner[1..])
  }

  function Written(p: Piece): (r: string) {
    match p
    case Bare(c) => [c]
    case Escape(c) => ['\\', c]
    case Single(text) => ['\''] + text + ['\'']
    case Double(inner) => ['"'] + WrittenInner(inner) + ['"']
  }

  function WrittenWord(w: Word): (r: string) {
    if w == [] then "" else Written(w[0]) + WrittenWord(w[1..])
  }

  /** `gaps[i]` is the white space before word i, the last one is what follows the last word. */
  function WrittenLine(gaps: seq<string>, words: seq<Word>): (r: string)
    requires |gaps| == |words| + 1
  {
    if words == [] then gaps[0] else gaps[0] + WrittenWord(words[0]) + WrittenLine(gaps[1..], words[1..])
  }

  /** Words stand apart; at the ends of the line white space may be missing. */
  predicate GapsOk(gaps: seq<string>) {
    (forall i :: 0 <= i < |gaps| ==> Blank(gaps[i])) && forall i :: 0 < i < |gaps| - 1 ==> gaps[i] != ""
  }

  // ---------------------------------------------------------------- what it means

  function Means(p: Piece): (r: string) {
    match p
    case Bare(c) => [c]
    case Escape(c) => [c]
    case Single(text) => text
    case Double(inner) => seq(|inner|, i requires 0 <= i < |inner| => inner[i].c)
  }

  function WordMeans(w: Word): (r: string) {
    if w == [] then "" else Means(w[0]) + WordMeans(w[1..])
  }

  /** The words that mean something. */
  function Meanings(words: seq<Word>): (r: seq<string>) {
    if words == [] then [] else (if WordMeans(words[0]) == "" then [] else [WordMeans(words[0])]) + Meanings(words[1..])
  }

  // ---------------------------------------------------------------- scanning

  lemma {:induction false} ScanSingle(s: Scanner, text: string)
    requires s.inSingle && !s.inDouble && !s.escaped && '\'' !in text
    ensures Scan(s, text) == s.(current := s.current + text)
    decreases |text|
  {
    if text == "" {
      assert s.current + text == s.current;
    } else {
      ScanSingle(s.(current := s.current + [text[0]]), text[1..]);
      assert s.current + [text[0]] + text[1..] == s.current + text;
    }
  }

  lemma {:induction false} ScanDouble(s: Scanner, inner: seq<Inner>)
    requires s.inDouble && !s.inSingle && !s.escaped && PieceOk(Piece.Double(inner))
    ensures Scan(s, WrittenInner(inner)) == s.(current := s.current + Means(Piece.Double(inner)))
    decreases |inner|
  {
    hide Scan, ScanChar, Means;
    InnerParts(inner);
    if inner == [] {
      ScanNothing(s);
      assert s.current + "" == s.current;
    } else {
      var head := if inner[0].escaped then ['\\', inner[0].c] else [inner[0].c];
      var next := s.(current := s.current + [inner[0].c]);
      ScanHeadInner(s, inner[0]);
      ScanDouble(next, inner[1..]);
      hide PieceOk;
      ScanConcat(s, head, WrittenInner(inner[1..]));
      var rest := Means(Piece.Double(inner[1..]));
      assert s.current + [inner[0].c] + rest == s.current + ([inner[0].c] + rest);
    }
  }

  lemma InnerParts(inner: seq<Inner>)
    ensures inner == [] ==> Means(Piece.Double(inner)) == ""
    ensures inner != [] ==> Means(Piece.Double(inner)) == [inner[0].c] + Means(Piece.Double(inner[1..]))
  {
  }

  lemma ScanTwo(s: Scanner, a: char, b: char)
    ensures Scan(s, [a]) == ScanChar(s, a)
    ensures Scan(s, [a, b]) == ScanChar(ScanChar(s, a), b)
  {
    hide ScanChar, Scan;
    ScanOne(s, a);
    ScanOne(ScanChar(s, a), b);
    ScanConcat(s, [a], [b]);
    assert [a] + [b] == [a, b];
  }

  lemma ScanHeadInner(s: Scanner, c: Inner)
    requires s.inDouble && !s.inSingle && !s.escaped && (c.escaped || (c.c != '\\' && c.c != '"'))
    ensures Scan(s, if c.escaped then ['\\', c.c] else [c.c]) == s.(current := s.current + [c.c])
  {
    if c.escaped {
      ScanTwo(s, '\\', c.c);
    } else {
      ScanTwo(s, c.c, c.c);
    }
  }

  lemma ScanPiece(s: Scanner, p: Piece)
    requires Outside(s) && PieceOk(p)
    ensures Scan(s, Written(p)) == s.(current := s.current + Means(p))
  {
    match p
    case Bare(c) => ScanTwo(s, c, c);
    case Escape(c) => ScanTwo(s, '\\', c);
    case Single(text) =>
      var open := s.(inSingle := true);
      ScanTwo(s, '\'', '\'');
      ScanSingle(open, text);
      ScanTwo(open.(current := s.current + text), '\'', '\'');
      ScanConcat(s, ['\''] + text, ['\'']);
      ScanConcat(s, ['\''], text);
    case Double(inner) =>
      var open := s.(inDouble := true);
      ScanTwo(s, '"', '"');
      ScanDouble(open, inner);
      ScanTwo(open.(current := s.current + Means(p)), '"', '"');
      ScanConcat(s, ['"'] + WrittenInner(inner), ['"']);
      ScanConcat(s, ['"'], WrittenInner(inner));
  }

  lemma {:induction false} ScanWord(s: Scanner, w: Word)
    requires Outside(s) && WordOk(w)
    ensures Scan(s, WrittenWord(w)) == s.(current := s.current + WordMeans(w))
    decreases |w|
  {
    hide Scan, Written, Means, PieceOk;
    if w == [] {
      ScanNothing(s);
      assert s.current + "" == s.current;
    } else {
      var next := s.(current := s.current + Means(w[0]));
      ScanPiece(s, w[0]);
      ScanConcat(s, Written(w[0]), WrittenWord(w[1..]));
      ScanWord(next, w[1..]);
      assert s.current + Means(w[0]) + WordMeans(w[1..]) == s.current + (Means(w[0]) + WordMeans(w[1..]));
    }
  }

  lemma ScanNothing(s: Scanner)
    ensures Scan(s, "") == s
  {
  }

  lemma {:induction false} ScanGap(s: Scanner, gap: string)
    requires Outside(s) && Blank(gap)
    ensures Scan(s, gap) == if gap == "" then s else Flush(s)
    decreases |gap|
  {
    if gap != "" {
      ScanGap(Flush(s), gap[1..]);
      assert !IsSpace('\\') && !IsSpace('\'') && !IsSpace('"');
    }
  }

  /** A word and the white space before it. */
  lemma ScanGapAndWord(s: Scanner, gap: string, w: Word)
    requires Outside(s) && Blank(gap) && WordOk(w) && (s.current == "" || gap != "")
    ensures Scan(s, gap + WrittenWord(w)) == Flush(s).(current := WordMeans(w))
  {
    hide Scan, Written, WordMeans, WordOk, Blank;
    ScanGap(s, gap);
    ScanWord(Flush(s), w);
    ScanConcat(s, gap, WrittenWord(w));
    assert "" + WordMeans(w) == WordMeans(w);
  }

  /** From a point between words, the rest of the line adds the words that mean something. */
  lemma {:induction false} ScanLine(s: Scanner, gaps: seq<string>, words: seq<Word>)
    requires Outside(s) && |gaps| == |words| + 1 && (forall i :: 0 <= i < |words| ==> WordOk(words[i]))
    requires forall i :: 0 <= i < |gaps| ==> Blank(gaps[i])
    requires forall i :: 0 < i < |gaps| - 1 ==> gaps[i] != ""
    requires s.current == "" || gaps[0] != "" || words == []
    ensures Flush(Scan(s, WrittenLine(gaps, words))).tokens == Flush(s).tokens + Meanings(words)
    decreases |words|
  {
    hide Scan, WordMeans, WrittenWord, WordOk, Blank;
    if words == [] {
      ScanGap(s, gaps[0]);
      assert Flush(s).tokens + [] == Flush(s).tokens;
    } else {
      var next := Flush(s).(current := WordMeans(words[0]));
      var rest := WrittenLine(gaps[1..], words[1..]);
      ScanGapAndWord(s, gaps[0], words[0]);
      ScanConcat(s, gaps[0] + WrittenWord(words[0]), rest);
      ScanLine(next, gaps[1..], words[1..]);
      var one := if WordMeans(words[0]) == "" then [] else [WordMeans(words[0])];
      assert Flush(next).tokens == Flush(s).tokens + one;
      assert Flush(s).tokens + one + Meanings(words[1..]) == Flush(s).tokens + (one + Meanings(words[1..]));
    }
  }

  /** However a line of words is written, its tokens are what the words mean, in order, without the empty ones. */
  lemma TokensAreMeanings(gaps: seq<string>, words: seq<Word>)
    requires |gaps| == |words| + 1 && GapsOk(gaps) && forall i :: 0 <= i < |words| ==> WordOk(words[i])
    ensures Tokens(WrittenLine(gaps, words)) == Meanings(words)
  {
    hide Scan, Meanings, WrittenLine;
    ScanLine(FRESH, gaps, words);
    assert [] + Meanings(words) == Meanings(words);
  }
}
