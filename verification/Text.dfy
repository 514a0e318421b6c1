/** Strings as the repository sees them: Go runes are `char`, and white space is Unicode's White_Space
    property, the set strings.TrimSpace and unicode.IsSpace use. */
module Text {

  predicate IsSpace(c: char) {
    || '\t' <= c <= '\r'
    || c == ' '
    || c == '\U{0085}'
    || c == '\U{00A0}'
    || c == '\U{1680}'
    || '\U{2000}' <= c <= '\U{200A}'
    || c == '\U{2028}'
    || c == '\U{2029}'
    || c == '\U{202F}'
    || c == '\U{205F}'
    || c == '\U{3000}'
  }

  predicate Blank(s: string) {
    forall i :: 0 <= i < |s| ==> IsSpace(s[i])
  }

  function TrimLeft(s: string): (r: string)
    ensures |r| <= |s|
    ensures r != [] ==> !IsSpace(r[0])
  {
    if s == [] || !IsSpace(s[0]) then s else TrimLeft(s[1..])
  }

  function TrimRight(s: string): (r: string)
    ensures |r| <= |s|
    ensures r == s[..|r|]
    ensures r != [] ==> !IsSpace(r[|r| - 1])
  {
    if s == [] || !IsSpace(s[|s| - 1]) then s else TrimRight(s[..|s| - 1])
  }

  function TrimSpace(s: string): (r: string)
    ensures |r| <= |s|
    ensures r != [] ==> !IsSpace(r[0]) && !IsSpace(r[|r| - 1])
  {
    TrimRight(TrimLeft(s))
  }

  /** The characters of `s` that are not white space, in order. */
  function Solid(s: string): (r: string) {
    if s == [] then [] else (if IsSpace(s[0]) then [] else [s[0]]) + Solid(s[1..])
  }

  lemma {:induction false} SolidConcat(a: string, b: string)
    ensures Solid(a + b) == Solid(a) + Solid(b)
  {
    if a == [] {
      assert a + b == b;
    } else {
      assert (a + b)[1..] == a[1..] + b;
      SolidConcat(a[1..], b);
    }
  }

  lemma {:induction false} SolidTrimLeft(s: string)
    ensures Solid(TrimLeft(s)) == Solid(s)
  {
    if s != [] && IsSpace(s[0]) {
      SolidTrimLeft(s[1..]);
    }
  }

  lemma {:induction false} SolidTrimRight(s: string)
    ensures Solid(TrimRight(s)) == Solid(s)
  {
    if s != [] && IsSpace(s[|s| - 1]) {
      SolidTrimRight(s[..|s| - 1]);
      assert s == s[..|s| - 1] + [s[|s| - 1]];
      SolidConcat(s[..|s| - 1], [s[|s| - 1]]);
    }
  }

  /** Trimming removes white space only. */
  lemma SolidTrim(s: string)
    ensures Solid(TrimSpace(s)) == Solid(s)
  {
    SolidTrimLeft(s);
    SolidTrimRight(TrimLeft(s));
  }

  lemma {:induction false} BlankIffSolidEmpty(s: string)
    ensures Blank(s) <==> Solid(s) == []
  {
    if s != [] {
      BlankIffSolidEmpty(s[1..]);
      if Blank(s[1..]) && IsSpace(s[0]) {
        forall i | 0 <= i < |s| ensures IsSpace(s[i]) {
          assert i > 0 ==> s[i] == s[1..][i - 1];
        }
      }
      if Blank(s) {
        assert forall i :: 0 <= i < |s[1..]| ==> s[1..][i] == s[i + 1];
      }
    }
  }

  lemma TrimEmptyIffBlank(s: string)
    ensures TrimSpace(s) == [] <==> Blank(s)
  {
    SolidTrim(s);
    BlankIffSolidEmpty(s);
    BlankIffSolidEmpty(TrimSpace(s));
    if TrimSpace(s) != [] {
      assert !IsSpace(TrimSpace(s)[0]);
    }
  }

  /** A string that neither starts nor ends with white space is its own trim. */
  lemma TrimFixed(s: string)
    requires s == [] || (!IsSpace(s[0]) && !IsSpace(s[|s| - 1]))
    ensures TrimSpace(s) == s
  {
  }

  function Concat(parts: seq<string>): (s: string) {
    if parts == [] then "" else parts[0] + Concat(parts[1..])
  }

  lemma ConcatCons(part: string, parts: seq<string>)
    ensures Concat([part] + parts) == part + Concat(parts)
  {
    assert ([part] + parts)[1..] == parts;
  }

  /** Two joins read the same exactly if they are the same or one boundary lies inside the other one's part. */
  lemma JoinsMeetIff(a: string, b: string, c: string, d: string, sep: char)
    ensures a + [sep] + b == c + [sep] + d <==>
      || (a == c && b == d)
      || (exists x :: c == a + [sep] + x && b == x + [sep] + d)
      || (exists x :: a == c + [sep] + x && d == x + [sep] + b)
  {
    if a + [sep] + b == c + [sep] + d {
      if |a| <= |c| {
        JoinMeets(a, b, c, d, sep);
      } else {
        JoinMeets(c, d, a, b, sep);
      }
    }
    forall x | c == a + [sep] + x && b == x + [sep] + d ensures a + [sep] + b == c + [sep] + d {
    }
    forall x | a == c + [sep] + x && d == x + [sep] + b ensures a + [sep] + b == c + [sep] + d {
    }
  }

  lemma JoinMeets(a: string, b: string, c: string, d: string, sep: char)
    requires a + [sep] + b == c + [sep] + d && |a| <= |c|
    ensures (a == c && b == d) || (exists x :: c == a + [sep] + x && b == x + [sep] + d)
  {
    var s, t := a + [sep] + b, c + [sep] + d;
    assert s[..|a|] == a && t[..|a|] == c[..|a|];
    assert s[|a| + 1..] == b && t[|c| + 1..] == d;
    if |a| < |c| {
      var x := c[|a| + 1..];
      assert c[|a|] == t[|a|] == s[|a|] == sep;
      assert c == a + [sep] + x;
      assert t[|a| + 1..] == x + [sep] + d;
    }
  }

  /** utf8.RuneLen */
  function RuneLen(c: char): (n: nat)
    ensures 1 <= n <= 4
  {
    if c as int < 0x80 then 1 else if c as int < 0x800 then 2 else if c as int < 0x1_0000 then 3 else 4
  }

  /** A string's length in UTF-8. */
  function ByteLen(s: string): (n: nat) {
    if s == "" then 0 else RuneLen(s[0]) + ByteLen(s[1..])
  }

  lemma {:induction false} BytesConcat(a: string, b: string)
    ensures ByteLen(a + b) == ByteLen(a) + ByteLen(b)
  {
    if a == "" {
      assert a + b == b;
    } else {
      assert (a + b)[1..] == a[1..] + b;
      BytesConcat(a[1..], b);
    }
  }

  lemma BytesSplit(s: string, n: nat)
    requires n <= |s|
    ensures ByteLen(s) == ByteLen(s[..n]) + ByteLen(s[n..])
  {
    assert s == s[..n] + s[n..];
    BytesConcat(s[..n], s[n..]);
  }

  predicate At(s: string, token: string, i: int) {
    0 <= i <= |s| - |token| && s[i..i + |token|] == token
  }

  predicate Occurs(w: string, s: string) {
    exists i :: 0 <= i <= |s| && At(s, w, i)
  }
}
