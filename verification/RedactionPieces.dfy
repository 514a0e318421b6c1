/** What redaction does to a text (internal/secrets/secrets.go), told by the pieces between the secrets in it. */
module RedactionPieces {
  import opened Text
  import opened Redaction
  import opened RedactionGuarantees

  /** The pieces with a separator between any two. */
  function Between(pieces: seq<string>, sep: string): (r: string) {
    if pieces == [] then "" else if |pieces| == 1 then pieces[0] else pieces[0] + sep + Between(pieces[1..], sep)
  }

  /** The value stands behind each piece but the last, and nowhere before: not in a piece, not across its end. */
  ghost predicate CutAtValue(pieces: seq<string>, v: string) {
    && pieces != []
    && (forall i, k :: 0 <= i < |pieces| - 1 && At(pieces[i] + v, v, k) ==> k == |pieces[i]|)
    && !Occurs(v, pieces[|pieces| - 1])
  }

  /** The text is cut at the occurrences of the value, leftmost first, and put together again with the marker. */
  ghost predicate ReplacedAll(before: string, after: string, v: string, m: string) {
    exists pieces: seq<string> :: CutAtValue(pieces, v) && before == Between(pieces, v) && after == Between(pieces, m)
  }

  lemma OnePiece(text: string, v: string)
    requires !Occurs(v, text)
    ensures CutAtValue([text], v) && Between([text], v) == text
  {
    hide Occurs;
  }

  lemma MorePieces(piece: string, pieces: seq<string>, v: string)
    requires CutAtValue(pieces, v) && forall k :: At(piece + v, v, k) ==> k == |piece|
    ensures CutAtValue([piece] + pieces, v)
    ensures forall sep :: Between([piece] + pieces, sep) == piece + sep + Between(pieces, sep)
  {
    hide Occurs, At;
    var all := [piece] + pieces;
    assert all[1..] == pieces;
    assert all[|all| - 1] == pieces[|pieces| - 1];
    forall i, k | 0 <= i < |all| - 1 && At(all[i] + v, v, k) ensures k == |all[i]| {
      assert i > 0 ==> all[i] == pieces[i - 1];
    }
  }

  lemma AtLeft(text: string, v: string, i: nat, k: int)
    requires i + |v| <= |text| && text[i..i + |v|] == v && At(text[..i] + v, v, k)
    ensures At(text, v, k) && k <= i
  {
    assert text[..i] + v == text[..i + |v|];
    assert text[..i + |v|][k..k + |v|] == text[k..k + |v|];
  }

  lemma FirstIsFirst(text: string, v: string)
    requires v != "" && FirstFrom(text, v, 0) < |text|
    ensures var i := FirstFrom(text, v, 0);
      text == text[..i] + v + text[i + |v|..] && forall k :: At(text[..i] + v, v, k) ==> k == i
  {
    hide FirstFrom;
    var i := FirstFrom(text, v, 0);
    assert text[i..i + |v|] == v;
    forall k | At(text[..i] + v, v, k) ensures k == i {
      AtLeft(text, v, i, k);
    }
  }

  lemma {:induction false} ReplaceTells(text: string, v: string, m: string) returns (pieces: seq<string>)
    requires v != ""
    ensures CutAtValue(pieces, v) && text == Between(pieces, v) && Replace(text, v, m) == Between(pieces, m)
    decreases |text|
  {
    hide FirstFrom, Replace, At, Occurs;
    var i := FirstFrom(text, v, 0);
    ReplaceFirst(text, v, m);
    if i == |text| {
      NowhereFirst(text, v);
      OnePiece(text, v);
      pieces := [text];
    } else {
      FirstIsFirst(text, v);
      pieces := ReplaceTells(text[i + |v|..], v, m);
      MorePieces(text[..i], pieces, v);
      assert text[..i] + (m + Between(pieces, m)) == text[..i] + m + Between(pieces, m);
      pieces := [text[..i]] + pieces;
    }
  }

  lemma NowhereFirst(text: string, v: string)
    requires v != "" && FirstFrom(text, v, 0) == |text|
    ensures !Occurs(v, text)
  {
    hide FirstFrom;
  }

  /** Redaction goes through the secrets in order; in what is left each is replaced by a marker that names it. */
  lemma {:induction false} RedactTells(text: string, pairs: seq<Pair>) returns (texts: seq<string>)
    requires Secrets(pairs)
    ensures |texts| == |pairs| + 1 && texts[0] == text && texts[|pairs|] == Redacted(text, pairs)
    ensures forall i :: 0 <= i < |pairs| ==>
        ReplacedAll(texts[i], texts[i + 1], pairs[i].value, "[REDACTED:" + pairs[i].name + "]")
    decreases |pairs|
  {
    texts := [text];
    if pairs != [] {
      RedactedStep(text, pairs);
      var v, m := pairs[0].value, "[REDACTED:" + pairs[0].name + "]";
      assert Marker(pairs[0].name) == m;
      hide Redacted, Replace, Marker, ReplacedAll;
      var next := Replace(text, v, m);
      MarkerReplaced(text, v, m);
      var rest := RedactTells(next, pairs[1..]);
      texts := [text] + rest;
      forall i | 0 <= i < |pairs|
        ensures ReplacedAll(texts[i], texts[i + 1], pairs[i].value, "[REDACTED:" + pairs[i].name + "]")
      {
        if i > 0 {
          assert pairs[1..][i - 1] == pairs[i];
          assert ReplacedAll(rest[i - 1], rest[i], pairs[i].value, "[REDACTED:" + pairs[i].name + "]");
        }
      }
    }
  }

  lemma MarkerReplaced(text: string, v: string, m: string)
    requires v != ""
    ensures ReplacedAll(text, Replace(text, v, m), v, m)
  {
    var pieces := ReplaceTells(text, v, m);
  }

  /** A text that holds no secret stays as it is. */
  lemma {:induction false} NoSecretNoChange(text: string, pairs: seq<Pair>)
    requires Secrets(pairs) && forall i :: 0 <= i < |pairs| ==> !Occurs(pairs[i].value, text)
    ensures Redacted(text, pairs) == text
    decreases |pairs|
  {
    hide Occurs;
    if pairs != [] {
      RedactedStep(text, pairs);
      NoMatchNoChange(text, pairs[0].value, Marker(pairs[0].name));
      NoSecretNoChange(text, pairs[1..]);
    }
  }
}
