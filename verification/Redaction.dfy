/** Redacting secrets from a text (internal/secrets/secrets.go): every value, longest first, is replaced by a marker
    that names it. */
module Redaction {
  import opened Text

  datatype Pair = Pair(name: string, value: string)

  function Marker(name: string): (m: string) {
    "[REDACTED:" + name + "]"
  }

  /** strings.ReplaceAll: leftmost matches that do not overlap. */
  function Replace(text: string, v: string, m: string): (r: string)
    requires v != ""
  {
    if text == "" then ""
    else if v <= text then m + Replace(text[|v|..], v, m)
    else [text[0]] + Replace(text[1..], v, m)
  }

  ghost predicate Secrets(pairs: seq<Pair>) {
    forall i :: 0 <= i < |pairs| ==> pairs[i].value != ""
  }

  function Redacted(text: string, pairs: seq<Pair>): (r: string)
    requires Secrets(pairs)
    decreases |pairs|
  {
    if pairs == [] then text else Redacted(Replace(text, pairs[0].value, Marker(pairs[0].name)), pairs[1..])
  }

  predicate LongestFirst(pairs: seq<Pair>) {
    forall i, j :: 0 <= i < j < |pairs| ==> ByteLen(pairs[i].value) >= ByteLen(pairs[j].value)
  }

  /** The pairs of the names no longer in `todo`, each once, empty values left out. */
  ghost predicate Collected(pairs: seq<Pair>, data: map<string, string>, todo: set<string>) {
    && (forall i :: 0 <= i < |pairs| ==>
          pairs[i].name in data && pairs[i].name !in todo && data[pairs[i].name] == pairs[i].value != "")
    && (forall name :: name in data && name !in todo && data[name] != "" ==> Pair(name, data[name]) in pairs)
    && (forall i, j :: 0 <= i < j < |pairs| ==> pairs[i].name != pairs[j].name)
  }

  /** The store's secrets with a value, longest first; equal lengths come in any order. */
  ghost predicate Lists(pairs: seq<Pair>, data: map<string, string>) {
    LongestFirst(pairs) && Collected(pairs, data, {})
  }

  // ---------------------------------------------------------------- the code

  /** One more pair for sort.Slice to place. */
  method Insert(sorted: seq<Pair>, p: Pair) returns (r: seq<Pair>)
    requires LongestFirst(sorted)
    ensures LongestFirst(r)
    ensures exists k :: 0 <= k <= |sorted| && r == sorted[..k] + [p] + sorted[k..]
  {
    hide ByteLen;
    var k := 0;
    while k < |sorted| && ByteLen(sorted[k].value) >= ByteLen(p.value)
      invariant 0 <= k <= |sorted|
      invariant forall i :: 0 <= i < k ==> ByteLen(sorted[i].value) >= ByteLen(p.value)
    {
      k := k + 1;
    }
    r := sorted[..k] + [p] + sorted[k..];
  }

  method SortedPairs(data: map<string, string>) returns (pairs: seq<Pair>)
    ensures Lists(pairs, data)
  {
    pairs := [];
    var todo := data.Keys;
    hide LongestFirst, Collected;
    NothingCollected(data);
    while todo != {}
      invariant todo <= data.Keys
      invariant LongestFirst(pairs) && Collected(pairs, data, todo)
      decreases todo
    {
      var name :| name in todo;
      if data[name] == "" {
        EmptySkipped(pairs, data, todo, name);
      } else {
        var before := pairs;
        pairs := Insert(before, Pair(name, data[name]));
        ghost var k :| 0 <= k <= |before| && pairs == before[..k] + [Pair(name, data[name])] + before[k..];
        InsertedCollected(before, data, todo, name, k);
      }
      todo := todo - {name};
    }
  }

  lemma NothingCollected(data: map<string, string>)
    ensures LongestFirst([]) && Collected([], data, data.Keys)
  {
  }

  lemma EmptySkipped(pairs: seq<Pair>, data: map<string, string>, todo: set<string>, name: string)
    requires Collected(pairs, data, todo) && name in data && data[name] == ""
    ensures Collected(pairs, data, todo - {name})
  {
  }

  lemma InsertedElements(before: seq<Pair>, k: nat, p: Pair)
    requires k <= |before|
    ensures var pairs := before[..k] + [p] + before[k..];
            && (forall q :: q in before ==> q in pairs)
            && p in pairs
            && forall i :: 0 <= i < |pairs| ==>
              pairs[i] == if i < k then before[i] else if i == k then p else before[i - 1]
  {
    assert before == before[..k] + before[k..];
    assert (before[..k] + [p] + before[k..])[k] == p;
  }

  lemma InsertedCollected(before: seq<Pair>, data: map<string, string>, todo: set<string>, name: string, k: nat)
    requires Collected(before, data, todo) && name in todo && name in data && data[name] != "" && k <= |before|
    ensures Collected(before[..k] + [Pair(name, data[name])] + before[k..], data, todo - {name})
  {
    InsertedElements(before, k, Pair(name, data[name]));
  }

  method Redact(data: map<string, string>, text: string) returns (result: string)
    ensures exists pairs :: Lists(pairs, data) && result == Redacted(text, pairs)
  {
    hide Lists, Replace, Marker;
    var pairs := SortedPairs(data);
    SecretsListed(pairs, data);
    result := text;
    for i := 0 to |pairs|
      invariant Redacted(result, pairs[i..]) == Redacted(text, pairs)
    {
      assert pairs[i..][1..] == pairs[i + 1..];
      result := Replace(result, pairs[i].value, Marker(pairs[i].name));
    }
  }

  lemma SecretsListed(pairs: seq<Pair>, data: map<string, string>)
    requires Lists(pairs, data)
    ensures Secrets(pairs)
  {
  }
}
