/** Go's string order and the normalisation of resource keys (internal/tools/locks.go). */
module KeyOrder {
  import opened Text

  /** a < b in Go's order: the first difference decides, a proper prefix comes first. UTF-8 keeps code
      point order, so comparing runes is comparing bytes. */
  predicate Less(a: string, b: string) {
    b != [] && (a == [] || a[0] < b[0] || (a[0] == b[0] && Less(a[1..], b[1..])))
  }

  lemma {:induction false} LessTransitive(a: string, b: string, c: string)
    requires Less(a, b) && Less(b, c)
    ensures Less(a, c)
  {
    if a != [] && a[0] == b[0] && b[0] == c[0] {
      LessTransitive(a[1..], b[1..], c[1..]);
    }
  }

  lemma {:induction false} LessIrreflexive(a: string)
    ensures !Less(a, a)
  {
    if a != [] {
      LessIrreflexive(a[1..]);
    }
  }

  lemma {:induction false} LessTotal(a: string, b: string)
    ensures a == b || Less(a, b) || Less(b, a)
  {
    if a != [] && b != [] && a[0] == b[0] {
      LessTotal(a[1..], b[1..]);
      if a[1..] == b[1..] {
        assert a == [a[0]] + a[1..] && b == [b[0]] + b[1..];
      }
    }
  }

  lemma LessAsymmetric(a: string, b: string)
    requires Less(a, b)
    ensures !Less(b, a) && a != b
  {
    LessIrreflexive(a);
    if Less(b, a) {
      LessTransitive(a, b, a);
    }
  }

  predicate StrictlySorted(keys: seq<string>) {
    forall i, j :: 0 <= i < j < |keys| ==> Less(keys[i], keys[j])
  }

  lemma StrictlySortedDistinct(keys: seq<string>)
    requires StrictlySorted(keys)
    ensures forall i, j :: 0 <= i < j < |keys| ==> keys[i] != keys[j]
  {
    forall i, j | 0 <= i < j < |keys| ensures keys[i] != keys[j] {
      LessAsymmetric(keys[i], keys[j]);
    }
  }

  /** The keys a caller asks for once blanks and surrounding white space are gone. */
  function Wanted(keys: seq<string>): (r: set<string>) {
    set k | k in keys && TrimSpace(k) != "" :: TrimSpace(k)
  }

  /** One insertion into a sorted list, the step of the sort. */
  method Insert(sorted: seq<string>, key: string) returns (r: seq<string>)
    requires StrictlySorted(sorted) && key !in sorted
    ensures StrictlySorted(r)
    ensures forall k :: k in r <==> k in sorted || k == key
  {
    hide Less;
    var i := 0;
    while i < |sorted| && Less(sorted[i], key)
      invariant 0 <= i <= |sorted|
      invariant forall j :: 0 <= j < i ==> Less(sorted[j], key)
    {
      i := i + 1;
    }
    if i < |sorted| {
      LessTotal(sorted[i], key);
      forall j | i <= j < |sorted| ensures Less(key, sorted[j]) {
        if i < j {
          LessTransitive(key, sorted[i], sorted[j]);
        }
      }
    }
    InsertedElements(sorted, key, i);
    r := sorted[..i] + [key] + sorted[i..];
  }

  lemma InsertedElements(sorted: seq<string>, key: string, i: nat)
    requires i <= |sorted|
    ensures var r := sorted[..i] + [key] + sorted[i..];
      && (forall j :: 0 <= j < |r| ==> r[j] == if j < i then sorted[j] else if j == i then key else sorted[j - 1])
      && forall k :: k in r <==> k in sorted || k == key
  {
    assert sorted == sorted[..i] + sorted[i..];
  }

  /** normalizeResourceKeys: trim, drop blanks, drop repeats, sort. The result is exactly the wanted keys,
      each once, in ascending order. */
  method NormalizeResourceKeys(keys: seq<string>) returns (normalized: seq<string>)
    ensures StrictlySorted(normalized)
    ensures forall k :: k in normalized <==> k in Wanted(keys)
  {
    var seen: set<string> := {};
    var unique: seq<string> := [];
    for i := 0 to |keys|
      invariant forall k :: k in unique <==> k in seen
      invariant forall a, b :: 0 <= a < b < |unique| ==> unique[a] != unique[b]
      invariant seen == Wanted(keys[..i])
    {
      assert keys[..i + 1] == keys[..i] + [keys[i]];
      assert Wanted(keys[..i + 1]) ==
        Wanted(keys[..i]) + (if TrimSpace(keys[i]) == "" then {} else {TrimSpace(keys[i])});
      var trimmed := TrimSpace(keys[i]);
      if trimmed == "" || trimmed in seen {
        continue;
      }
      seen := seen + {trimmed};
      unique := unique + [trimmed];
    }
    assert keys[..|keys|] == keys;
    normalized := [];
    for i := 0 to |unique|
      invariant StrictlySorted(normalized)
      invariant forall k :: k in normalized <==> k in unique[..i]
    {
      assert unique[..i + 1] == unique[..i] + [unique[i]];
      normalized := Insert(normalized, unique[i]);
    }
    assert unique[..|unique|] == unique;
  }

  /** A strictly ascending list is determined by its members, so normalisation has exactly one answer. */
  lemma {:induction false} SortedUnique(a: seq<string>, b: seq<string>)
    requires StrictlySorted(a) && StrictlySorted(b)
    requires forall k :: k in a <==> k in b
    ensures a == b
  {
    assert (a != [] ==> a[0] in b) && (b != [] ==> b[0] in a);
    if a != [] {
      if a[0] != b[0] {
        SmallestFirst(a, b[0]);
        SmallestFirst(b, a[0]);
        LessAsymmetric(a[0], b[0]);
      }
      StrictlySortedDistinct(a);
      StrictlySortedDistinct(b);
      forall k ensures k in a[1..] <==> k in b[1..] {
        assert k in a <==> k == a[0] || k in a[1..];
        assert k in b <==> k == b[0] || k in b[1..];
      }
      SortedUnique(a[1..], b[1..]);
      assert a == [a[0]] + a[1..] && b == [b[0]] + b[1..];
    }
  }

  lemma SmallestFirst(a: seq<string>, k: string)
    requires StrictlySorted(a) && k in a && k != a[0]
    ensures Less(a[0], k)
  {
  }
}
