/** Redaction as a machine that reads its text once, and what follows: whether any text leaks shows on short texts over
    the characters of the secrets and their markers (internal/secrets/secrets.go). */
module RedactionSearch {
  import opened Text
  import opened Redaction
  import opened RedactionGuarantees

  // ---------------------------------------------------------------- one pass reading its text

  /** What a pass writes while it reads `s`, having held back `held`. */
  function Written(held: string, s: string, v: string, m: string): (r: string)
    requires |held| < |v|
    decreases |s|
  {
    if s == "" then ""
    else
      var t := held + [s[0]];
      if |t| < |v| then Written(t, s[1..], v, m)
      else if t == v then m + Written("", s[1..], v, m)
      else [t[0]] + Written(t[1..], s[1..], v, m)
  }

  /** What it holds back then: what may yet become a match. */
  function Held(held: string, s: string, v: string): (r: string)
    requires |held| < |v|
    ensures |r| < |v|
    decreases |s|
  {
    if s == "" then held
    else
      var t := held + [s[0]];
      Held(if |t| < |v| then t else if t == v then "" else t[1..], s[1..], v)
  }

  lemma ReplaceStep(t: string, y: string, v: string, m: string)
    requires |t| == |v| && v != ""
    ensures Replace(t + y, v, m) == if t == v then m + Replace(y, v, m) else [t[0]] + Replace(t[1..] + y, v, m)
  {
    assert (t + y)[..|v|] == t;
    assert (t + y)[|v|..] == y && (t + y)[1..] == t[1..] + y;
  }

  lemma {:induction false} PassSplit(held: string, s: string, y: string, v: string, m: string)
    requires |held| < |v|
    ensures Replace(held + (s + y), v, m) == Written(held, s, v, m) + Replace(Held(held, s, v) + y, v, m)
    decreases |s|
  {
    if s == "" {
      assert s + y == y;
    } else {
      var t := held + [s[0]];
      assert held + (s + y) == t + (s[1..] + y);
      if |t| < |v| {
        PassSplit(t, s[1..], y, v, m);
      } else {
        ReplaceStep(t, s[1..] + y, v, m);
        PassSplit(if t == v then "" else t[1..], s[1..], y, v, m);
        assert t == v ==> "" + (s[1..] + y) == s[1..] + y;
      }
    }
  }

  // ---------------------------------------------------------------- all passes

  ghost predicate HeldOk(pairs: seq<Pair>, helds: seq<string>) {
    |helds| == |pairs| && forall i :: 0 <= i < |pairs| ==> |helds[i]| < |pairs[i].value|
  }

  /** What comes out of the last pass while the first one reads `s`. */
  function WrittenBy(pairs: seq<Pair>, helds: seq<string>, s: string): (r: string)
    requires HeldOk(pairs, helds)
    decreases |pairs|
  {
    if pairs == [] then s
    else WrittenBy(pairs[1..], helds[1..], Written(helds[0], s, pairs[0].value, Marker(pairs[0].name)))
  }

  function HeldBy(pairs: seq<Pair>, helds: seq<string>, s: string): (r: seq<string>)
    requires HeldOk(pairs, helds)
    ensures HeldOk(pairs, r)
    decreases |pairs|
  {
    if pairs == [] then []
    else
      [Held(helds[0], s, pairs[0].value)]
      + HeldBy(pairs[1..], helds[1..], Written(helds[0], s, pairs[0].value, Marker(pairs[0].name)))
  }

  /** What still comes out once the text ends with `y`. */
  function RestOf(pairs: seq<Pair>, helds: seq<string>, y: string): (r: string)
    requires HeldOk(pairs, helds)
    decreases |pairs|
  {
    if pairs == [] then y
    else RestOf(pairs[1..], helds[1..], Replace(helds[0] + y, pairs[0].value, Marker(pairs[0].name)))
  }

  lemma {:induction false} PassesSplit(pairs: seq<Pair>, helds: seq<string>, s: string, y: string)
    requires HeldOk(pairs, helds)
    ensures RestOf(pairs, helds, s + y) == WrittenBy(pairs, helds, s) + RestOf(pairs, HeldBy(pairs, helds, s), y)
    decreases |pairs|
  {
    if pairs != [] {
      hide Marker, Replace, Written, Held;
      var v, m := pairs[0].value, Marker(pairs[0].name);
      var out, held := Written(helds[0], s, v, m), Held(helds[0], s, v);
      PassSplit(helds[0], s, y, v, m);
      PassesSplit(pairs[1..], helds[1..], out, Replace(held + y, v, m));
      assert HeldBy(pairs, helds, s)[1..] == HeldBy(pairs[1..], helds[1..], out);
    }
  }

  function NothingHeld(n: nat): (r: seq<string>)
    ensures |r| == n && forall i :: 0 <= i < n ==> r[i] == ""
  {
    seq(n, i => "")
  }

  lemma {:induction false} RestFromStart(pairs: seq<Pair>, text: string)
    requires Secrets(pairs)
    ensures RestOf(pairs, NothingHeld(|pairs|), text) == Redacted(text, pairs)
    decreases |pairs|
  {
    if pairs != [] {
      hide Marker, Replace;
      var next := Replace(text, pairs[0].value, Marker(pairs[0].name));
      assert "" + text == text;
      assert NothingHeld(|pairs|)[1..] == NothingHeld(|pairs[1..]|);
      RedactedStep(text, pairs);
      RestFromStart(pairs[1..], next);
    }
  }

  // ---------------------------------------------------------------- where a reading stands

  /** What each pass holds back, and the end of what came out. */
  datatype Place = Place(helds: seq<string>, tail: string)

  function Tail(s: string, n: nat): (r: string)
    ensures |r| <= n && |r| <= |s| && r == s[|s| - |r|..]
  {
    if |s| <= n then s else s[|s| - n..]
  }

  function PlaceAfter(pairs: seq<Pair>, n: nat, x: string): (r: Place)
    requires Secrets(pairs)
  {
    Place(HeldBy(pairs, NothingHeld(|pairs|), x), Tail(WrittenBy(pairs, NothingHeld(|pairs|), x), n))
  }

  /** The output in two parts: what a beginning of the text wrote, and what its place makes of the rest. */
  lemma RedactedAfter(pairs: seq<Pair>, n: nat, x: string, y: string)
    requires Secrets(pairs)
    ensures HeldOk(pairs, PlaceAfter(pairs, n, x).helds)
    ensures Redacted(x + y, pairs) ==
      WrittenBy(pairs, NothingHeld(|pairs|), x) + RestOf(pairs, PlaceAfter(pairs, n, x).helds, y)
  {
    hide WrittenBy, HeldBy, RestOf, Redacted;
    PassesSplit(pairs, NothingHeld(|pairs|), x, y);
    RestFromStart(pairs, x + y);
  }

  /** An occurrence that the first part does not hold starts in its last |w| - 1 characters. */
  lemma OccursFromTail(w: string, a: string, b: string, n: nat)
    requires Occurs(w, a + b) && !Occurs(w, a) && |w| <= n + 1
    ensures Occurs(w, Tail(a, n) + b)
  {
    var s, t := a + b, Tail(a, n);
    var i :| 0 <= i <= |s| && At(s, w, i);
    var cut := |a| - |t|;
    assert a[cut..] == t && s[cut..] == t + b;
    if i < cut {
      assert a[i..i + |w|] == s[i..i + |w|];
      OccursAt(w, a, i);
    }
    assert (t + b)[i - cut..i - cut + |w|] == s[i..i + |w|];
    OccursAt(w, t + b, i - cut);
  }

  lemma OccursBehindTail(w: string, a: string, b: string, n: nat)
    requires Occurs(w, Tail(a, n) + b)
    ensures Occurs(w, a + b)
  {
    var t := Tail(a, n);
    assert a == a[..|a| - |t|] + t;
    assert a + b == a[..|a| - |t|] + (t + b) + "";
    OccursInside(w, a[..|a| - |t|], t + b, "");
  }

  lemma WrittenIsRedacted(pairs: seq<Pair>, n: nat, w: string, x: string)
    requires Secrets(pairs) && Occurs(w, WrittenBy(pairs, NothingHeld(|pairs|), x))
    ensures Occurs(w, Redacted(x, pairs))
  {
    var out := WrittenBy(pairs, NothingHeld(|pairs|), x);
    hide *;
    RedactedAfter(pairs, n, x, "");
    assert x + "" == x;
    var end := RestOf(pairs, PlaceAfter(pairs, n, x).helds, "");
    assert "" + out + end == out + end;
    OccursInside(w, "", out, end);
  }

  /** A stretch of the text between two equal places can be cut out and the output still shows what it showed. */
  lemma CutOut(pairs: seq<Pair>, n: nat, w: string, x: string, x': string, y: string)
    requires Secrets(pairs) && |w| <= n + 1 && PlaceAfter(pairs, n, x) == PlaceAfter(pairs, n, x')
    requires Occurs(w, Redacted(x' + y, pairs)) && !Occurs(w, Redacted(x', pairs))
    ensures Occurs(w, Redacted(x + y, pairs))
  {
    var start := NothingHeld(|pairs|);
    var out, out' := WrittenBy(pairs, start, x), WrittenBy(pairs, start, x');
    assert Tail(out, n) == Tail(out', n);
    hide *;
    RedactedAfter(pairs, n, x, y);
    RedactedAfter(pairs, n, x', y);
    var rest := RestOf(pairs, PlaceAfter(pairs, n, x).helds, y);
    if Occurs(w, out') {
      WrittenIsRedacted(pairs, n, w, x');
    }
    OccursFromTail(w, out', rest, n);
    OccursBehindTail(w, out, rest, n);
  }

  // ---------------------------------------------------------------- places are few

  predicate Over(sigma: set<char>, s: string) {
    forall i :: 0 <= i < |s| ==> s[i] in sigma
  }

  function Longer(shorter: set<string>, sigma: set<char>): (r: set<string>) {
    set s, c | s in shorter && c in sigma :: s + [c]
  }

  /** The strings of at most `n` of these characters. */
  function Strings(sigma: set<char>, n: nat): (r: set<string>) {
    if n == 0 then {""} else Strings(sigma, n - 1) + Longer(Strings(sigma, n - 1), sigma)
  }

  lemma {:induction false} StringIn(sigma: set<char>, n: nat, s: string)
    requires Over(sigma, s) && |s| <= n
    ensures s in Strings(sigma, n)
  {
    if s != "" {
      StringIn(sigma, n - 1, s[..|s| - 1]);
      assert s == s[..|s| - 1] + [s[|s| - 1]];
    } else if n > 0 {
      StringIn(sigma, n - 1, s);
    }
  }

  /** What the passes can hold back. */
  function HeldStrings(pairs: seq<Pair>, sigma: set<char>): (r: set<seq<string>>)
    requires Secrets(pairs)
  {
    if pairs == [] then {[]}
    else
      set u, us | u in Strings(sigma, |pairs[0].value| - 1) && us in HeldStrings(pairs[1..], sigma) :: [u] + us
  }

  function Places(pairs: seq<Pair>, sigma: set<char>, n: nat): (r: set<Place>)
    requires Secrets(pairs)
  {
    set us, t | us in HeldStrings(pairs, sigma) && t in Strings(sigma, n) :: Place(us, t)
  }

  /** The characters of values and markers are all there. */
  ghost predicate Spells(sigma: set<char>, pairs: seq<Pair>) {
    forall i :: 0 <= i < |pairs| ==> Over(sigma, pairs[i].value) && Over(sigma, Marker(pairs[i].name))
  }

  lemma {:induction false} PassOver(sigma: set<char>, held: string, s: string, v: string, m: string)
    requires |held| < |v| && Over(sigma, held) && Over(sigma, s) && Over(sigma, m)
    ensures Over(sigma, Written(held, s, v, m)) && Over(sigma, Held(held, s, v))
    decreases |s|
  {
    if s != "" {
      var t := held + [s[0]];
      PassOver(sigma, if |t| < |v| then t else if t == v then "" else t[1..], s[1..], v, m);
    }
  }

  lemma {:induction false} PassesOver(pairs: seq<Pair>, sigma: set<char>, helds: seq<string>, s: string)
    requires Secrets(pairs) && HeldOk(pairs, helds) && Spells(sigma, pairs) && Over(sigma, s)
    requires forall i :: 0 <= i < |helds| ==> Over(sigma, helds[i])
    ensures Over(sigma, WrittenBy(pairs, helds, s)) && HeldBy(pairs, helds, s) in HeldStrings(pairs, sigma)
    decreases |pairs|
  {
    if pairs != [] {
      hide Marker, Written, Held, Over, Strings;
      var v, m := pairs[0].value, Marker(pairs[0].name);
      PassOver(sigma, helds[0], s, v, m);
      StringIn(sigma, |v| - 1, Held(helds[0], s, v));
      PassesOver(pairs[1..], sigma, helds[1..], Written(helds[0], s, v, m));
    }
  }

  lemma PlaceIn(pairs: seq<Pair>, sigma: set<char>, n: nat, x: string)
    requires Secrets(pairs) && Spells(sigma, pairs) && Over(sigma, x)
    ensures PlaceAfter(pairs, n, x) in Places(pairs, sigma, n)
  {
    hide Spells, WrittenBy, HeldBy, HeldStrings, Strings;
    PassesOver(pairs, sigma, NothingHeld(|pairs|), x);
    var out := WrittenBy(pairs, NothingHeld(|pairs|), x);
    StringIn(sigma, n, Tail(out, n));
  }

  /** More items than there are values: two are equal. */
  lemma {:induction false} SomeRepeat<T>(xs: seq<T>, all: set<T>)
    requires |xs| > |all| && forall i :: 0 <= i < |xs| ==> xs[i] in all
    ensures exists i, j :: 0 <= i < j < |xs| && xs[i] == xs[j]
    decreases |xs|
  {
    var last := |xs| - 1;
    if forall i :: 0 <= i < last ==> xs[i] != xs[last] {
      SomeRepeat(xs[..last], all - {xs[last]});
      var i, j :| 0 <= i < j < last && xs[..last][i] == xs[..last][j];
      assert xs[i] == xs[j];
    }
  }

  /** What a text over these characters shows, a text no longer than there are places shows. */
  lemma {:induction false} ShortTextShows(pairs: seq<Pair>, sigma: set<char>, n: nat, w: string, text: string)
    returns (short: string)
    requires Secrets(pairs) && Spells(sigma, pairs) && Over(sigma, text) && |w| <= n + 1
    requires Occurs(w, Redacted(text, pairs))
    ensures Over(sigma, short) && |short| <= |Places(pairs, sigma, n)| && Occurs(w, Redacted(short, pairs))
    decreases |text|
  {
    short := text;
    if |text| > |Places(pairs, sigma, n)| {
      hide Redacted, Occurs, PlaceAfter, Places, Spells, Secrets;
      var i, j := EqualPlaces(pairs, sigma, n, text);
      var next := text[..j];
      if !Occurs(w, Redacted(text[..j], pairs)) {
        next := text[..i] + text[j..];
        assert text[..j] + text[j..] == text;
        CutOut(pairs, n, w, text[..i], text[..j], text[j..]);
      }
      short := ShortTextShows(pairs, sigma, n, w, next);
    }
  }

  lemma EqualPlaces(pairs: seq<Pair>, sigma: set<char>, n: nat, text: string) returns (i: nat, j: nat)
    requires Secrets(pairs) && Spells(sigma, pairs) && Over(sigma, text) && |text| > |Places(pairs, sigma, n)|
    ensures i < j < |text| && PlaceAfter(pairs, n, text[..i]) == PlaceAfter(pairs, n, text[..j])
  {
    hide PlaceAfter, Places, Spells;
    var places := seq(|text|, k requires 0 <= k < |text| => PlaceAfter(pairs, n, text[..k]));
    forall k | 0 <= k < |text| ensures places[k] in Places(pairs, sigma, n) {
      PlaceIn(pairs, sigma, n, text[..k]);
    }
    SomeRepeat(places, Places(pairs, sigma, n));
    i, j :| 0 <= i < j < |places| && places[i] == places[j];
  }

  // ---------------------------------------------------------------- how few

  function Power(b: nat, e: nat): (r: nat) {
    if e == 0 then 1 else b * Power(b, e - 1)
  }

  lemma {:induction false} PowerAdd(b: nat, d: nat, e: nat)
    ensures Power(b, d + e) == Power(b, d) * Power(b, e)
  {
    if d > 0 {
      PowerAdd(b, d - 1, e);
      Associates(b, Power(b, d - 1), Power(b, e));
    }
  }

  lemma Associates(a: nat, b: nat, c: nat)
    ensures a * b * c == a * (b * c)
  {
  }

  lemma ProductMonotone(a: nat, a': nat, b: nat, b': nat)
    requires a <= a' && b <= b'
    ensures a * b <= a' * b'
  {
    assert a * b <= a' * b <= a' * b';
  }

  lemma ProductBound(x: nat, y: nat, b: nat, d: nat, e: nat)
    requires x <= Power(b, d) && y <= Power(b, e)
    ensures x * y <= Power(b, d + e)
  {
    PowerAdd(b, d, e);
    hide Power;
    ProductMonotone(x, Power(b, d), y, Power(b, e));
  }

  lemma OneMore(a: nat, b: nat)
    ensures a * (b + 1) == a * b + a
  {
  }

  lemma {:induction false} ImageSize<A, C>(xs: set<A>, f: A -> C, all: set<C>)
    requires all == set a | a in xs :: f(a)
    ensures |all| <= |xs|
    decreases |xs|
  {
    if xs == {} {
      assert all == {};
    } else {
      var x :| x in xs;
      var rest := set a | a in xs - {x} :: f(a);
      ImageSize(xs - {x}, f, rest);
      assert all == rest + {f(x)};
    }
  }

  lemma PairsRow<A, B, C>(xs: set<A>, ys: set<B>, f: (A, B) -> C, y: B, row: set<C>, rest: set<C>, all: set<C>)
    requires y in ys && row == (set a | a in xs :: f(a, y))
    requires all == (set a, b | a in xs && b in ys :: f(a, b))
    requires rest == (set a, b | a in xs && b in ys - {y} :: f(a, b))
    ensures all == rest + row && |all| <= |rest| + |row|
  {
  }

  lemma {:induction false} PairsSum<A, B, C>(xs: set<A>, ys: set<B>, f: (A, B) -> C, all: set<C>)
    requires all == (set a, b | a in xs && b in ys :: f(a, b))
    ensures |all| <= Sum(|xs|, |ys|)
    decreases |ys|
  {
    if ys == {} {
      assert all == {};
    } else {
      var y :| y in ys;
      var row, rest := set a | a in xs :: f(a, y), set a, b | a in xs && b in ys - {y} :: f(a, b);
      PairsRow(xs, ys, f, y, row, rest, all);
      ImageSize(xs, a => f(a, y), row);
      PairsSum(xs, ys - {y}, f, rest);
    }
  }

  function Sum(a: nat, n: nat): (r: nat)
    ensures r == a * n
  {
    if n == 0 then 0 else OneMore(a, n - 1); Sum(a, n - 1) + a
  }

  lemma PairsSize<A, B, C>(xs: set<A>, ys: set<B>, f: (A, B) -> C, all: set<C>)
    requires all == (set a, b | a in xs && b in ys :: f(a, b))
    ensures |all| <= |xs| * |ys|
  {
    PairsSum(xs, ys, f, all);
  }

  lemma LongerSize(shorter: set<string>, sigma: set<char>)
    ensures |Longer(shorter, sigma)| <= |shorter| * |sigma|
  {
    PairsSize(shorter, sigma, (s: string, c: char) => s + [c], Longer(shorter, sigma));
  }

  lemma StringsGrow(sigma: set<char>, n: nat)
    requires n > 0
    ensures |Strings(sigma, n)| <= |Strings(sigma, n - 1)| * (|sigma| + 1)
  {
    hide Longer;
    LongerSize(Strings(sigma, n - 1), sigma);
    OneMore(|Strings(sigma, n - 1)|, |sigma|);
  }

  lemma {:induction false} StringsSize(sigma: set<char>, n: nat)
    ensures |Strings(sigma, n)| <= Power(|sigma| + 1, n)
  {
    if n > 0 {
      hide Strings;
      StringsGrow(sigma, n);
      StringsSize(sigma, n - 1);
      ProductMonotone(|Strings(sigma, n - 1)|, Power(|sigma| + 1, n - 1), |sigma| + 1, |sigma| + 1);
    } else {
      assert Strings(sigma, n) == {""};
    }
  }

  /** How many characters all passes together can hold back. */
  function Room(pairs: seq<Pair>): (n: nat)
    requires Secrets(pairs)
  {
    if pairs == [] then 0 else |pairs[0].value| - 1 + Room(pairs[1..])
  }

  lemma HeldStringsGrow(pairs: seq<Pair>, sigma: set<char>)
    requires Secrets(pairs) && pairs != []
    ensures |HeldStrings(pairs, sigma)| <= |Strings(sigma, |pairs[0].value| - 1)| * |HeldStrings(pairs[1..], sigma)|
  {
    var us, rest := Strings(sigma, |pairs[0].value| - 1), HeldStrings(pairs[1..], sigma);
    hide Strings;
    PairsSize(us, rest, (u: string, r: seq<string>) => [u] + r, HeldStrings(pairs, sigma));
  }

  lemma {:induction false} HeldStringsSize(pairs: seq<Pair>, sigma: set<char>)
    requires Secrets(pairs)
    ensures |HeldStrings(pairs, sigma)| <= Power(|sigma| + 1, Room(pairs))
  {
    if pairs == [] {
      assert HeldStrings(pairs, sigma) == {[]};
    } else {
      var n, b, rest := |pairs[0].value| - 1, |sigma| + 1, pairs[1..];
      assert Secrets(rest) && Room(pairs) == n + Room(rest);
      hide *;
      HeldStringsGrow(pairs, sigma);
      StringsSize(sigma, n);
      HeldStringsSize(rest, sigma);
      ProductBound(|Strings(sigma, n)|, |HeldStrings(rest, sigma)|, b, n, Room(rest));
    }
  }

  lemma PlacesSize(pairs: seq<Pair>, sigma: set<char>, n: nat)
    requires Secrets(pairs)
    ensures |Places(pairs, sigma, n)| <= Power(|sigma| + 1, Room(pairs) + n)
  {
    hide HeldStrings, Strings, Power, Room;
    var uss, ts, b := HeldStrings(pairs, sigma), Strings(sigma, n), |sigma| + 1;
    PairsSize(uss, ts, (us: seq<string>, t: string) => Place(us, t), Places(pairs, sigma, n));
    hide Places;
    HeldStringsSize(pairs, sigma);
    StringsSize(sigma, n);
    ProductBound(|uss|, |ts|, b, Room(pairs), n);
  }

  // ---------------------------------------------------------------- other characters are alike

  /** The text with every character outside `keep` written as `other`. */
  function Folded(s: string, keep: set<char>, other: char): (r: string)
    ensures |r| == |s|
    ensures forall i :: 0 <= i < |s| ==> r[i] == if s[i] in keep then s[i] else other
  {
    seq(|s|, i requires 0 <= i < |s| => if s[i] in keep then s[i] else other)
  }

  lemma FoldedPrefix(text: string, v: string, keep: set<char>, other: char)
    requires Over(keep, v) && other !in keep
    ensures v <= text <==> v <= Folded(text, keep, other)
  {
    var folded := Folded(text, keep, other);
    if v <= text {
      assert forall i :: 0 <= i < |v| ==> folded[i] == text[i] == v[i];
    }
    if v <= folded {
      assert forall i :: 0 <= i < |v| ==> text[i] == folded[i] == v[i];
    }
  }

  lemma {:induction false} FoldedReplace(text: string, v: string, m: string, keep: set<char>, other: char)
    requires v != "" && Over(keep, v) && Over(keep, m) && other !in keep
    ensures Replace(Folded(text, keep, other), v, m) == Folded(Replace(text, v, m), keep, other)
    decreases |text|
  {
    var folded := Folded(text, keep, other);
    if text != "" {
      FoldedPrefix(text, v, keep, other);
      var next := if v <= text then text[|v|..] else text[1..];
      FoldedReplace(next, v, m, keep, other);
      assert Folded(next, keep, other) == if v <= text then folded[|v|..] else folded[1..];
    }
  }

  lemma {:induction false} FoldedRedacted(text: string, pairs: seq<Pair>, keep: set<char>, other: char)
    requires Secrets(pairs) && Spells(keep, pairs) && other !in keep
    ensures Redacted(Folded(text, keep, other), pairs) == Folded(Redacted(text, pairs), keep, other)
    decreases |pairs|
  {
    if pairs != [] {
      RedactedStep(text, pairs);
      RedactedStep(Folded(text, keep, other), pairs);
      hide Marker, Replace, Redacted;
      var v, m := pairs[0].value, Marker(pairs[0].name);
      FoldedReplace(text, v, m, keep, other);
      FoldedRedacted(Replace(text, v, m), pairs[1..], keep, other);
    }
  }

  lemma FoldedShows(w: string, s: string, keep: set<char>, other: char)
    requires Over(keep, w) && Occurs(w, s)
    ensures Occurs(w, Folded(s, keep, other))
  {
    var i :| 0 <= i <= |s| && At(s, w, i);
    var folded := Folded(s, keep, other);
    forall k | 0 <= k < |w| ensures folded[i..i + |w|][k] == w[k] {
      assert s[i + k] == s[i..i + |w|][k];
    }
    assert folded[i..i + |w|] == w;
    OccursAt(w, Folded(s, keep, other), i);
  }

  // ---------------------------------------------------------------- the exact condition

  /** The characters of the values and of their markers. */
  function Characters(pairs: seq<Pair>): (r: set<char>)
    ensures Spells(r, pairs)
  {
    if pairs == [] then {}
    else
      (set c | c in pairs[0].value) + (set c | c in Marker(pairs[0].name)) + Characters(pairs[1..])
  }

  function Longest(pairs: seq<Pair>): (n: nat)
    ensures forall i :: 0 <= i < |pairs| ==> |pairs[i].value| <= n
  {
    if pairs == [] then 0
    else
      var n := Longest(pairs[1..]);
      if |pairs[0].value| > n then |pairs[0].value| else n
  }

  /** The length up to which texts have to be looked at. */
  function EnoughLength(pairs: seq<Pair>): (n: nat)
    requires Secrets(pairs)
  {
    Power(|Characters(pairs)| + 2, Room(pairs) + Longest(pairs))
  }

  /** One more character stands for all that no value and no marker has, if there are any. */
  ghost predicate StandsIn(other: char, pairs: seq<Pair>) {
    other !in Characters(pairs) || forall c: char :: c in Characters(pairs)
  }

  lemma {:induction false} PowerMonotone(b: nat, c: nat, e: nat)
    requires b <= c
    ensures Power(b, e) <= Power(c, e)
  {
    if e > 0 {
      PowerMonotone(b, c, e - 1);
      ProductMonotone(b, c, Power(b, e - 1), Power(c, e - 1));
    }
  }

  /** Any secrets, with brackets or without: redaction leaks on no text at all exactly when it leaks on none of bounded
      length over the characters of values and markers and one more. */
  lemma NeverLeaksIff(pairs: seq<Pair>, other: char)
    requires Secrets(pairs) && StandsIn(other, pairs)
    ensures (forall text :: NoLeak(text, pairs)) <==>
      (forall text :: Over(Characters(pairs) + {other}, text) && |text| <= EnoughLength(pairs) ==> NoLeak(text, pairs))
  {
    hide NoLeak, Over, EnoughLength, Characters, StandsIn;
    if forall text :: Over(Characters(pairs) + {other}, text) && |text| <= EnoughLength(pairs) ==> NoLeak(text, pairs) {
      forall text ensures NoLeak(text, pairs) {
        LeaksOnShort(pairs, other, text);
      }
    }
  }

  lemma LeaksOnShort(pairs: seq<Pair>, other: char, text: string)
    requires Secrets(pairs) && StandsIn(other, pairs)
    ensures !NoLeak(text, pairs) ==> exists short ::
        Over(Characters(pairs) + {other}, short) && |short| <= EnoughLength(pairs) && !NoLeak(short, pairs)
  {
    hide StandsIn, EnoughLength, Characters, Over, Redacted, Occurs;
    if !NoLeak(text, pairs) {
      var i :| 0 <= i < |pairs| && Occurs(pairs[i].value, Redacted(text, pairs));
      var sigma := Characters(pairs) + {other};
      var folded := FoldedLeaks(pairs, other, text, pairs[i].value);
      SpellsMore(pairs, other);
      var short := ShortTextShows(pairs, sigma, Longest(pairs), pairs[i].value, folded);
      FewPlaces(pairs, other);
      assert !NoLeak(short, pairs);
    }
  }

  lemma SpellsMore(pairs: seq<Pair>, other: char)
    ensures Spells(Characters(pairs) + {other}, pairs)
  {
    hide Marker, Characters;
  }

  lemma FoldedLeaks(pairs: seq<Pair>, other: char, text: string, w: string) returns (folded: string)
    requires Secrets(pairs) && StandsIn(other, pairs) && Over(Characters(pairs), w) && Occurs(w, Redacted(text, pairs))
    ensures Over(Characters(pairs) + {other}, folded) && Occurs(w, Redacted(folded, pairs))
  {
    hide Marker, Redacted, Occurs, Characters;
    folded := text;
    if other !in Characters(pairs) {
      folded := Folded(text, Characters(pairs), other);
      FoldedRedacted(text, pairs, Characters(pairs), other);
      FoldedShows(w, Redacted(text, pairs), Characters(pairs), other);
    }
  }

  lemma FewPlaces(pairs: seq<Pair>, other: char)
    requires Secrets(pairs)
    ensures |Places(pairs, Characters(pairs) + {other}, Longest(pairs))| <= EnoughLength(pairs)
  {
    hide Characters, Longest, Power, Room, Places, Spells;
    var keep, n := Characters(pairs), Longest(pairs);
    OneMoreCharacter(keep, other);
    PlacesSize(pairs, keep + {other}, n);
    PowerMonotone(|keep + {other}| + 1, |keep| + 2, Room(pairs) + n);
  }

  lemma OneMoreCharacter(keep: set<char>, other: char)
    ensures |keep + {other}| <= |keep| + 1
  {
    if other in keep {
      assert keep + {other} == keep;
    }
  }
}
