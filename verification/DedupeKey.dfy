/** scopedDedupeKey (internal/bridge/notifications.go): one key per destination. `lower` is
    strings.ToLower, a parameter. */
module DedupeKey {
  import opened Text

  datatype Destination = Route(name: string) | Thread(platform: string, thread: string)

  /** Where the handler sends a request: the route if one is named, else a thread of a platform. */
  function DestinationOf(lower: string -> string, route: string, platform: string, threadId: string): (d: Destination) {
    if route != "" then Route(route)
    else
      var p := TrimSpace(lower(platform));
      Thread(if p == "" then "messenger" else p, TrimSpace(threadId))
  }

  function ScopedDedupeKey(lower: string -> string, key: string, route: string, platform: string,
                           threadId: string): (r: string)
  {
    var k := TrimSpace(key);
    if k == "" then ""
    else if route != "" then k + "|route:" + route
    else
      var p := TrimSpace(lower(platform));
      k + "|" + (if p == "" then "messenger" else p) + ":" + TrimSpace(threadId)
  }

  /** The part after the bar. */
  function Scope(d: Destination): (r: string) {
    match d
    case Route(name) => "route:" + name
    case Thread(platform, thread) => platform + ":" + thread
  }

  /** The part of a scope before its colon, and the part behind. */
  function Platform(d: Destination): (p: string) {
    if d.Route? then "route" else d.platform
  }

  function Place(d: Destination): (p: string) {
    if d.Route? then d.name else d.thread
  }

  predicate PlainPlatform(d: Destination) {
    d.Thread? ==> ':' !in d.platform && d.platform != "route"
  }

  lemma ScopedKeyParts(lower: string -> string, key: string, route: string, platform: string, threadId: string)
    requires TrimSpace(key) != ""
    ensures ScopedDedupeKey(lower, key, route, platform, threadId) ==
      TrimSpace(key) + "|" + Scope(DestinationOf(lower, route, platform, threadId))
  {
    hide TrimSpace;
    var k := TrimSpace(key);
    if route != "" {
      assert k + "|route:" + route == k + "|" + ("route:" + route);
    } else {
      var p := TrimSpace(lower(platform));
      var q := if p == "" then "messenger" else p;
      assert k + "|" + q + ":" + TrimSpace(threadId) == k + "|" + (q + ":" + TrimSpace(threadId));
    }
  }

  /** Cutting at the first separator is unique. */
  lemma FirstSeparator(a: string, b: string, c: string, d: string, sep: char)
    requires sep !in a && sep !in c && a + [sep] + b == c + [sep] + d
    ensures a == c && b == d
  {
    var s, t := a + [sep] + b, c + [sep] + d;
    assert s[|a|] == sep && t[|c|] == sep;
    assert forall i :: 0 <= i < |a| ==> s[i] == a[i];
    assert forall i :: 0 <= i < |c| ==> t[i] == c[i];
    assert |a| == |c|;
    assert s[..|a|] == a && t[..|c|] == c;
    assert s[|a| + 1..] == b && t[|c| + 1..] == d;
  }

  lemma ScopeInjective(d: Destination, e: Destination)
    requires PlainPlatform(d) && PlainPlatform(e) && Scope(d) == Scope(e)
    ensures d == e
  {
    assert "route:" == "route" + [':'];
    assert Scope(d) == Platform(d) + [':'] + Place(d) && Scope(e) == Platform(e) + [':'] + Place(e);
    assert ':' !in "route";
    FirstSeparator(Platform(d), Place(d), Platform(e), Place(e), ':');
  }

  /** Two requests get the same scoped key exactly when they carry the same key to the same destination. */
  lemma ScopedKeyInjective(lower: string -> string, key: string, route: string, platform: string, threadId: string,
                           key': string, route': string, platform': string, threadId': string)
    requires TrimSpace(key) != "" && TrimSpace(key') != ""
    requires '|' !in TrimSpace(key) && '|' !in TrimSpace(key')
    requires PlainPlatform(DestinationOf(lower, route, platform, threadId))
    requires PlainPlatform(DestinationOf(lower, route', platform', threadId'))
    ensures ScopedDedupeKey(lower, key, route, platform, threadId) ==
      ScopedDedupeKey(lower, key', route', platform', threadId')
      <==> (&& TrimSpace(key) == TrimSpace(key')
            && DestinationOf(lower, route, platform, threadId) == DestinationOf(lower, route', platform', threadId'))
  {
    hide TrimSpace, DestinationOf, Scope, ScopedDedupeKey;
    var k, k' := TrimSpace(key), TrimSpace(key');
    var d, d' := DestinationOf(lower, route, platform, threadId), DestinationOf(lower, route', platform', threadId');
    ScopedKeyParts(lower, key, route, platform, threadId);
    ScopedKeyParts(lower, key', route', platform', threadId');
    if k + "|" + Scope(d) == k' + "|" + Scope(d') {
      assert "|" == ['|'];
      FirstSeparator(k, Scope(d), k', Scope(d'), '|');
      ScopeInjective(d, d');
    }
  }

  /** What a trimmed key becomes at a destination. */
  function KeyAt(key: string, d: Destination): (r: string) {
    key + "|" + Scope(d)
  }

  /** Destinations whose scopes read the same are the same. */
  ghost predicate ScopesApart(dests: iset<Destination>) {
    forall d, e :: d in dests && e in dests && Scope(d) == Scope(e) ==> d == e
  }

  /** Key a at d and key b at e read the same because b goes on where a stops. */
  ghost predicate RunsInto(a: string, d: Destination, b: string, e: Destination) {
    exists x :: b == a + "|" + x && Scope(d) == x + "|" + Scope(e)
  }

  ghost predicate NoneRunsInto(keys: iset<string>, dests: iset<Destination>) {
    forall a, b, d, e :: a in keys && b in keys && d in dests && e in dests ==> !RunsInto(a, d, b, e)
  }

  /** Scoped keys of this set at these destinations tell both the key and the destination. */
  ghost predicate KeptApart(keys: iset<string>, dests: iset<Destination>) {
    forall a, b, d, e :: a in keys && b in keys && d in dests && e in dests && KeyAt(a, d) == KeyAt(b, e) ==>
      a == b && d == e
  }

  lemma KeysAtMeetIff(a: string, d: Destination, b: string, e: Destination)
    ensures KeyAt(a, d) == KeyAt(b, e) <==>
      (a == b && Scope(d) == Scope(e)) || RunsInto(a, d, b, e) || RunsInto(b, e, a, d)
  {
    hide Scope;
    assert "|" == ['|'];
    JoinsMeetIff(a, Scope(d), b, Scope(e), '|');
  }

  /** Which scopes read the same: those with the same two parts, and those whose platform goes on behind a colon. */
  lemma ScopesMeetIff(d: Destination, e: Destination)
    ensures Scope(d) == Scope(e) <==>
      || (Platform(d) == Platform(e) && Place(d) == Place(e))
      || (exists x :: Platform(e) == Platform(d) + ":" + x && Place(d) == x + ":" + Place(e))
      || (exists x :: Platform(d) == Platform(e) + ":" + x && Place(e) == x + ":" + Place(d))
  {
    assert "route:" == "route" + [':'] && ":" == [':'];
    assert Scope(d) == Platform(d) + [':'] + Place(d) && Scope(e) == Platform(e) + [':'] + Place(e);
    hide Scope, Platform, Place;
    JoinsMeetIff(Platform(d), Place(d), Platform(e), Place(e), ':');
  }

  /** Exactly which keys and destinations are kept apart. */
  lemma KeptApartIff(keys: iset<string>, dests: iset<Destination>, some: string)
    requires some in keys
    ensures KeptApart(keys, dests) <==> ScopesApart(dests) && NoneRunsInto(keys, dests)
  {
    hide RunsInto;
    forall a, b, d, e | a in keys && b in keys && d in dests && e in dests
      ensures KeyAt(a, d) == KeyAt(b, e) <==>
        (a == b && Scope(d) == Scope(e)) || RunsInto(a, d, b, e) || RunsInto(b, e, a, d)
      ensures RunsInto(a, d, b, e) ==> a != b
    {
      KeysAtMeetIff(a, d, b, e);
      RunsIntoLonger(a, d, b, e);
    }
    hide KeyAt, Scope;
    if KeptApart(keys, dests) {
      forall d, e | d in dests && e in dests && Scope(d) == Scope(e) ensures d == e {
        assert KeyAt(some, d) == KeyAt(some, e);
      }
    }
  }

  lemma RunsIntoLonger(a: string, d: Destination, b: string, e: Destination)
    ensures RunsInto(a, d, b, e) ==> |a| < |b|
  {
  }

  /** A bar in the key lets two different keys meet, a platform called "route" two different destinations. */
  lemma ScopedKeyCollisions(lower: string -> string)
    requires lower("p") == "p" && lower("route") == "route"
    ensures ScopedDedupeKey(lower, "a", "", "p", "t|p:u") == ScopedDedupeKey(lower, "a|p:t", "", "p", "u")
    ensures ScopedDedupeKey(lower, "a", "", "route", "x") == ScopedDedupeKey(lower, "a", "x", "p", "t")
  {
    TrimFixed("a");
    TrimFixed("a|p:t");
    TrimFixed("p");
    TrimFixed("route");
    TrimFixed("t|p:u");
    TrimFixed("u");
    TrimFixed("x");
    hide TrimSpace;
    assert "a" + "|" + "p" + ":" + "t|p:u" == "a|p:t" + "|" + "p" + ":" + "u";
    assert "a" + "|" + "route" + ":" + "x" == "a" + "|route:" + "x";
  }
}
