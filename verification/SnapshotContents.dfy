/** Which files a snapshot holds (internal/persist/persist.go), by their names: an excluded entry shuts out the file or
    the directory it names with everything below, and nothing else; of the workspace it holds three files. */
module SnapshotContents {
  import opened Text
  import opened Paths
  import opened SnapshotStore
  import opened SnapshotRoundTrip

  /** The entry names this file or directory, with or without a slash at the end and spaces around it. */
  predicate Names(ex: string, p: Path) {
    TrimSpace(ex) == Joined(p) || TrimSpace(ex) == Joined(p) + "/"
  }

  /** Some entry names the file or a directory it lies in. */
  predicate ShutOut(exclude: seq<string>, p: Path) {
    exists i, n :: 0 <= i < |exclude| && 0 < n <= |p| && Names(exclude[i], p[..n])
  }

  /** The files a snapshot is to hold. */
  predicate Wanted(exclude: seq<string>, p: Path) {
    && !ShutOut(exclude, p)
    && p != ["memory", "SOUL.md"] && p != ["memory", "IDENTITY.md"] && p != ["memory", "USER.md"]
  }

  // ---------------------------------------------------------------- exclusion by names

  lemma {:induction false} JoinedEnds(p: Path)
    requires IsPath(p)
    ensures Joined(p) != "" && Joined(p)[0] != '/' && Joined(p)[|Joined(p)| - 1] != '/'
  {
    assert IsName(p[0]) && p[0][0] in p[0] && p[0][|p[0]| - 1] in p[0];
    if |p| > 1 {
      JoinedEnds(p[1..]);
    }
  }

  lemma FirstSlash(name: string, rest: string, e: string)
    requires '/' !in name && e + "/" <= name + "/" + rest
    ensures |name| <= |e| && name == e[..|name|]
    ensures |name| < |e| ==> e[|name|] == '/' && e[|name| + 1..] + "/" <= rest
  {
    var s := name + "/" + rest;
    assert (e + "/")[|e|] == '/' == s[|e|];
    assert forall k :: 0 <= k < |name| ==> s[k] == name[k] && name[k] in name;
    assert forall k :: 0 <= k < |e| ==> e[k] == (e + "/")[k] == s[k];
    if |name| < |e| {
      var tail := e[|name| + 1..] + "/";
      assert forall k :: 0 <= k < |tail| ==> tail[k] == (e + "/")[|name| + 1 + k] == s[|name| + 1 + k] == rest[k];
    }
  }

  lemma SlashInside(e: string, s: string)
    requires e + "/" <= s
    ensures '/' in s
  {
    assert s[|e|] == (e + "/")[|e|];
  }

  /** What stands before a slash of a joined path is the path of a directory above it. */
  lemma {:induction false} PrefixIsAbove(p: Path, e: string) returns (n: nat)
    requires IsPath(p) && e + "/" <= Joined(p)
    ensures 0 < n < |p| && Joined(p[..n]) == e
  {
    assert IsName(p[0]);
    if |p| == 1 {
      SlashInside(e, p[0]);
      assert false;
    }
    FirstSlash(p[0], Joined(p[1..]), e);
    if |e| == |p[0]| {
      n := 1;
      assert p[..1] == [p[0]];
    } else {
      var m := PrefixIsAbove(p[1..], e[|p[0]| + 1..]);
      n := m + 1;
      assert p[..n][1..] == p[1..][..m];
      assert e == e[..|p[0]|] + "/" + e[|p[0]| + 1..];
    }
  }

  /** Exclusion is by whole names. */
  lemma ExcludedIffShutOut(exclude: seq<string>, p: Path)
    requires IsPath(p)
    ensures Excluded(exclude, Joined(p)) <==> ShutOut(exclude, p)
  {
    hide TrimSpace, Joined, ExcludedBy, Names;
    if Excluded(exclude, Joined(p)) {
      var i :| 0 <= i < |exclude| && ExcludedBy(exclude[i], Joined(p));
      var n := ExcludedNames(exclude[i], p);
      assert Names(exclude[i], p[..n]);
    }
    if ShutOut(exclude, p) {
      var i, n :| 0 <= i < |exclude| && 0 < n <= |p| && Names(exclude[i], p[..n]);
      NamesExcluded(exclude[i], p, n);
    }
  }

  lemma ExcludedNames(ex: string, p: Path) returns (n: nat)
    requires IsPath(p) && ExcludedBy(ex, Joined(p))
    ensures 0 < n <= |p| && Names(ex, p[..n])
  {
    hide TrimSpace, Joined;
    n := |p|;
    assert p[..n] == p;
    if Joined(p) != TrimSlash(TrimSpace(ex)) {
      n := PrefixIsAbove(p, TrimSlash(TrimSpace(ex)));
    }
  }

  lemma NamesExcluded(ex: string, p: Path, n: nat)
    requires IsPath(p) && 0 < n <= |p| && Names(ex, p[..n])
    ensures ExcludedBy(ex, Joined(p))
  {
    hide TrimSpace, Joined;
    assert IsPath(p[..n]);
    JoinedEnds(p[..n]);
    assert (Joined(p[..n]) + "/")[..|Joined(p[..n])|] == Joined(p[..n]);
    assert TrimSlash(TrimSpace(ex)) == Joined(p[..n]);
    if n < |p| {
      JoinedPrefix(p, n);
    } else {
      assert p[..n] == p;
    }
  }

  lemma LegacyNames(p: Path, name: string)
    requires IsPath(p) && IsName(name)
    ensures Joined(p) == "memory" + "/" + name <==> p == ["memory", name]
  {
    assert IsName("memory") && ["memory", name][1..] == [name];
    assert Joined(["memory", name]) == "memory" + "/" + name;
    hide Joined;
    if Joined(p) == "memory" + "/" + name {
      JoinedInjective(p, ["memory", name]);
    }
  }

  lemma LegacySpelled()
    ensures LEGACY_PATHS == {"memory" + "/" + "SOUL.md", "memory" + "/" + "IDENTITY.md", "memory" + "/" + "USER.md"}
  {
    assert "memory/SOUL.md" == "memory" + "/" + "SOUL.md";
    assert "memory/IDENTITY.md" == "memory" + "/" + "IDENTITY.md";
    assert "memory/USER.md" == "memory" + "/" + "USER.md";
  }

  lemma LegacyIff(p: Path)
    requires IsPath(p)
    ensures Joined(p) in LEGACY_PATHS
      <==> p == ["memory", "SOUL.md"] || p == ["memory", "IDENTITY.md"] || p == ["memory", "USER.md"]
  {
    hide LEGACY_PATHS, Joined;
    LegacySpelled();
    LegacyNames(p, "SOUL.md");
    LegacyNames(p, "IDENTITY.md");
    LegacyNames(p, "USER.md");
  }

  lemma LiveIffWanted(exclude: seq<string>, p: Path)
    requires IsPath(p)
    ensures Live(exclude, p) <==> Wanted(exclude, p)
  {
    hide Joined, Excluded, ShutOut;
    ExcludedIffShutOut(exclude, p);
    LegacyIff(p);
  }

  // ---------------------------------------------------------------- what a snapshot holds

  /** After a Sync, whatever the table held, its session rows are exactly the wanted files with their contents. */
  lemma RowsAreWantedFiles(stored: Table, exclude: seq<string>, tree: Tree, ws: Workspace, hash: Bytes -> string)
    requires TreeOk(tree) && HashOk(hash) && RowsOk(stored, hash)
    ensures var table := Synced(stored, exclude, tree, ws, hash);
      && (forall p :: IsPath(p) && !("@workspace/" <= Joined(p)) ==>
            (Joined(p) in table <==> p in tree.files && Wanted(exclude, p)))
      && (forall p :: p in tree.files && Joined(p) in table && !("@workspace/" <= Joined(p)) ==>
            table[Joined(p)].data == tree.files[p])
      && (forall rel :: rel in table && !("@workspace/" <= rel) ==> exists p :: p in tree.files && Joined(p) == rel)
  {
    hide Synced, Joined, Split, Wanted, Live, LiveRels, RowsOk, HashOk;
    var table := Synced(stored, exclude, tree, ws, hash);
    forall rel | !("@workspace/" <= rel)
      ensures rel in table ==> Split(rel) in tree.files && Joined(Split(rel)) == rel
      ensures forall p :: IsPath(p) && Joined(p) == rel ==> (rel in table <==> p in tree.files && Wanted(exclude, p))
      ensures rel in table ==> table[rel].data == tree.files[Split(rel)]
    {
      SessionRowsAreLiveFiles(stored, exclude, tree, ws, hash, rel);
      RelNamesFile(exclude, tree, rel);
      forall p | IsPath(p) && Joined(p) == rel ensures rel in table <==> p in tree.files && Wanted(exclude, p) {
        SplitJoined(p);
        LiveIffWanted(exclude, p);
      }
    }
    forall p | p in tree.files && Joined(p) in table && !("@workspace/" <= Joined(p))
      ensures table[Joined(p)].data == tree.files[p]
    {
      SplitJoined(p);
    }
  }

  /** Sync and then Restore into a directory without files succeeds and brings back exactly the wanted files outside
      @workspace/. */
  lemma WantedFilesComeBack(dir: Path, stored: Table, exclude: seq<string>, tree: Tree, ws: Workspace,
                            hash: Bytes -> string, rels: seq<string>, to: Tree, toWs: Workspace)
    requires TreeOk(tree) && HashOk(hash) && RowsOk(stored, hash)
    requires Lists(rels, Synced(stored, exclude, tree, ws, hash))
    requires to.files == map[] && to.links == {}
    requires forall p :: p in to.dirs ==> !(p in tree.files && Wanted(exclude, p))
    ensures var after := AfterRestore(dir, Synced(stored, exclude, tree, ws, hash), rels, to, toWs);
      && after.ok
      && (forall p :: p in after.tree.files <==> p in tree.files && Wanted(exclude, p) && !("@workspace/" <= Joined(p)))
      && (forall p :: p in after.tree.files ==> after.tree.files[p] == tree.files[p])
  {
    hide Synced, Joined, Wanted, Live, RowsOk, HashOk, AfterRestore, Lists;
    forall p | p in tree.files ensures Live(exclude, p) <==> Wanted(exclude, p) {
      LiveIffWanted(exclude, p);
    }
    RoundTrip(dir, stored, exclude, tree, ws, hash, rels, to, toWs);
  }

  // ---------------------------------------------------------------- identity files

  predicate IsIdentity(name: string) {
    name == "IDENTITY.md" || name == "USER.md" || name == "SOUL.md"
  }

  lemma IdentityIff(name: string)
    ensures name in IDENTITY_FILES <==> IsIdentity(name)
  {
    assert name == IDENTITY_FILES[0] || name == IDENTITY_FILES[1] || name == IDENTITY_FILES[2] <==> IsIdentity(name);
  }

  /** After a Sync, whatever the table held, every identity file of the workspace has a row, with its contents unless a
      session file of that name with other contents clashes. */
  lemma IdentitiesAreStored(stored: Table, exclude: seq<string>, tree: Tree, ws: Workspace, hash: Bytes -> string,
                            name: string)
    requires TreeOk(tree) && HashOk(hash) && RowsOk(stored, hash)
    requires ws.enabled && IsIdentity(name) && name in ws.files
    ensures var table := Synced(stored, exclude, tree, ws, hash);
      "@workspace/" + name in table
      && (Clash(exclude, tree, ws, name) || table["@workspace/" + name].data == ws.files[name])
  {
    hide Synced, Clash, TreeOk, HashOk, RowsOk, IsIdentity;
    IdentityIff(name);
    IdentityRowIff(stored, exclude, tree, ws, hash, name);
  }

  /** Something other than a directory stands at the top level. */
  ghost predicate Occupied(tree: Tree) {
    exists name: string :: [name] in tree.files || [name] in tree.links
  }

  lemma OccupiedIff(tree: Tree)
    ensures HasTopLevelFile(tree) <==> Occupied(tree)
  {
    if HasTopLevelFile(tree) {
      var p :| (p in tree.files || p in tree.links) && |p| == 1;
      assert p == [p[0]];
    }
    if Occupied(tree) {
      var name: string :| [name] in tree.files || [name] in tree.links;
      assert |[name]| == 1;
    }
  }

  /** Restore of any table: a directory with something at its top level, and the workspace with it, is left alone. Else
      a Restore that gets to its end has brought the workspace exactly the identity files it lacked and the table
      had. */
  lemma RestoreTells(dir: Path, table: Table, rels: seq<string>, tree: Tree, ws: Workspace, name: string)
    requires Lists(rels, table)
    ensures var after := AfterRestore(dir, table, rels, tree, ws);
      if Occupied(tree) then after.ok && after.tree == tree && after.ws == ws
      else after.ok ==>
        && (name in after.ws.files <==>
              || name in ws.files
              || (ws.enabled && IsIdentity(name) && name !in ws.others && "@workspace/" + name in table))
        && (name in after.ws.files ==>
              after.ws.files[name] == if name in ws.files then ws.files[name] else table["@workspace/" + name].data)
        && after.ws.enabled == ws.enabled && after.ws.others == ws.others
  {
    hide RestoreRows, IsIdentity, Occupied, HasTopLevelFile;
    OccupiedIff(tree);
    IdentityIff(name);
    if !Occupied(tree) {
      RestoreWritesIdentities(dir, table, rels, Restored(tree, ws, true));
    }
  }
}
