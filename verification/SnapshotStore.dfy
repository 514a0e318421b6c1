/** The snapshot store (internal/persist/persist.go): Sync writes a directory's changes to a table, Restore
    fills an empty directory from it. `hash` stands for SHA-256 in hex. */
module SnapshotStore {
  import opened Options
  import opened Text
  import opened Paths

  type Bytes = seq<bv8>

  datatype Row = Row(data: Bytes, sha: string)

  type Table = map<string, Row>

  /** The session directory: regular files by path, directories, and symbolic links, which Sync passes over. */
  datatype Tree = Tree(files: map<Path, Bytes>, dirs: set<Path>, links: set<Path>)

  /** The workspace root: regular files by name, and names taken by something else. `enabled` says it is set
      and is not the session directory. */
  datatype Workspace = Workspace(enabled: bool, files: map<string, Bytes>, others: set<string>)

  const WS_PREFIX := "@workspace/"

  const IDENTITY_FILES := ["IDENTITY.md", "USER.md", "SOUL.md"]

  const LEGACY_PATHS: set<string> := {"memory/SOUL.md", "memory/IDENTITY.md", "memory/USER.md"}

  predicate IsWsPath(rel: string) {
    WS_PREFIX <= rel
  }

  // ---------------------------------------------------------------- exclusion

  function TrimSlash(s: string): (r: string) {
    if s != "" && s[|s| - 1] == '/' then s[..|s| - 1] else s
  }

  predicate ExcludedBy(ex: string, rel: string) {
    && TrimSpace(ex) != ""
    && (rel == TrimSlash(TrimSpace(ex)) || TrimSlash(TrimSpace(ex)) + "/" <= rel)
  }

  predicate Excluded(exclude: seq<string>, rel: string) {
    exists i :: 0 <= i < |exclude| && ExcludedBy(exclude[i], rel)
  }

  method IsExcluded(exclude: seq<string>, rel: string) returns (r: bool)
    ensures r <==> Excluded(exclude, rel)
  {
    hide TrimSpace, TrimSlash;
    for i := 0 to |exclude|
      invariant forall j :: 0 <= j < i ==> !ExcludedBy(exclude[j], rel)
    {
      if TrimSpace(exclude[i]) == "" {
        continue;
      }
      var ex := TrimSlash(TrimSpace(exclude[i]));
      if rel == ex || ex + "/" <= rel {
        assert ExcludedBy(exclude[i], rel);
        return true;
      }
    }
    return false;
  }

  /** Some directory above the file is excluded, so the walk never enters it. */
  predicate Pruned(exclude: seq<string>, p: Path) {
    exists n :: 0 < n < |p| && Excluded(exclude, Joined(p[..n]))
  }

  lemma {:induction false} JoinedPrefix(p: Path, n: nat)
    requires 0 < n < |p|
    ensures Joined(p[..n]) + "/" <= Joined(p)
  {
    if n == 1 {
      assert Joined(p[..1]) == p[0];
      assert Joined(p) == p[0] + "/" + Joined(p[1..]);
    } else {
      JoinedPrefix(p[1..], n - 1);
      assert p[..n][1..] == p[1..][..n - 1];
      assert Joined(p[..n]) == p[0] + "/" + Joined(p[1..][..n - 1]);
      assert Joined(p) == p[0] + "/" + Joined(p[1..]);
    }
  }

  /** Skipping an excluded directory loses nothing: every file below it is excluded itself. */
  lemma PrunedIsExcluded(exclude: seq<string>, p: Path)
    requires Pruned(exclude, p)
    ensures Excluded(exclude, Joined(p))
  {
    hide TrimSpace, TrimSlash;
    var n :| 0 < n < |p| && Excluded(exclude, Joined(p[..n]));
    var i :| 0 <= i < |exclude| && ExcludedBy(exclude[i], Joined(p[..n]));
    JoinedPrefix(p, n);
    assert ExcludedBy(exclude[i], Joined(p));
  }

  // ---------------------------------------------------------------- what Sync sees

  predicate Live(exclude: seq<string>, p: Path) {
    Joined(p) !in LEGACY_PATHS && !Excluded(exclude, Joined(p))
  }

  /** Proper names, and no file stands where another one needs a directory. */
  ghost predicate TreeOk(tree: Tree) {
    && (forall p :: p in tree.files ==> IsPath(p))
    && (forall p, q :: p in tree.files && q in tree.files && p <= q ==> p == q)
  }

  /** The live regular files: neither excluded nor legacy. */
  function LiveFiles(exclude: seq<string>, tree: Tree): (r: map<Path, Bytes>) {
    map p | p in tree.files && Live(exclude, p) :: tree.files[p]
  }

  /** The relative paths of the live files. */
  function LiveRels(exclude: seq<string>, tree: Tree): (r: set<string>) {
    set p | p in LiveFiles(exclude, tree) :: Joined(p)
  }

  /** A relative path names at most one file, the one at its pieces. */
  lemma RelNamesFile(exclude: seq<string>, tree: Tree, rel: string)
    requires TreeOk(tree)
    ensures rel in LiveRels(exclude, tree)
       <==> Split(rel) in LiveFiles(exclude, tree) && Joined(Split(rel)) == rel
  {
    hide Excluded, Split, Joined;
    if rel in LiveRels(exclude, tree) {
      var p :| p in LiveFiles(exclude, tree) && Joined(p) == rel;
      SplitJoined(p);
    }
  }

  /** What the walk collects. */
  ghost function LiveHashes(exclude: seq<string>, tree: Tree, hash: Bytes -> string): (r: map<string, string>) {
    map rel | rel in LiveRels(exclude, tree) && Split(rel) in tree.files :: hash(tree.files[Split(rel)])
  }

  /** stored[rel] != sum; a missing row reads as the empty string. */
  predicate Changed(stored: Table, rel: string, sha: string) {
    (if rel in stored then stored[rel].sha else "") != sha
  }

  /** Identity files that are really there. */
  function LiveWs(ws: Workspace): (r: set<string>) {
    if ws.enabled then set n | n in IDENTITY_FILES && n in ws.files else {}
  }

  // ---------------------------------------------------------------- what Sync leaves

  /** The rows Sync writes for session files: those whose stored hash differs. */
  function Upserts(stored: Table, exclude: seq<string>, tree: Tree, hash: Bytes -> string): (r: Table) {
    map rel | rel in LiveRels(exclude, tree) && Split(rel) in tree.files
      && Changed(stored, rel, hash(tree.files[Split(rel)])) ::
      Row(tree.files[Split(rel)], hash(tree.files[Split(rel)]))
  }

  function WsName(rel: string): (r: string) {
    if IsWsPath(rel) then rel[|WS_PREFIX|..] else ""
  }

  ghost function WsHashes(ws: Workspace, hash: Bytes -> string): (r: map<string, string>) {
    map n | n in LiveWs(ws) && n in ws.files :: hash(ws.files[n])
  }

  function WsRels(ws: Workspace): (r: set<string>) {
    set n | n in LiveWs(ws) :: WS_PREFIX + n
  }

  function WsUpserts(stored: Table, ws: Workspace, hash: Bytes -> string): (r: Table) {
    map rel | rel in WsRels(ws) && WsName(rel) in ws.files && Changed(stored, rel, hash(ws.files[WsName(rel)])) ::
      Row(ws.files[WsName(rel)], hash(ws.files[WsName(rel)]))
  }

  /** The rows Sync deletes: session rows without a live file. */
  function Stale(stored: Table, exclude: seq<string>, tree: Tree): (r: set<string>) {
    set rel | rel in stored && !IsWsPath(rel) && rel !in LiveRels(exclude, tree)
  }

  function Synced(stored: Table, exclude: seq<string>, tree: Tree, ws: Workspace, hash: Bytes -> string): (r: Table) {
    stored + Upserts(stored, exclude, tree, hash) + WsUpserts(stored, ws, hash) - Stale(stored, exclude, tree)
  }

  // ---------------------------------------------------------------- what Restore leaves

  /** MkdirAll of the parent and WriteFile both succeed: no file or link stands on the way, and no directory
      at the place itself. */
  predicate Writable(tree: Tree, p: Path) {
    && p !in tree.dirs
    && p !in tree.links
    && forall n :: 0 < n < |p| ==> p[..n] !in tree.files && p[..n] !in tree.links
  }

  function Parents(p: Path): (r: set<Path>) {
    set n | 0 < n < |p| :: p[..n]
  }

  function Write(tree: Tree, p: Path, data: Bytes): (r: Tree) {
    tree.(files := tree.files[p := data], dirs := tree.dirs + Parents(p))
  }

  /** Restore stops at the first row it cannot write and keeps what it wrote before. */
  datatype Restored = Restored(tree: Tree, ws: Workspace, ok: bool)

  function RestoreRow(dir: Path, rel: string, data: Bytes, to: Restored): (r: Restored) {
    if rel in LEGACY_PATHS then to
    else if IsWsPath(rel) then
      if WsName(rel) !in IDENTITY_FILES || !to.ws.enabled then to
      else if WsName(rel) in to.ws.files || WsName(rel) in to.ws.others then to
      else to.(ws := to.ws.(files := to.ws.files[WsName(rel) := data]))
    else
      match SafePath(dir, rel)
      case None => to
      case Some(p) => if Writable(to.tree, p) then to.(tree := Write(to.tree, p, data)) else to.(ok := false)
  }

  function RestoreRows(dir: Path, table: Table, rels: seq<string>, to: Restored): (r: Restored)
    requires forall i :: 0 <= i < |rels| ==> rels[i] in table
  {
    if rels == [] then to
    else
      var next := RestoreRows(dir, table, rels[..|rels| - 1], to);
      if next.ok then RestoreRow(dir, rels[|rels| - 1], table[rels[|rels| - 1]].data, next) else next
  }

  lemma RestoreNext(dir: Path, table: Table, rels: seq<string>, i: nat, to: Restored)
    requires forall k :: 0 <= k < |rels| ==> rels[k] in table
    requires i < |rels| && RestoreRows(dir, table, rels[..i], to).ok
    ensures RestoreRows(dir, table, rels[..i + 1], to)
         == RestoreRow(dir, rels[i], table[rels[i]].data, RestoreRows(dir, table, rels[..i], to))
    ensures !RestoreRows(dir, table, rels[..i + 1], to).ok ==>
      RestoreRows(dir, table, rels, to) == RestoreRows(dir, table, rels[..i + 1], to)
  {
    hide RestoreRow;
    assert rels[..i + 1][..i] == rels[..i];
    if !RestoreRows(dir, table, rels[..i + 1], to).ok {
      RestoreStops(dir, table, rels, i + 1, to);
    }
  }

  lemma {:induction false} RestoreStops(dir: Path, table: Table, rels: seq<string>, i: nat, to: Restored)
    requires forall k :: 0 <= k < |rels| ==> rels[k] in table
    requires i <= |rels| && !RestoreRows(dir, table, rels[..i], to).ok
    ensures RestoreRows(dir, table, rels, to) == RestoreRows(dir, table, rels[..i], to)
  {
    hide RestoreRow;
    if i < |rels| {
      assert rels[..|rels| - 1][..i] == rels[..i];
      RestoreStops(dir, table, rels[..|rels| - 1], i, to);
    } else {
      assert rels[..i] == rels;
    }
  }

  /** As on a file system: whatever is there stands in directories that are there. */
  ghost predicate ParentsExist(tree: Tree) {
    forall p, n :: 0 < n < |p| && (p in tree.files || p in tree.dirs || p in tree.links) ==> p[..n] in tree.dirs
  }

  /** What keeps a file from being written at `p` stands at its prefix of `n` names. */
  predicate StopsAt(tree: Tree, p: Path, n: nat) {
    0 < n <= |p| && (p[..n] in tree.links || p[..n] in if n < |p| then tree.files.Keys else tree.dirs)
  }

  /** A write that fails finds every directory up to what stops it already there, so it makes none; and after any rows
      the tree is still one of that kind. */
  lemma {:induction false} FailedWriteMakesNoDirectory(dir: Path, table: Table, rels: seq<string>, to: Restored,
                                                       p: Path)
    requires forall i :: 0 <= i < |rels| ==> rels[i] in table
    requires ParentsExist(to.tree) && p != []
    ensures var tree := RestoreRows(dir, table, rels, to).tree;
      && ParentsExist(tree)
      && (!Writable(tree, p) ==> exists n :: StopsAt(tree, p, n) && forall m :: 0 < m < n ==> p[..m] in tree.dirs)
  {
    var tree := RestoreRows(dir, table, rels, to).tree;
    if rels != [] {
      hide RestoreRow, Writable, StopsAt;
      FailedWriteMakesNoDirectory(dir, table, rels[..|rels| - 1], to, p);
      RowKeepsParents(dir, rels[|rels| - 1], table[rels[|rels| - 1]].data,
                      RestoreRows(dir, table, rels[..|rels| - 1], to));
    }
    FailedWrite(tree, p);
  }

  lemma FailedWrite(tree: Tree, p: Path)
    requires ParentsExist(tree) && p != []
    ensures !Writable(tree, p) ==> exists n :: StopsAt(tree, p, n) && forall m :: 0 < m < n ==> p[..m] in tree.dirs
  {
    if !Writable(tree, p) {
      var n := |p|;
      assert p[..n] == p;
      if p !in tree.dirs && p !in tree.links {
        n :| 0 < n < |p| && (p[..n] in tree.files || p[..n] in tree.links);
      }
      assert StopsAt(tree, p, n);
      assert forall m :: 0 < m < n ==> p[..n][..m] == p[..m];
    }
  }

  lemma RowKeepsParents(dir: Path, rel: string, data: Bytes, to: Restored)
    requires ParentsExist(to.tree)
    ensures ParentsExist(RestoreRow(dir, rel, data, to).tree)
  {
    hide SafePath, WsName, Writable;
    var tree, tree' := to.tree, RestoreRow(dir, rel, data, to).tree;
    if tree' != tree {
      var p := SafePath(dir, rel).value;
      forall q, n | 0 < n < |q| && (q in tree'.files || q in tree'.dirs || q in tree'.links)
        ensures q[..n] in tree'.dirs
      {
        if q in Parents(p) {
          assert q[..n] == p[..n];
        }
      }
    }
  }

  /** A regular file or a link directly in the directory. */
  predicate HasTopLevelFile(tree: Tree) {
    (exists p :: p in tree.files && |p| == 1) || (exists p :: p in tree.links && |p| == 1)
  }

  function AfterRestore(dir: Path, table: Table, rels: seq<string>, tree: Tree, ws: Workspace): (r: Restored)
    requires forall i :: 0 <= i < |rels| ==> rels[i] in table
  {
    if HasTopLevelFile(tree) then Restored(tree, ws, true)
    else RestoreRows(dir, table, rels, Restored(tree, ws, true))
  }

  /** The rows a query lists: every row of the table once, in the order the database chooses. */
  ghost predicate Lists(rels: seq<string>, table: Table) {
    && (forall rel :: rel in rels <==> rel in table)
    && (forall i, j :: 0 <= i < j < |rels| ==> rels[i] != rels[j])
  }

  // ---------------------------------------------------------------- the store

  /** `base` with those rows of `t` written whose key is in `keys`. */
  ghost function Applied(base: Table, t: Table, keys: set<string>): (r: Table) {
    base + map k | k in t && k in keys :: t[k]
  }

  /** What a Sync may leave that a failing statement stopped: some of its writes, no deletion. */
  ghost predicate PartlySynced(stored: Table, exclude: seq<string>, tree: Tree, ws: Workspace, hash: Bytes -> string,
                               t: Table)
  {
    exists a: set<string>, b: set<string> ::
      t == Applied(Applied(stored, Upserts(stored, exclude, tree, hash), a), WsUpserts(stored, ws, hash), b)
  }

  lemma AppliedAt(base: Table, t: Table, keys: set<string>, k: string)
    ensures k in Applied(base, t, keys) <==> k in base || (k in t && k in keys)
    ensures k in Applied(base, t, keys) ==> Applied(base, t, keys)[k] == if k in t && k in keys then t[k] else base[k]
  {
  }

  lemma AppliedNone(base: Table, t: Table)
    ensures Applied(base, t, {}) == base && Applied(base, t, t.Keys) == base + t
  {
    assert (map k | k in t && k in t.Keys :: t[k]) == t;
  }

  /** Which statements of a Sync fail: the query, the write of a row, the deletion. */
  datatype SyncFate = SyncFate(queryFails: bool, writeFails: string -> bool, deleteFails: bool)

  /** The writes of these rows succeed. */
  ghost predicate Written(t: Table, keys: set<string>, fate: SyncFate) {
    forall rel :: rel in t && rel in keys ==> !fate.writeFails(rel)
  }

  /** How many of those rows there are. */
  ghost function Count<K>(t: set<K>, keys: set<K>): (r: nat) {
    |t * keys|
  }

  /** The loop has looked at `done`, written what it had to of it, and counted that. */
  ghost predicate Wrote(base: Table, t: Table, done: set<string>, fate: SyncFate, table: Table, changed: nat) {
    table == Applied(base, t, done) && changed == Count(t.Keys, done) && Written(t, done, fate)
  }

  lemma WroteNothing(base: Table, t: Table, fate: SyncFate)
    ensures Wrote(base, t, {}, fate, base, 0)
  {
    AppliedNone(base, t);
    assert t.Keys * {} == {};
  }

  lemma WroteOneMore(base: Table, t: Table, done: set<string>, k: string, fate: SyncFate, table: Table, changed: nat)
    requires Wrote(base, t, done, fate, table, changed) && k !in done
    ensures k !in t ==> Wrote(base, t, done + {k}, fate, table, changed)
    ensures k in t && !fate.writeFails(k) ==> Wrote(base, t, done + {k}, fate, table[k := t[k]], changed + 1)
  {
    hide Applied, Count;
    AppliedAdd(base, t, done, k);
    CountAdd(t.Keys, done, k);
  }

  /** A loop that has looked at everything wrote everything. */
  lemma WroteAll(base: Table, t: Table, done: set<string>, fate: SyncFate, table: Table, changed: nat)
    requires Wrote(base, t, done, fate, table, changed) && t.Keys <= done
    ensures table == base + t && changed == |t.Keys|
  {
    AppliedEnds(base, t, done);
    CountEnds(t.Keys, done);
  }

  lemma WrittenAll(base: Table, t: Table, done: set<string>, fate: SyncFate, table: Table, changed: nat)
    requires Wrote(base, t, done, fate, table, changed)
    ensures Written(t, done, fate)
  {
  }

  lemma NothingWritten(stored: Table, exclude: seq<string>, tree: Tree, ws: Workspace, hash: Bytes -> string)
    ensures PartlySynced(stored, exclude, tree, ws, hash, stored)
  {
    hide Applied, Upserts, WsUpserts;
    AppliedNone(stored, Upserts(stored, exclude, tree, hash));
    AppliedNone(stored, WsUpserts(stored, ws, hash));
  }

  lemma FirstLoopStopped(stored: Table, exclude: seq<string>, tree: Tree, ws: Workspace, hash: Bytes -> string,
                         a: set<string>, fate: SyncFate, table: Table, changed: nat)
    requires Wrote(stored, Upserts(stored, exclude, tree, hash), a, fate, table, changed)
    ensures PartlySynced(stored, exclude, tree, ws, hash, table)
  {
    hide Applied, Upserts, WsUpserts;
    AppliedNone(table, WsUpserts(stored, ws, hash));
  }

  lemma SecondLoopStopped(stored: Table, exclude: seq<string>, tree: Tree, ws: Workspace, hash: Bytes -> string,
                          b: set<string>, fate: SyncFate, table: Table, changed: nat)
    requires Wrote(stored + Upserts(stored, exclude, tree, hash), WsUpserts(stored, ws, hash), b, fate, table, changed)
    ensures PartlySynced(stored, exclude, tree, ws, hash, table)
  {
    hide Applied, Upserts, WsUpserts;
    AppliedNone(stored, Upserts(stored, exclude, tree, hash));
  }

  lemma NotWritten(t: Table, keys: set<string>, k: string, fate: SyncFate)
    requires k in t && k in keys && fate.writeFails(k)
    ensures !Written(t, keys, fate)
  {
  }

  lemma CountAdd<K>(t: set<K>, keys: set<K>, k: K)
    requires k !in keys
    ensures Count(t, keys + {k}) == Count(t, keys) + if k in t then 1 else 0
  {
    if k in t {
      assert t * (keys + {k}) == t * keys + {k};
    } else {
      assert t * (keys + {k}) == t * keys;
    }
  }

  lemma CountEnds<K>(t: set<K>, keys: set<K>)
    requires t <= keys
    ensures Count(t, {}) == 0 && Count(t, keys) == |t|
  {
    assert t * {} == {};
    assert t * keys == t;
  }

  lemma AppliedAdd(base: Table, t: Table, keys: set<string>, k: string)
    ensures Applied(base, t, keys + {k}) == if k in t then Applied(base, t, keys)[k := t[k]] else Applied(base, t, keys)
  {
    if k in t {
      assert Applied(base, t, keys + {k}) == Applied(base, t, keys)[k := t[k]];
    } else {
      assert Applied(base, t, keys + {k}) == Applied(base, t, keys);
    }
  }

  lemma AppliedEnds(base: Table, t: Table, keys: set<string>)
    requires t.Keys <= keys
    ensures Applied(base, t, {}) == base
    ensures Applied(base, t, keys) == base + t
  {
    assert (map k | k in t && k in keys :: t[k]) == t;
  }

  lemma UpsertsAt(stored: Table, exclude: seq<string>, tree: Tree, hash: Bytes -> string, rel: string)
    requires TreeOk(tree) && rel in LiveHashes(exclude, tree, hash)
    ensures rel in LiveRels(exclude, tree) && Split(rel) in tree.files
    ensures rel in Upserts(stored, exclude, tree, hash) <==>
      (if rel in stored then stored[rel].sha else "") != LiveHashes(exclude, tree, hash)[rel]
    ensures rel in Upserts(stored, exclude, tree, hash) ==>
      Upserts(stored, exclude, tree, hash)[rel] == Row(tree.files[Split(rel)], LiveHashes(exclude, tree, hash)[rel])
  {
    hide Split, LiveRels, TreeOk;
  }

  lemma UpsertsDomain(stored: Table, exclude: seq<string>, tree: Tree, hash: Bytes -> string)
    requires TreeOk(tree)
    ensures Upserts(stored, exclude, tree, hash).Keys <= LiveHashes(exclude, tree, hash).Keys
    ensures LiveHashes(exclude, tree, hash).Keys == LiveRels(exclude, tree)
  {
    hide Split, LiveRels, TreeOk, LiveFiles, Changed;
    forall rel | rel in LiveRels(exclude, tree) ensures Split(rel) in LiveFiles(exclude, tree) {
      RelNamesFile(exclude, tree, rel);
    }
    LiveFilesAreFiles(exclude, tree);
  }

  lemma LiveFilesAreFiles(exclude: seq<string>, tree: Tree)
    ensures LiveFiles(exclude, tree).Keys <= tree.files.Keys
  {
  }

  function Rels(names: set<string>): (r: set<string>) {
    set n | n in names :: WS_PREFIX + n
  }

  lemma RelsNone()
    ensures Rels({}) == {}
  {
  }

  lemma RelIn(names: set<string>, n: string)
    requires n in names
    ensures WS_PREFIX + n in Rels(names)
  {
  }

  lemma RelsAdd(names: set<string>, n: string)
    requires n !in names
    ensures WS_PREFIX + n !in Rels(names)
    ensures Rels(names + {n}) == Rels(names) + {WS_PREFIX + n}
  {
    assert WsName(WS_PREFIX + n) == n;
    assert forall m :: m in names ==> WsName(WS_PREFIX + m) == m;
  }

  lemma WsUpsertsAt(stored: Table, ws: Workspace, hash: Bytes -> string, n: string)
    requires n in WsHashes(ws, hash)
    ensures n in ws.files
    ensures WS_PREFIX + n in WsUpserts(stored, ws, hash) <==>
      (if WS_PREFIX + n in stored then stored[WS_PREFIX + n].sha else "") != WsHashes(ws, hash)[n]
    ensures WS_PREFIX + n in WsUpserts(stored, ws, hash) ==>
      WsUpserts(stored, ws, hash)[WS_PREFIX + n] == Row(ws.files[n], WsHashes(ws, hash)[n])
  {
    assert WsName(WS_PREFIX + n) == n;
    assert n in LiveWs(ws);
  }

  lemma WsUpsertsDomain(stored: Table, ws: Workspace, hash: Bytes -> string)
    ensures WsUpserts(stored, ws, hash).Keys <= WsRels(ws)
    ensures WsRels(ws) == Rels(WsHashes(ws, hash).Keys)
  {
    assert WsHashes(ws, hash).Keys == LiveWs(ws);
  }

  /** Every live relative path passes safePath and names its file. */
  lemma LiveRelIsSafe(dir: Path, exclude: seq<string>, tree: Tree, rel: string)
    requires TreeOk(tree) && rel in LiveRels(exclude, tree)
    ensures Split(rel) in LiveFiles(exclude, tree) && Joined(Split(rel)) == rel
    ensures SafePath(dir, rel) == Some(Split(rel))
  {
    hide Live, Split, Joined, SafePath, LiveRels;
    RelNamesFile(exclude, tree, rel);
    SafePathOfPath(dir, Split(rel));
  }

  /** The walk so far: every live file already visited is listed under its relative path with its hash. */
  ghost predicate Walked(live: map<string, string>, exclude: seq<string>, tree: Tree, hash: Bytes -> string,
                         todo: set<Path>)
  {
    && (forall p :: p in LiveFiles(exclude, tree) && p !in todo ==> Joined(p) in live)
    && forall rel :: rel in live ==>
      && Split(rel) in LiveFiles(exclude, tree)
      && Joined(Split(rel)) == rel
      && live[rel] == hash(tree.files[Split(rel)])
  }

  lemma WalkStart(exclude: seq<string>, tree: Tree, hash: Bytes -> string)
    ensures Walked(map[], exclude, tree, hash, tree.files.Keys + tree.links)
  {
    hide Live;
  }

  lemma WalkStep(live: map<string, string>, exclude: seq<string>, tree: Tree, hash: Bytes -> string, todo: set<Path>,
                 p: Path)
    requires Walked(live, exclude, tree, hash, todo)
    requires TreeOk(tree)
    ensures p in tree.files && Live(exclude, p) ==>
      Walked(live[Joined(p) := hash(tree.files[p])], exclude, tree, hash, todo - {p})
    ensures !(p in tree.files && Live(exclude, p)) ==> Walked(live, exclude, tree, hash, todo - {p})
  {
    LiveFileIff(exclude, tree, p);
    hide Live, Split, Joined, LiveFiles;
    if p in tree.files && Live(exclude, p) {
      SplitJoined(p);
      WalkFile(live, exclude, tree, hash, todo, p);
    }
  }

  lemma LiveFileIff(exclude: seq<string>, tree: Tree, p: Path)
    ensures p in LiveFiles(exclude, tree) <==> p in tree.files && Live(exclude, p)
  {
    hide Live;
  }

  lemma WalkFile(live: map<string, string>, exclude: seq<string>, tree: Tree, hash: Bytes -> string, todo: set<Path>,
                 p: Path)
    requires Walked(live, exclude, tree, hash, todo)
    requires p in tree.files && p in LiveFiles(exclude, tree) && Split(Joined(p)) == p
    ensures Walked(live[Joined(p) := hash(tree.files[p])], exclude, tree, hash, todo - {p})
  {
    hide Split, Joined, LiveFiles;
  }

  lemma WalkEnd(live: map<string, string>, exclude: seq<string>, tree: Tree, hash: Bytes -> string)
    requires Walked(live, exclude, tree, hash, {})
    ensures live == LiveHashes(exclude, tree, hash)
  {
    hide Live, Split, Joined;
    assert forall rel :: rel in live ==> rel in LiveRels(exclude, tree);
  }

  class Store {
    const dir: Path
    const exclude: seq<string>
    const hash: Bytes -> string
    var table: Table
    var tree: Tree
    var ws: Workspace

    constructor (dir: Path, exclude: seq<string>, hash: Bytes -> string, table: Table, tree: Tree, ws: Workspace)
      ensures this.dir == dir && this.exclude == exclude && this.hash == hash
      ensures this.table == table && this.tree == tree && this.ws == ws
    {
      this.dir, this.exclude, this.hash := dir, exclude, hash;
      this.table, this.tree, this.ws := table, tree, ws;
    }

    /** The walk: excluded directories are not entered, links are passed over. */
    method Walk() returns (live: map<string, string>)
      requires TreeOk(tree) && tree.links !! tree.files.Keys
      ensures live == LiveHashes(exclude, tree, hash)
    {
      live := map[];
      var todo := tree.files.Keys + tree.links;
      hide Walked, Pruned, Excluded, TreeOk, Joined, Split;
      WalkStart(exclude, tree, hash);
      while todo != {}
        invariant todo <= tree.files.Keys + tree.links
        invariant Walked(live, exclude, tree, hash, todo)
        decreases todo
      {
        var p :| p in todo;
        WalkStep(live, exclude, tree, hash, todo, p);
        todo := todo - {p};
        if Pruned(exclude, p) {
          PrunedIsExcluded(exclude, p);
          continue;
        }
        if p in tree.links {
          continue;
        }
        var rel := Joined(p);
        var excluded := IsExcluded(exclude, rel);
        if rel in LEGACY_PATHS || excluded {
          continue;
        }
        live := live[rel := hash(tree.files[p])];
      }
      WalkEnd(live, exclude, tree, hash);
    }

    /** One file of the walk: written only if its hash differs from the stored one. */
    method UpsertFile(rel: string, sum: string, known: string, fails: bool) returns (wrote: bool, ok: bool)
      requires TreeOk(tree) && rel in LiveRels(exclude, tree)
      requires Split(rel) in tree.files
      modifies this`table
      ensures ok == !(known != sum && fails)
      ensures wrote == (known != sum && ok)
      ensures table == if wrote then old(table)[rel := Row(tree.files[Split(rel)], sum)] else old(table)
    {
      hide Split, Joined, LiveRels, LiveFiles, SafePath, TreeOk;
      if known == sum {
        return false, true;
      }
      LiveRelIsSafe(dir, exclude, tree, rel);
      var abs := SafePath(dir, rel);
      if abs.None? {
        return false, true;
      }
      if fails {
        return false, false;
      }
      table := table[rel := Row(tree.files[abs.value], sum)];
      return true, true;
    }

    /** `done` are the files looked at. */
    method UpsertFiles(live: map<string, string>, stored: Table, fate: SyncFate)
      returns (changed: nat, ok: bool, ghost done: set<string>)
      requires TreeOk(tree) && table == stored
      requires live == LiveHashes(exclude, tree, hash)
      modifies this`table
      ensures Wrote(stored, Upserts(stored, exclude, tree, hash), done, fate, table, changed)
      ensures if ok then done == live.Keys else !Written(Upserts(stored, exclude, tree, hash), live.Keys, fate)
    {
      hide Split, Joined, LiveRels, LiveFiles, LiveHashes, TreeOk, Wrote, Upserts, Written;
      changed, ok := 0, true;
      var todo := live.Keys;
      done := {};
      ghost var up := Upserts(stored, exclude, tree, hash);
      UpsertsDomain(stored, exclude, tree, hash);
      WroteNothing(stored, up, fate);
      while todo != {}
        invariant todo <= live.Keys && done == live.Keys - todo
        invariant Wrote(stored, up, done, fate, table, changed)
        decreases todo
      {
        var rel :| rel in todo;
        todo := todo - {rel};
        UpsertsAt(stored, exclude, tree, hash, rel);
        WroteOneMore(stored, up, done, rel, fate, table, changed);
        var wrote;
        wrote, ok := UpsertFile(rel, live[rel], if rel in stored then stored[rel].sha else "", fate.writeFails(rel));
        if !ok {
          NotWritten(up, live.Keys, rel, fate);
          return;
        }
        done := done + {rel};
        changed := changed + if wrote then 1 else 0;
      }
    }

    /** os.Stat of the identity files: directories and missing files are passed over. */
    method StatIdentityFiles() returns (liveWs: map<string, string>)
      ensures liveWs == WsHashes(ws, hash)
    {
      liveWs := map[];
      if ws.enabled {
        for i := 0 to |IDENTITY_FILES|
          invariant forall n :: n in liveWs <==> n in IDENTITY_FILES[..i] && n in ws.files
          invariant forall n :: n in liveWs ==> liveWs[n] == hash(ws.files[n])
        {
          if IDENTITY_FILES[i] !in ws.files {
            continue;
          }
          liveWs := liveWs[IDENTITY_FILES[i] := hash(ws.files[IDENTITY_FILES[i]])];
        }
        assert IDENTITY_FILES[..|IDENTITY_FILES|] == IDENTITY_FILES;
      }
    }

    method UpsertIdentityFiles(liveWs: map<string, string>, stored: Table, fate: SyncFate)
      returns (changed: nat, ok: bool, ghost done: set<string>)
      requires liveWs == WsHashes(ws, hash)
      modifies this`table
      ensures Wrote(old(table), WsUpserts(stored, ws, hash), done, fate, table, changed)
      ensures if ok then done == WsRels(ws) else !Written(WsUpserts(stored, ws, hash), WsRels(ws), fate)
    {
      hide Wrote, Written, WsUpserts, WsRels, WsHashes;
      changed, ok := 0, true;
      var todo := liveWs.Keys;
      ghost var base := table;
      ghost var up := WsUpserts(stored, ws, hash);
      WsUpsertsDomain(stored, ws, hash);
      RelsNone();
      done := {};
      WroteNothing(base, up, fate);
      while todo != {}
        invariant todo <= liveWs.Keys && done == Rels(liveWs.Keys - todo)
        invariant Wrote(base, up, done, fate, table, changed)
        decreases todo
      {
        var name :| name in todo;
        var rel := WS_PREFIX + name;
        RelsAdd(liveWs.Keys - todo, name);
        assert liveWs.Keys - (todo - {name}) == liveWs.Keys - todo + {name};
        todo := todo - {name};
        WsUpsertsAt(stored, ws, hash, name);
        WroteOneMore(base, up, done, rel, fate, table, changed);
        if (if rel in stored then stored[rel].sha else "") != liveWs[name] {
          if fate.writeFails(rel) {
            RelIn(liveWs.Keys, name);
            NotWritten(up, WsRels(ws), rel, fate);
            ok := false;
            return;
          }
          table := table[rel := Row(ws.files[name], liveWs[name])];
          changed := changed + 1;
        }
        done := done + {rel};
      }
      assert liveWs.Keys - todo == liveWs.Keys;
    }

    method DeleteStale(live: map<string, string>, stored: Table, fate: SyncFate) returns (stale: set<string>, ok: bool)
      requires live.Keys == LiveRels(exclude, tree)
      modifies this`table
      ensures stale == Stale(stored, exclude, tree)
      ensures ok <==> stale == {} || !fate.deleteFails
      ensures table == if ok then old(table) - stale else old(table)
    {
      hide LiveRels;
      stale := {};
      var todo := stored.Keys;
      while todo != {}
        invariant todo <= stored.Keys
        invariant stale == Stale(stored, exclude, tree) - todo
        decreases todo
      {
        var rel :| rel in todo;
        todo := todo - {rel};
        if !IsWsPath(rel) && rel !in live {
          stale := stale + {rel};
        }
      }
      if stale != {} {
        if fate.deleteFails {
          return stale, false;
        }
        table := table - stale;
      }
      ok := true;
    }

    /** A Sync that succeeds leaves the synced table; one that a statement stops leaves a part of its writes. */
    method Sync(fate: SyncFate) returns (changed: nat, removed: nat, ok: bool)
      requires TreeOk(tree) && tree.links !! tree.files.Keys
      modifies this`table
      ensures ok ==> table == Synced(old(table), exclude, tree, ws, hash)
      ensures ok ==> changed == |Upserts(old(table), exclude, tree, hash).Keys| + |WsUpserts(old(table), ws, hash).Keys|
      ensures ok ==> removed == |Stale(old(table), exclude, tree)|
      ensures !ok ==> PartlySynced(old(table), exclude, tree, ws, hash, table)
      ensures ok <==>
        && !fate.queryFails && (Stale(old(table), exclude, tree) == {} || !fate.deleteFails)
        && Written(Upserts(old(table), exclude, tree, hash), LiveRels(exclude, tree), fate)
        && Written(WsUpserts(old(table), ws, hash), WsRels(ws), fate)
    {
      hide LiveRels, Upserts, WsUpserts, WsRels, Stale, TreeOk, Wrote, PartlySynced, Written;
      changed, removed := 0, 0;
      var live := Walk();
      var liveWs := StatIdentityFiles();
      var stored := table;
      ghost var up, wsUp := Upserts(stored, exclude, tree, hash), WsUpserts(stored, ws, hash);
      ghost var a: set<string>, b: set<string> := {}, {};
      UpsertsDomain(stored, exclude, tree, hash);
      WsUpsertsDomain(stored, ws, hash);
      if fate.queryFails {
        NothingWritten(stored, exclude, tree, ws, hash);
        return changed, removed, false;
      }
      var files, identities, stale;
      files, ok, a := UpsertFiles(live, stored, fate);
      if !ok {
        FirstLoopStopped(stored, exclude, tree, ws, hash, a, fate, table, files);
        return;
      }
      WroteAll(stored, up, a, fate, table, files);
      WrittenAll(stored, up, a, fate, table, files);
      identities, ok, b := UpsertIdentityFiles(liveWs, stored, fate);
      if !ok {
        SecondLoopStopped(stored, exclude, tree, ws, hash, b, fate, table, identities);
        return;
      }
      WroteAll(stored + up, wsUp, b, fate, table, identities);
      WrittenAll(stored + up, wsUp, b, fate, table, identities);
      stale, ok := DeleteStale(live, stored, fate);
      if !ok {
        SecondLoopStopped(stored, exclude, tree, ws, hash, b, fate, table, identities);
        return;
      }
      return files + identities, |stale|, true;
    }

    /** `rels` is the query's answer, in the database's order. */
    method Restore(rels: seq<string>) returns (ok: bool)
      requires Lists(rels, table)
      modifies this`tree, this`ws
      ensures Restored(tree, ws, ok) == AfterRestore(dir, table, rels, old(tree), old(ws))
    {
      hide SafePath, HasTopLevelFile, Writable, WsName;
      if HasTopLevelFile(tree) {
        return true;
      }
      ghost var start := Restored(tree, ws, true);
      for i := 0 to |rels|
        invariant Restored(tree, ws, true) == RestoreRows(dir, table, rels[..i], start)
      {
        var rel := rels[i];
        var data := table[rel].data;
        ghost var before := Restored(tree, ws, true);
        RestoreNext(dir, table, rels, i, start);
        if rel in LEGACY_PATHS {
          continue;
        }
        if IsWsPath(rel) {
          var name := WsName(rel);
          if name !in IDENTITY_FILES || !ws.enabled {
            continue;
          }
          if name in ws.files || name in ws.others {
            continue;
          }
          ws := ws.(files := ws.files[name := data]);
        } else {
          var abs := SafePath(dir, rel);
          if abs.None? {
            continue;
          }
          if !Writable(tree, abs.value) {
            return false;
          }
          tree := Write(tree, abs.value, data);
        }
      }
      assert rels[..|rels|] == rels;
      return true;
    }
  }
}
