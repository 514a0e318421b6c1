/** Sync and Restore together: what a snapshot keeps, when a second Sync is idle, what comes back. */
module SnapshotRoundTrip {
  import opened Options
  import opened Text
  import opened Paths
  import opened SnapshotStore

  /** SHA-256 as the model takes it: never the empty string, different for different contents. */
  ghost predicate HashOk(hash: Bytes -> string) {
    (forall b :: hash(b) != "") && (forall a, b :: hash(a) == hash(b) ==> a == b)
  }

  ghost predicate RowsOk(table: Table, hash: Bytes -> string) {
    forall rel :: rel in table ==> table[rel].sha == hash(table[rel].data)
  }

  // ---------------------------------------------------------------- Sync

  /** Every row's hash stays the hash of its data. */
  lemma SyncKeepsHashes(stored: Table, exclude: seq<string>, tree: Tree, ws: Workspace, hash: Bytes -> string)
    requires RowsOk(stored, hash)
    ensures RowsOk(Synced(stored, exclude, tree, ws, hash), hash)
  {
    hide LiveRels, Changed, WsRels, Split, WsName, Stale;
  }

  /** A Sync stopped half-way loses no row, and every row is still one it found or one it had to write: the next Sync
      starts from a table like any other. */
  lemma StoppedSyncLosesNothing(stored: Table, exclude: seq<string>, tree: Tree, ws: Workspace, hash: Bytes -> string,
                                t: Table)
    requires RowsOk(stored, hash) && PartlySynced(stored, exclude, tree, ws, hash, t)
    ensures RowsOk(t, hash) && stored.Keys <= t.Keys
    ensures forall rel :: rel in t ==>
      || (rel in stored && t[rel] == stored[rel])
      || (rel in Upserts(stored, exclude, tree, hash) && t[rel] == Upserts(stored, exclude, tree, hash)[rel])
      || (rel in WsUpserts(stored, ws, hash) && t[rel] == WsUpserts(stored, ws, hash)[rel])
  {
    WritesAreHashed(stored, exclude, tree, ws, hash);
    hide Upserts, WsUpserts, Applied;
    var up, wsUp := Upserts(stored, exclude, tree, hash), WsUpserts(stored, ws, hash);
    var a: set<string>, b: set<string> :| t == Applied(Applied(stored, up, a), wsUp, b);
    forall rel
      ensures rel in stored ==> rel in t
      ensures rel in t ==> (rel in stored && t[rel] == stored[rel]) || (rel in up && t[rel] == up[rel])
                           || (rel in wsUp && t[rel] == wsUp[rel])
    {
      AppliedAt(stored, up, a, rel);
      AppliedAt(Applied(stored, up, a), wsUp, b, rel);
    }
  }

  lemma WritesAreHashed(stored: Table, exclude: seq<string>, tree: Tree, ws: Workspace, hash: Bytes -> string)
    ensures RowsOk(Upserts(stored, exclude, tree, hash), hash) && RowsOk(WsUpserts(stored, ws, hash), hash)
  {
    hide LiveRels, Changed, WsRels, Split, WsName;
  }

  /** So a Sync that succeeds after any number of stopped ones leaves exactly the live files all the same. */
  lemma SyncHeals(stored: Table, exclude: seq<string>, tree: Tree, ws: Workspace, hash: Bytes -> string, t: Table,
                  tree': Tree, ws': Workspace, rel: string)
    requires RowsOk(stored, hash) && PartlySynced(stored, exclude, tree, ws, hash, t)
    requires TreeOk(tree') && HashOk(hash) && !IsWsPath(rel)
    ensures rel in Synced(t, exclude, tree', ws', hash) <==> rel in LiveRels(exclude, tree')
    ensures rel in LiveRels(exclude, tree') ==>
      && Split(rel) in tree'.files
      && Synced(t, exclude, tree', ws', hash)[rel] == Row(tree'.files[Split(rel)], hash(tree'.files[Split(rel)]))
  {
    hide RowsOk, PartlySynced, LiveRels, Synced, Split, Joined, TreeOk, HashOk;
    StoppedSyncLosesNothing(stored, exclude, tree, ws, hash, t);
    SessionRowsAreLiveFiles(t, exclude, tree', ws', hash, rel);
    LiveFilesAreFiles(exclude, tree');
  }

  lemma SyncedSessionRow(stored: Table, exclude: seq<string>, tree: Tree, ws: Workspace, hash: Bytes -> string,
                         rel: string)
    requires !IsWsPath(rel)
    ensures rel in Synced(stored, exclude, tree, ws, hash) <==>
      rel in LiveRels(exclude, tree) && (rel in stored || rel in Upserts(stored, exclude, tree, hash))
    ensures rel in Synced(stored, exclude, tree, ws, hash) ==>
      Synced(stored, exclude, tree, ws, hash)[rel] ==
      if rel in Upserts(stored, exclude, tree, hash) then Upserts(stored, exclude, tree, hash)[rel] else stored[rel]
  {
    hide LiveRels, Changed, Split, WsName, LiveWs;
    assert rel !in WsRels(ws);
  }

  /** After a Sync the session rows are exactly the live files, with their contents, whatever the table held. */
  lemma SessionRowsAreLiveFiles(stored: Table, exclude: seq<string>, tree: Tree, ws: Workspace, hash: Bytes -> string,
                                rel: string)
    requires TreeOk(tree) && HashOk(hash) && RowsOk(stored, hash)
    requires !IsWsPath(rel)
    ensures rel in Synced(stored, exclude, tree, ws, hash) <==> rel in LiveRels(exclude, tree)
    ensures rel in LiveRels(exclude, tree) ==>
      && Split(rel) in LiveFiles(exclude, tree)
      && Joined(Split(rel)) == rel
      && Synced(stored, exclude, tree, ws, hash)[rel] == Row(tree.files[Split(rel)], hash(tree.files[Split(rel)]))
  {
    hide LiveRels, Split, Joined, Synced, TreeOk, Live;
    SyncedSessionRow(stored, exclude, tree, ws, hash, rel);
    RelNamesFile(exclude, tree, rel);
  }

  /** Workspace rows outlive every Sync. */
  lemma IdentityRowsStay(stored: Table, exclude: seq<string>, tree: Tree, ws: Workspace, hash: Bytes -> string,
                         rel: string)
    requires IsWsPath(rel) && rel in stored
    ensures rel in Synced(stored, exclude, tree, ws, hash)
    ensures rel !in LiveRels(exclude, tree) && rel !in WsRels(ws) ==>
      Synced(stored, exclude, tree, ws, hash)[rel] == stored[rel]
  {
    hide LiveRels, Changed, WsRels, Split, WsName;
  }

  /** A session file and an identity file want the same row with different contents. */
  ghost predicate Clash(exclude: seq<string>, tree: Tree, ws: Workspace, n: string) {
    && n in LiveWs(ws)
    && WS_PREFIX + n in LiveRels(exclude, tree)
    && Split(WS_PREFIX + n) in tree.files
    && tree.files[Split(WS_PREFIX + n)] != ws.files[n]
  }

  /** Nothing to write and nothing to delete. */
  ghost predicate Idle(stored: Table, exclude: seq<string>, tree: Tree, ws: Workspace, hash: Bytes -> string) {
    && Upserts(stored, exclude, tree, hash) == map[]
    && WsUpserts(stored, ws, hash) == map[]
    && Stale(stored, exclude, tree) == {}
  }

  lemma SyncedRow(stored: Table, exclude: seq<string>, tree: Tree, ws: Workspace, hash: Bytes -> string, rel: string)
    requires rel !in Stale(stored, exclude, tree)
    ensures rel in Synced(stored, exclude, tree, ws, hash) <==>
      rel in WsUpserts(stored, ws, hash) || rel in Upserts(stored, exclude, tree, hash) || rel in stored
    ensures rel in Synced(stored, exclude, tree, ws, hash) ==>
      Synced(stored, exclude, tree, ws, hash)[rel] ==
      if rel in WsUpserts(stored, ws, hash) then WsUpserts(stored, ws, hash)[rel]
      else if rel in Upserts(stored, exclude, tree, hash) then Upserts(stored, exclude, tree, hash)[rel]
      else stored[rel]
  {
    hide Upserts, WsUpserts, Stale;
  }

  /** After a Sync, a live session file is up to date unless an identity file took its row. */
  lemma SessionFileUpToDate(stored: Table, exclude: seq<string>, tree: Tree, ws: Workspace, hash: Bytes -> string,
                            rel: string)
    requires TreeOk(tree) && HashOk(hash) && rel in LiveRels(exclude, tree)
    requires forall n :: !Clash(exclude, tree, ws, n)
    ensures rel !in Upserts(Synced(stored, exclude, tree, ws, hash), exclude, tree, hash)
  {
    hide LiveRels, Split, Joined, Synced, TreeOk, LiveWs;
    RelNamesFile(exclude, tree, rel);
    LiveFilesAreFiles(exclude, tree);
    assert rel !in Stale(stored, exclude, tree);
    SyncedRow(stored, exclude, tree, ws, hash, rel);
    if rel in WsUpserts(stored, ws, hash) || rel in WsRels(ws) {
      var n :| n in LiveWs(ws) && WS_PREFIX + n == rel;
      assert WsName(rel) == n;
      assert !Clash(exclude, tree, ws, n);
    }
  }

  lemma IdentityFileUpToDate(stored: Table, exclude: seq<string>, tree: Tree, ws: Workspace, hash: Bytes -> string,
                             rel: string)
    requires TreeOk(tree) && HashOk(hash) && rel in WsRels(ws)
    requires forall n :: !Clash(exclude, tree, ws, n)
    ensures rel !in WsUpserts(Synced(stored, exclude, tree, ws, hash), ws, hash)
  {
    hide LiveRels, Split, Joined, Synced, TreeOk;
    var n :| n in LiveWs(ws) && WS_PREFIX + n == rel;
    assert WsName(rel) == n && !Clash(exclude, tree, ws, n);
    SyncedRow(stored, exclude, tree, ws, hash, rel);
  }

  lemma NothingStale(stored: Table, exclude: seq<string>, tree: Tree, ws: Workspace, hash: Bytes -> string)
    ensures Stale(Synced(stored, exclude, tree, ws, hash), exclude, tree) == {}
  {
    hide LiveRels, Split;
    var t := Synced(stored, exclude, tree, ws, hash);
    forall rel | rel in t && !IsWsPath(rel) ensures rel in LiveRels(exclude, tree) {
      SyncedSessionRow(stored, exclude, tree, ws, hash, rel);
    }
  }

  /** A clash keeps Sync busy: the row's hash is wrong for one of the two files. */
  lemma ClashKeepsBusy(table: Table, exclude: seq<string>, tree: Tree, ws: Workspace, hash: Bytes -> string, n: string)
    requires HashOk(hash) && Clash(exclude, tree, ws, n)
    ensures !Idle(table, exclude, tree, ws, hash)
  {
    hide LiveRels, Split;
    var rel := WS_PREFIX + n;
    assert WsName(rel) == n;
    if !Changed(table, rel, hash(tree.files[Split(rel)])) {
      assert rel in WsUpserts(table, ws, hash);
    } else {
      assert rel in Upserts(table, exclude, tree, hash);
    }
  }

  lemma IdleChangesNothing(table: Table, exclude: seq<string>, tree: Tree, ws: Workspace, hash: Bytes -> string)
    requires Idle(table, exclude, tree, ws, hash)
    ensures Synced(table, exclude, tree, ws, hash) == table
  {
    hide Upserts, WsUpserts, Stale;
  }

  /** A second Sync writes and deletes nothing, exactly when no live session file under @workspace/ carries an
      identity file's name with other contents; the table is then a fixed point of Sync. */
  lemma SecondSyncIdleIff(stored: Table, exclude: seq<string>, tree: Tree, ws: Workspace, hash: Bytes -> string)
    requires TreeOk(tree) && HashOk(hash)
    ensures Idle(Synced(stored, exclude, tree, ws, hash), exclude, tree, ws, hash)
       <==> forall n :: !Clash(exclude, tree, ws, n)
    ensures (forall n :: !Clash(exclude, tree, ws, n)) ==>
      Synced(Synced(stored, exclude, tree, ws, hash), exclude, tree, ws, hash) ==
        Synced(stored, exclude, tree, ws, hash)
  {
    hide Synced, LiveRels, LiveHashes, WsRels, Stale, TreeOk, HashOk, Clash;
    var t := Synced(stored, exclude, tree, ws, hash);
    if n :| Clash(exclude, tree, ws, n) {
      ClashKeepsBusy(t, exclude, tree, ws, hash, n);
    } else {
      NothingStale(stored, exclude, tree, ws, hash);
      UpsertsDomain(t, exclude, tree, hash);
      forall rel | rel in LiveRels(exclude, tree) ensures rel !in Upserts(t, exclude, tree, hash) {
        SessionFileUpToDate(stored, exclude, tree, ws, hash, rel);
      }
      WsUpsertsDomain(t, ws, hash);
      forall rel | rel in WsRels(ws) ensures rel !in WsUpserts(t, ws, hash) {
        IdentityFileUpToDate(stored, exclude, tree, ws, hash, rel);
      }
      IdleChangesNothing(t, exclude, tree, ws, hash);
    }
  }

  // ---------------------------------------------------------------- Restore

  predicate Session(rel: string) {
    rel !in LEGACY_PATHS && !IsWsPath(rel)
  }

  /** Session rows are stored under the plain form of their path, as Sync stores them. */
  ghost predicate Canonical(table: Table) {
    forall rel :: rel in table && Session(rel) ==> IsPath(Split(rel)) && Joined(Split(rel)) == rel
  }

  function RowPaths(rels: seq<string>): (r: set<Path>) {
    set rel | rel in rels && Session(rel) :: Split(rel)
  }

  /** The files the listed session rows describe. */
  function RowFiles(table: Table, rels: seq<string>): (r: map<Path, Bytes>) {
    map p | p in RowPaths(rels) && Joined(p) in table :: table[Joined(p)].data
  }

  lemma RowFilesAdd(table: Table, rels: seq<string>, rel: string)
    requires rel in table && (Session(rel) ==> Joined(Split(rel)) == rel)
    ensures RowFiles(table, rels + [rel]) ==
      if Session(rel) then RowFiles(table, rels)[Split(rel) := table[rel].data] else RowFiles(table, rels)
  {
    hide Split, Joined, Session;
    if Session(rel) {
      assert RowPaths(rels + [rel]) == RowPaths(rels) + {Split(rel)};
    } else {
      assert RowPaths(rels + [rel]) == RowPaths(rels);
    }
  }

  lemma RowWritesItsFile(dir: Path, rel: string, data: Bytes, to: Restored)
    requires Session(rel) ==> IsPath(Split(rel)) && Joined(Split(rel)) == rel
    ensures RestoreRow(dir, rel, data, to).ok ==>
      RestoreRow(dir, rel, data, to).tree.files ==
      if Session(rel) then to.tree.files[Split(rel) := data] else to.tree.files
  {
    hide Split, Joined, SafePath, WsName, Writable;
    if Session(rel) {
      SafePathOfPath(dir, Split(rel));
    }
  }

  /** What an undisturbed Restore does to the files: it writes the listed session rows, and nothing else. */
  lemma {:induction false} RestoreWritesRows(dir: Path, table: Table, rels: seq<string>, to: Restored)
    requires Canonical(table) && forall i :: 0 <= i < |rels| ==> rels[i] in table
    ensures RestoreRows(dir, table, rels, to).ok ==>
      RestoreRows(dir, table, rels, to).tree.files == to.tree.files + RowFiles(table, rels)
  {
    hide Split, Joined, Session, RestoreRow, RowFiles;
    if rels == [] {
      NoRowFiles(table);
    } else {
      var k := |rels| - 1;
      RestoreWritesRows(dir, table, rels[..k], to);
      RowFilesAdd(table, rels[..k], rels[k]);
      assert rels[..k] + [rels[k]] == rels;
      RowWritesItsFile(dir, rels[k], table[rels[k]].data, RestoreRows(dir, table, rels[..k], to));
    }
  }

  lemma NoRowFiles(table: Table)
    ensures RowFiles(table, []) == map[]
  {
  }

  /** A directory into which every live file can still be written. */
  ghost predicate Open(to: Tree, live: map<Path, Bytes>) {
    to.links == {} && to.files.Keys <= live.Keys && to.dirs !! live.Keys
  }

  lemma OpenTakesRow(dir: Path, exclude: seq<string>, tree: Tree, rel: string, data: Bytes, to: Restored)
    requires TreeOk(tree) && to.ok && Open(to.tree, LiveFiles(exclude, tree))
    requires Session(rel) ==> rel in LiveRels(exclude, tree)
    ensures RestoreRow(dir, rel, data, to).ok
    ensures Open(RestoreRow(dir, rel, data, to).tree, LiveFiles(exclude, tree))
  {
    hide Split, Joined, SafePath, WsName, LiveRels, Live;
    if Session(rel) {
      LiveRelIsSafe(dir, exclude, tree, rel);
      var p := Split(rel);
      forall n | 0 < n < |p| ensures p[..n] !in tree.files {
        assert p[..n] <= p;
      }
      assert Writable(to.tree, p);
    }
  }

  lemma {:induction false} OpenTakesRows(dir: Path, table: Table, exclude: seq<string>, tree: Tree, rels: seq<string>,
                                         to: Restored)
    requires forall i :: 0 <= i < |rels| ==> rels[i] in table
    requires TreeOk(tree) && to.ok && Open(to.tree, LiveFiles(exclude, tree))
    requires forall rel :: rel in table && Session(rel) ==> rel in LiveRels(exclude, tree)
    ensures RestoreRows(dir, table, rels, to).ok
    ensures Open(RestoreRows(dir, table, rels, to).tree, LiveFiles(exclude, tree))
  {
    hide RestoreRow, TreeOk, LiveRels, LiveFiles, Open, Session;
    if rels != [] {
      var k := |rels| - 1;
      OpenTakesRows(dir, table, exclude, tree, rels[..k], to);
      OpenTakesRow(dir, exclude, tree, rels[k], table[rels[k]].data, RestoreRows(dir, table, rels[..k], to));
    }
  }

  lemma SyncedIsCanonical(stored: Table, exclude: seq<string>, tree: Tree, ws: Workspace, hash: Bytes -> string)
    requires TreeOk(tree)
    ensures Canonical(Synced(stored, exclude, tree, ws, hash))
    ensures forall rel :: rel in Synced(stored, exclude, tree, ws, hash) && Session(rel) ==>
      rel in LiveRels(exclude, tree)
  {
    hide Split, Joined, Synced, LiveRels, Live;
    forall rel | rel in Synced(stored, exclude, tree, ws, hash) && Session(rel)
      ensures rel in LiveRels(exclude, tree) && IsPath(Split(rel)) && Joined(Split(rel)) == rel
    {
      SyncedSessionRow(stored, exclude, tree, ws, hash, rel);
      RelNamesFile(exclude, tree, rel);
    }
  }

  /** The live files that do not lie under @workspace/. */
  function SessionFiles(exclude: seq<string>, tree: Tree): (r: map<Path, Bytes>) {
    map p | p in LiveFiles(exclude, tree) && !IsWsPath(Joined(p)) :: tree.files[p]
  }

  lemma SyncedRowFiles(stored: Table, exclude: seq<string>, tree: Tree, ws: Workspace, hash: Bytes -> string,
                       rels: seq<string>)
    requires TreeOk(tree) && HashOk(hash) && RowsOk(stored, hash)
    requires Lists(rels, Synced(stored, exclude, tree, ws, hash))
    ensures RowFiles(Synced(stored, exclude, tree, ws, hash), rels) == SessionFiles(exclude, tree)
  {
    hide Split, Joined, Synced, LiveRels, TreeOk, HashOk, RowsOk;
    var t := Synced(stored, exclude, tree, ws, hash);
    forall p | p in RowPaths(rels)
      ensures Joined(p) in t && p in SessionFiles(exclude, tree) && SessionFiles(exclude, tree)[p] == t[Joined(p)].data
    {
      var rel :| rel in rels && Session(rel) && Split(rel) == p;
      SessionRowsAreLiveFiles(stored, exclude, tree, ws, hash, rel);
    }
    forall p | p in SessionFiles(exclude, tree) ensures p in RowPaths(rels) {
      LivePathHasRel(exclude, tree, p);
      SessionRowsAreLiveFiles(stored, exclude, tree, ws, hash, Joined(p));
    }
  }

  lemma LivePathHasRel(exclude: seq<string>, tree: Tree, p: Path)
    requires TreeOk(tree) && p in LiveFiles(exclude, tree)
    ensures Joined(p) in LiveRels(exclude, tree) && Split(Joined(p)) == p && Joined(p) !in LEGACY_PATHS
  {
    hide Split, Joined;
    SplitJoined(p);
  }

  /** Round trip: from any earlier table, Sync and then Restore into a directory without files (directories made
      at boot do not matter, unless one stands where a file was) succeeds and brings back exactly the live
      session files; it brings back all live files exactly when none lies under @workspace/. */
  lemma RoundTrip(dir: Path, stored: Table, exclude: seq<string>, tree: Tree, ws: Workspace, hash: Bytes -> string,
                  rels: seq<string>, to: Tree, toWs: Workspace)
    requires TreeOk(tree) && HashOk(hash) && RowsOk(stored, hash)
    requires Lists(rels, Synced(stored, exclude, tree, ws, hash))
    requires to.files == map[] && to.links == {} && to.dirs !! LiveFiles(exclude, tree).Keys
    ensures AfterRestore(dir, Synced(stored, exclude, tree, ws, hash), rels, to, toWs).ok
    ensures AfterRestore(dir, Synced(stored, exclude, tree, ws, hash), rels, to, toWs).tree.files ==
      SessionFiles(exclude, tree)
    ensures SessionFiles(exclude, tree) == LiveFiles(exclude, tree)
       <==> forall p :: p in LiveFiles(exclude, tree) ==> !IsWsPath(Joined(p))
  {
    var t := Synced(stored, exclude, tree, ws, hash);
    var start := Restored(to, toWs, true);
    SessionFilesAll(exclude, tree);
    hide Synced, LiveFiles, SessionFiles, RestoreRows, RowFiles, TreeOk, RowsOk, HashOk, Joined, Split;
    SyncedIsCanonical(stored, exclude, tree, ws, hash);
    OpenTakesRows(dir, t, exclude, tree, rels, start);
    RestoreWritesRows(dir, t, rels, start);
    SyncedRowFiles(stored, exclude, tree, ws, hash, rels);
    assert to.files + SessionFiles(exclude, tree) == SessionFiles(exclude, tree);
  }

  lemma SessionFilesAll(exclude: seq<string>, tree: Tree)
    ensures SessionFiles(exclude, tree) == LiveFiles(exclude, tree)
       <==> forall p :: p in LiveFiles(exclude, tree) ==> !IsWsPath(Joined(p))
  {
    hide Joined, Live;
    if forall p :: p in LiveFiles(exclude, tree) ==> !IsWsPath(Joined(p)) {
    } else {
      var p :| p in LiveFiles(exclude, tree) && IsWsPath(Joined(p));
      assert p !in SessionFiles(exclude, tree);
    }
  }

  // ---------------------------------------------------------------- identity files

  /** The identity files the listed rows bring to a workspace: those with no local counterpart. */
  function IdentityRows(table: Table, rels: seq<string>, ws: Workspace): (r: map<string, Bytes>) {
    map n | n in IDENTITY_FILES && ws.enabled && n !in ws.files && n !in ws.others && WS_PREFIX + n in rels
      && WS_PREFIX + n in table ::
      table[WS_PREFIX + n].data
  }

  lemma IdentityRowsAdd(table: Table, rels: seq<string>, rel: string, ws: Workspace)
    requires rel in table
    ensures IdentityRows(table, rels + [rel], ws) ==
      if IsWsPath(rel) && WsName(rel) in IDENTITY_FILES && ws.enabled && WsName(rel) !in ws.files
        && WsName(rel) !in ws.others
      then IdentityRows(table, rels, ws)[WsName(rel) := table[rel].data] else IdentityRows(table, rels, ws)
  {
    var before, after := IdentityRows(table, rels, ws), IdentityRows(table, rels + [rel], ws);
    forall n | n in IDENTITY_FILES
      ensures WS_PREFIX + n in rels + [rel] <==> WS_PREFIX + n in rels || (IsWsPath(rel) && WsName(rel) == n)
    {
      RelOfName(n, rel);
    }
    hide WsName, IsWsPath;
    assert forall n :: n in after <==> n in before || (n in after && IsWsPath(rel) && WsName(rel) == n);
    if IsWsPath(rel) {
      RelOfName(WsName(rel), rel);
    }
  }

  lemma RelOfName(n: string, rel: string)
    ensures WS_PREFIX + n == rel <==> IsWsPath(rel) && WsName(rel) == n
  {
    assert WsName(WS_PREFIX + n) == n;
    assert IsWsPath(rel) ==> WS_PREFIX + WsName(rel) == rel;
  }

  lemma RowWritesIdentity(dir: Path, rel: string, data: Bytes, to: Restored)
    ensures RestoreRow(dir, rel, data, to).ws ==
      if IsWsPath(rel) && WsName(rel) in IDENTITY_FILES && to.ws.enabled && WsName(rel) !in to.ws.files
        && WsName(rel) !in to.ws.others
      then to.ws.(files := to.ws.files[WsName(rel) := data]) else to.ws
  {
    hide SafePath, Writable, Write;
  }

  /** Restore brings back the identity rows whose local file is absent and leaves the other names alone, in
      whatever order the rows come. */
  lemma {:induction false} RestoreWritesIdentities(dir: Path, table: Table, rels: seq<string>, to: Restored)
    requires forall i :: 0 <= i < |rels| ==> rels[i] in table
    ensures RestoreRows(dir, table, rels, to).ok ==>
      RestoreRows(dir, table, rels, to).ws == to.ws.(files := to.ws.files + IdentityRows(table, rels, to.ws))
  {
    hide WsName, RestoreRow, IdentityRows;
    if rels == [] {
      NoIdentityRows(table, to.ws);
    } else {
      var k := |rels| - 1;
      RestoreWritesIdentities(dir, table, rels[..k], to);
      IdentityRowsAdd(table, rels[..k], rels[k], to.ws);
      assert rels[..k] + [rels[k]] == rels;
      RowWritesIdentity(dir, rels[k], table[rels[k]].data, RestoreRows(dir, table, rels[..k], to));
      if IsWsPath(rels[k]) {
        AlreadyWritten(table, rels[..k], rels[k], to.ws);
      }
    }
  }

  lemma NoIdentityRows(table: Table, ws: Workspace)
    ensures IdentityRows(table, [], ws) == map[]
  {
  }

  lemma AlreadyWritten(table: Table, rels: seq<string>, rel: string, ws: Workspace)
    requires IsWsPath(rel) && rel in table
    ensures WsName(rel) in IdentityRows(table, rels, ws) ==>
      WsName(rel) in IDENTITY_FILES && ws.enabled && WsName(rel) !in ws.files && WsName(rel) !in ws.others
    ensures WsName(rel) in IdentityRows(table, rels, ws) ==>
      IdentityRows(table, rels, ws)[WsName(rel)] == table[rel].data
  {
    assert WS_PREFIX + WsName(rel) == rel;
  }

  /** After a Sync, a live identity file's row holds its contents, unless a session file of the same name with
      other contents took a row whose hash already matched. */
  lemma IdentityRowIff(stored: Table, exclude: seq<string>, tree: Tree, ws: Workspace, hash: Bytes -> string, n: string)
    requires TreeOk(tree) && HashOk(hash) && RowsOk(stored, hash) && n in LiveWs(ws)
    ensures WS_PREFIX + n in Synced(stored, exclude, tree, ws, hash)
    ensures Synced(stored, exclude, tree, ws, hash)[WS_PREFIX + n].data == ws.files[n]
       <==> !(Clash(exclude, tree, ws, n) && WS_PREFIX + n in stored && stored[WS_PREFIX + n].data == ws.files[n])
  {
    hide LiveRels, Split, Joined, Synced, TreeOk, LiveFiles;
    var rel := WS_PREFIX + n;
    assert WsName(rel) == n && rel in WsRels(ws);
    SyncedRow(stored, exclude, tree, ws, hash, rel);
    RelNamesFile(exclude, tree, rel);
    LiveFilesAreFiles(exclude, tree);
  }

  /** Round trip for identity files: a live one without a clash reaches any workspace that lacks it. */
  lemma IdentityRoundTrip(dir: Path, stored: Table, exclude: seq<string>, tree: Tree, ws: Workspace,
                          hash: Bytes -> string, rels: seq<string>, to: Tree, toWs: Workspace, n: string)
    requires TreeOk(tree) && HashOk(hash) && RowsOk(stored, hash)
    requires Lists(rels, Synced(stored, exclude, tree, ws, hash))
    requires to.files == map[] && to.links == {} && to.dirs !! LiveFiles(exclude, tree).Keys
    requires n in LiveWs(ws) && !Clash(exclude, tree, ws, n)
    requires toWs.enabled && n !in toWs.files && n !in toWs.others
    ensures n in AfterRestore(dir, Synced(stored, exclude, tree, ws, hash), rels, to, toWs).ws.files
    ensures AfterRestore(dir, Synced(stored, exclude, tree, ws, hash), rels, to, toWs).ws.files[n] == ws.files[n]
  {
    var t := Synced(stored, exclude, tree, ws, hash);
    assert n in IDENTITY_FILES;
    RoundTrip(dir, stored, exclude, tree, ws, hash, rels, to, toWs);
    hide Synced, LiveFiles, LiveWs, RestoreRows, TreeOk, RowsOk, HashOk, Clash, SessionFiles;
    IdentityRowIff(stored, exclude, tree, ws, hash, n);
    RestoreWritesIdentities(dir, t, rels, Restored(to, toWs, true));
  }

  // ---------------------------------------------------------------- where the documentation promises more

  /** How many of the rows Restore gets through before it fails. */
  function Reach(dir: Path, table: Table, rels: seq<string>, to: Restored): (n: nat)
    requires to.ok && forall i :: 0 <= i < |rels| ==> rels[i] in table
    ensures n <= |rels| && RestoreRows(dir, table, rels[..n], to).ok
    ensures n < |rels| ==> !RestoreRows(dir, table, rels[..n + 1], to).ok
  {
    if rels == [] then 0
    else if RestoreRows(dir, table, rels, to).ok then assert rels[..|rels|] == rels; |rels|
    else
      var front := rels[..|rels| - 1];
      var n := Reach(dir, table, front, to);
      assert front[..n] == rels[..n] && (n < |front| ==> front[..n + 1] == rels[..n + 1]) && rels[..|rels|] == rels;
      n
  }

  /** The last of the rows that writes file p. */
  function LastRow(dir: Path, rels: seq<string>, p: Path): (r: Option<string>)
    ensures r.Some? ==> r.value in rels
  {
    if rels == [] then None
    else if Session(rels[|rels| - 1]) && SafePath(dir, rels[|rels| - 1]) == Some(p) then Some(rels[|rels| - 1])
    else LastRow(dir, rels[..|rels| - 1], p)
  }

  lemma RowWritesOne(dir: Path, rel: string, data: Bytes, to: Restored, p: Path)
    requires RestoreRow(dir, rel, data, to).ok
    ensures var files := RestoreRow(dir, rel, data, to).tree.files;
      if Session(rel) && SafePath(dir, rel) == Some(p) then p in files && files[p] == data
      else (p in files <==> p in to.tree.files) && (p in files ==> files[p] == to.tree.files[p])
  {
    hide SafePath, WsName, Writable;
  }

  /** Of any table and any order of its rows: a file holds the data of the last row that wrote it. */
  lemma {:induction false} LastRowWins(dir: Path, table: Table, rels: seq<string>, to: Restored, p: Path)
    requires forall i :: 0 <= i < |rels| ==> rels[i] in table
    requires RestoreRows(dir, table, rels, to).ok
    ensures var files, last := RestoreRows(dir, table, rels, to).tree.files, LastRow(dir, rels, p);
      if last.Some? then p in files && files[p] == table[last.value].data
      else (p in files <==> p in to.tree.files) && (p in files ==> files[p] == to.tree.files[p])
  {
    hide SafePath, Session, RestoreRow;
    if rels != [] {
      var k := |rels| - 1;
      LastRowWins(dir, table, rels[..k], to, p);
      RowWritesOne(dir, rels[k], table[rels[k]].data, RestoreRows(dir, table, rels[..k], to), p);
    }
  }

  lemma FailureKeepsFiles(dir: Path, table: Table, rels: seq<string>, to: Restored)
    requires to.ok && forall i :: 0 <= i < |rels| ==> rels[i] in table
    ensures var n := Reach(dir, table, rels, to);
      RestoreRows(dir, table, rels, to).tree == RestoreRows(dir, table, rels[..n], to).tree
  {
    hide SafePath, WsName, Writable;
    var n := Reach(dir, table, rels, to);
    if n < |rels| {
      RestoreStops(dir, table, rels, n + 1, to);
      assert rels[..n + 1][..n] == rels[..n];
    } else {
      assert rels[..n] == rels;
    }
  }

  /** "Existing local files always win", on a Restore that succeeds or fails part-way: a file keeps its contents exactly
      when some file or link stands at the top level, or the last row for it that was reached holds the same. */
  lemma LocalFileWinsIff(dir: Path, table: Table, rels: seq<string>, tree: Tree, ws: Workspace, p: Path)
    requires forall i :: 0 <= i < |rels| ==> rels[i] in table
    requires p in tree.files
    ensures p in AfterRestore(dir, table, rels, tree, ws).tree.files
    ensures var last := LastRow(dir, rels[..Reach(dir, table, rels, Restored(tree, ws, true))], p);
      AfterRestore(dir, table, rels, tree, ws).tree.files[p] == tree.files[p] <==>
        (HasTopLevelFile(tree) || last.None? || table[last.value].data == tree.files[p])
  {
    hide SafePath, HasTopLevelFile, RestoreRows, Session, LastRow;
    if !HasTopLevelFile(tree) {
      var to := Restored(tree, ws, true);
      FailureKeepsFiles(dir, table, rels, to);
      LastRowWins(dir, table, rels[..Reach(dir, table, rels, to)], to, p);
    }
  }

  lemma RestoreOneRow(dir: Path, table: Table, rel: string, tree: Tree, ws: Workspace)
    requires rel in table && !HasTopLevelFile(tree)
    ensures AfterRestore(dir, table, [rel], tree, ws) == RestoreRow(dir, rel, table[rel].data, Restored(tree, ws, true))
  {
    hide RestoreRow;
    var rels := [rel];
    assert rels[..|rels| - 1] == [];
    assert RestoreRows(dir, table, rels[..|rels| - 1], Restored(tree, ws, true)) == Restored(tree, ws, true);
  }

  lemma NestedFileOverwritten(dir: Path, p: Path, was: Bytes, row: Row, ws: Workspace)
    requires IsPath(p) && |p| == 2 && Session(Joined(p))
    ensures var tree := Tree(map[p := was], {p[..1]}, {});
            var r := AfterRestore(dir, map[Joined(p) := row], [Joined(p)], tree, ws);
            r.ok && r.tree.files == map[p := row.data]
  {
    hide SafePath, Joined, AfterRestore, IsPath;
    var tree := Tree(map[p := was], {p[..1]}, {});
    SafePathOfPath(dir, p);
    RestoreOneRow(dir, map[Joined(p) := row], Joined(p), tree, ws);
    WritableBelow(p, was);
  }

  lemma WritableBelow(p: Path, was: Bytes)
    requires |p| == 2
    ensures Writable(Tree(map[p := was], {p[..1]}, {}), p)
  {
  }

  /** A nested local file overwritten by a row. */
  lemma NestedFileLoses()
    ensures var tree := Tree(map[["memory", "notes.md"] := [1]], {["memory"]}, {});
            var table: Table := map["memory/notes.md" := Row([2], "")];
            var r := AfterRestore(["data"], table, ["memory/notes.md"], tree, Workspace(false, map[], {}));
            r.ok && r.tree.files == map[["memory", "notes.md"] := [2]]
  {
    var p := ["memory", "notes.md"];
    assert Joined(p) == "memory/notes.md" by {
      assert p[1..] == ["notes.md"];
    }
    assert IsPath(p);
    assert p[..1] == ["memory"];
    assert Session("memory/notes.md") by {
      var rel := "memory/notes.md";
      assert rel[7] == 'n' && forall moved :: moved in LEGACY_PATHS ==> moved[7] != 'n';
      assert rel[0] != WS_PREFIX[0];
    }
    hide Joined, AfterRestore, IsPath, Session;
    NestedFileOverwritten(["data"], p, [1], Row([2], ""), Workspace(false, map[], {}));
  }

  /** A row that names the file is among these. */
  lemma {:induction false} LastRowIff(dir: Path, rels: seq<string>, p: Path)
    ensures LastRow(dir, rels, p).None? <==>
      forall i :: 0 <= i < |rels| ==> !(Session(rels[i]) && SafePath(dir, rels[i]) == Some(p))
  {
    hide Session, SafePath;
    if rels != [] {
      var front := rels[..|rels| - 1];
      LastRowIff(dir, front, p);
      assert forall i :: 0 <= i < |front| ==> front[i] == rels[i];
    }
  }

  /** The path is as it was: no file, or one with the same contents. */
  predicate Unchanged(before: map<Path, Bytes>, after: map<Path, Bytes>, p: Path) {
    (p in before <==> p in after) && (p in before ==> before[p] == after[p])
  }

  /** "Excluded paths are never written", on any tree, of any table, also when Restore fails part-way: they are as they
      were exactly when something stands at the top level, or for each of them the last row that was reached repeats
      what the file holds. */
  lemma ExcludedUnchangedIff(dir: Path, table: Table, exclude: seq<string>, rels: seq<string>, tree: Tree,
                             ws: Workspace)
    requires forall i :: 0 <= i < |rels| ==> rels[i] in table
    ensures var reached := rels[..Reach(dir, table, rels, Restored(tree, ws, true))];
      (forall p :: Excluded(exclude, Joined(p)) ==>
       Unchanged(tree.files, AfterRestore(dir, table, rels, tree, ws).tree.files, p))
      <==> (HasTopLevelFile(tree) || forall p :: Excluded(exclude, Joined(p)) ==>
              LastRow(dir, reached, p).None?
                || (p in tree.files && tree.files[p] == table[LastRow(dir, reached, p).value].data))
  {
    hide Joined, SafePath, HasTopLevelFile, RestoreRows, Session, Excluded, LastRow;
    if !HasTopLevelFile(tree) {
      var to := Restored(tree, ws, true);
      FailureKeepsFiles(dir, table, rels, to);
      var reached := rels[..Reach(dir, table, rels, to)];
      var files := AfterRestore(dir, table, rels, tree, ws).tree.files;
      forall p ensures Unchanged(tree.files, files, p) <==>
        (LastRow(dir, reached, p).None?
         || (p in tree.files && tree.files[p] == table[LastRow(dir, reached, p).value].data))
      {
        LastRowWins(dir, table, reached, to, p);
      }
    }
  }

  /** Into a directory without files no excluded path is written exactly when a link at the top level stops Restore, or
      no row that was reached names one, by its cleaned path. */
  lemma ExcludedWrittenIff(dir: Path, table: Table, exclude: seq<string>, rels: seq<string>, tree: Tree, ws: Workspace)
    requires forall i :: 0 <= i < |rels| ==> rels[i] in table
    requires tree.files == map[]
    ensures (forall p :: p in AfterRestore(dir, table, rels, tree, ws).tree.files ==> !Excluded(exclude, Joined(p)))
       <==> (HasTopLevelFile(tree) ||
             forall i :: 0 <= i < Reach(dir, table, rels, Restored(tree, ws, true)) ==>
               !NamesExcluded(dir, exclude, rels[i]))
  {
    hide Joined, SafePath, RestoreRows, Session, Excluded, LastRow, HasTopLevelFile;
    var to := Restored(tree, ws, true);
    FailureKeepsFiles(dir, table, rels, to);
    var n := Reach(dir, table, rels, to);
    var files := AfterRestore(dir, table, rels, tree, ws).tree.files;
    if !HasTopLevelFile(tree) {
      forall p ensures p in files <==> exists i :: 0 <= i < n && Session(rels[i]) && SafePath(dir, rels[i]) == Some(p) {
        LastRowWins(dir, table, rels[..n], to, p);
        LastRowIff(dir, rels[..n], p);
        assert forall i :: 0 <= i < n ==> rels[..n][i] == rels[i];
      }
      assert forall i :: 0 <= i < n && NamesExcluded(dir, exclude, rels[i]) ==> SafePath(dir, rels[i]).value in files;
    }
  }

  /** The row is a session row whose file is excluded. */
  predicate NamesExcluded(dir: Path, exclude: seq<string>, rel: string) {
    Session(rel) && SafePath(dir, rel).Some? && Excluded(exclude, Joined(SafePath(dir, rel).value))
  }

  /** The rows a Sync leaves name no excluded file. */
  lemma SyncedRowsAreNotExcluded(dir: Path, stored: Table, exclude: seq<string>, tree: Tree, ws: Workspace,
                                 hash: Bytes -> string, rel: string)
    requires TreeOk(tree) && rel in Synced(stored, exclude, tree, ws, hash)
    ensures !NamesExcluded(dir, exclude, rel)
    ensures !IsWsPath(rel) ==> rel !in LEGACY_PATHS && !Excluded(exclude, rel)
  {
    hide Joined, Excluded, Synced, Split, SafePath, LiveRels, TreeOk;
    if !IsWsPath(rel) {
      SyncedSessionRow(stored, exclude, tree, ws, hash, rel);
      LiveRelIsSafe(dir, exclude, tree, rel);
      LiveIsNotExcluded(exclude, tree, Split(rel));
    }
  }

  lemma LiveIsNotExcluded(exclude: seq<string>, tree: Tree, p: Path)
    requires p in LiveFiles(exclude, tree)
    ensures Joined(p) !in LEGACY_PATHS && !Excluded(exclude, Joined(p))
  {
    hide Joined, Excluded;
  }

  /** An excluded file written by a row. */
  lemma ExcludedRowIsWritten(data: Bytes)
    ensures Excluded(["a"], "a")
    ensures var table: Table := map["a" := Row(data, "")];
            var r := AfterRestore(["data"], table, ["a"], Tree(map[], {}, {}), Workspace(false, map[], {}));
            r.ok && r.tree.files == map[["a"] := data]
  {
    var p, row := ["a"], Row(data, "");
    var tree, ws := Tree(map[], {}, {}), Workspace(false, map[], {});
    TrimFixed("a");
    assert ExcludedBy("a", "a") && ["a"][0] == "a";
    assert Joined(p) == "a" && IsPath(p);
    assert "a" !in LEGACY_PATHS && "a"[0] != WS_PREFIX[0];
    SafePathOfPath(["data"], p);
    hide Joined, AfterRestore, IsPath, SafePath;
    RestoreOneRow(["data"], map["a" := row], "a", tree, ws);
    assert Write(tree, p, data).files == map[p := data];
  }
}
