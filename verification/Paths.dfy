/** Slash-separated relative paths and filepath.Join under a root, as internal/persist/persist.go uses them. */
module Paths {
  import opened Options

  /** The names along a path, outermost first. */
  type Path = seq<string>

  predicate IsName(s: string) {
    s != "" && s != "." && s != ".." && '/' !in s
  }

  predicate IsPath(p: Path) {
    p != [] && forall i :: 0 <= i < |p| ==> IsName(p[i])
  }

  function Joined(p: Path): (s: string) {
    if p == [] then "" else if |p| == 1 then p[0] else p[0] + "/" + Joined(p[1..])
  }

  /** Split at every slash; adjacent slashes give empty pieces. */
  function Split(s: string): (r: seq<string>)
    ensures r != []
  {
    if s == "" then [""]
    else
      var rest := Split(s[1..]);
      if s[0] == '/' then [""] + rest else [[s[0]] + rest[0]] + rest[1..]
  }

  lemma {:induction false} SplitName(name: string)
    requires '/' !in name
    ensures Split(name) == [name]
  {
    if name != "" {
      assert name == [name[0]] + name[1..];
      SplitName(name[1..]);
    }
  }

  lemma {:induction false} SplitAtSlash(name: string, rest: string)
    requires '/' !in name
    ensures Split(name + "/" + rest) == [name] + Split(rest)
  {
    var s := name + "/" + rest;
    if name == "" {
      assert s[0] == '/' && s[1..] == rest;
    } else {
      assert name == [name[0]] + name[1..];
      assert s[1..] == name[1..] + "/" + rest;
      SplitAtSlash(name[1..], rest);
    }
  }

  lemma {:induction false} SplitJoined(p: Path)
    requires IsPath(p)
    ensures Split(Joined(p)) == p
  {
    assert IsName(p[0]);
    assert Joined(p) == if |p| == 1 then p[0] else p[0] + "/" + Joined(p[1..]);
    hide Split, Joined;
    if |p| == 1 {
      SplitName(p[0]);
    } else {
      SplitJoined(p[1..]);
      SplitAtSlash(p[0], Joined(p[1..]));
    }
  }

  lemma JoinedInjective(p: Path, q: Path)
    requires IsPath(p) && IsPath(q) && Joined(p) == Joined(q)
    ensures p == q
  {
    SplitJoined(p);
    SplitJoined(q);
  }

  /** filepath.Clean of a rooted path, piece by piece. */
  function Resolve(at: Path, pieces: seq<string>): (r: Path)
    decreases |pieces|
  {
    if pieces == [] then at
    else if pieces[0] == "" || pieces[0] == "." then Resolve(at, pieces[1..])
    else if pieces[0] == ".." then Resolve(if at == [] then at else at[..|at| - 1], pieces[1..])
    else Resolve(at + [pieces[0]], pieces[1..])
  }

  /** safePath: the names below `dir` that a stored path resolves to, if it stays strictly below. */
  function SafePath(dir: Path, rel: string): (r: Option<Path>) {
    if rel != "" && rel[0] == '/' then None
    else
      var abs := Resolve(dir, Split(rel));
      if |abs| > |dir| && abs[..|dir|] == dir then Some(abs[|dir|..]) else None
  }

  lemma {:induction false} ResolveNames(at: Path, names: seq<string>)
    requires forall i :: 0 <= i < |names| ==> IsName(names[i])
    ensures Resolve(at, names) == at + names
    decreases |names|
  {
    if names != [] {
      ResolveNames(at + [names[0]], names[1..]);
      assert at + [names[0]] + names[1..] == at + names;
    }
  }

  lemma {:induction false} SplitPieces(s: string)
    ensures forall i :: 0 <= i < |Split(s)| ==> '/' !in Split(s)[i]
  {
    if s != "" {
      SplitPieces(s[1..]);
    }
  }

  lemma {:induction false} ResolveStaysNames(at: Path, pieces: seq<string>)
    requires forall i :: 0 <= i < |at| ==> IsName(at[i])
    requires forall i :: 0 <= i < |pieces| ==> '/' !in pieces[i]
    ensures forall i :: 0 <= i < |Resolve(at, pieces)| ==> IsName(Resolve(at, pieces)[i])
    decreases |pieces|
  {
    if pieces != [] {
      if pieces[0] == "" || pieces[0] == "." {
        ResolveStaysNames(at, pieces[1..]);
      } else if pieces[0] == ".." {
        ResolveStaysNames(if at == [] then at else at[..|at| - 1], pieces[1..]);
      } else {
        ResolveStaysNames(at + [pieces[0]], pieces[1..]);
      }
    }
  }

  /** A path written by Sync comes back as itself. */
  lemma SafePathOfPath(dir: Path, p: Path)
    requires IsPath(p)
    ensures SafePath(dir, Joined(p)) == Some(p)
  {
    SplitJoined(p);
    ResolveNames(dir, p);
    assert Joined(p)[0] == p[0][0] && p[0][0] in p[0];
  }

  /** Whatever is stored, what safePath lets through is a proper path below the directory. */
  lemma SafePathIsPath(dir: Path, rel: string)
    requires forall i :: 0 <= i < |dir| ==> IsName(dir[i])
    ensures SafePath(dir, rel).Some? ==> IsPath(SafePath(dir, rel).value)
  {
    SplitPieces(rel);
    ResolveStaysNames(dir, Split(rel));
  }

  lemma {:induction false} ResolveConcat(at: Path, a: seq<string>, b: seq<string>)
    ensures Resolve(at, a + b) == Resolve(Resolve(at, a), b)
    decreases |a|
  {
    if a == [] {
      assert a + b == b;
    } else {
      assert (a + b)[1..] == a[1..] + b && (a + b)[0] == a[0];
      ResolveConcat(if at == [] then at else at[..|at| - 1], a[1..], b);
      ResolveConcat(at + [a[0]], a[1..], b);
      ResolveConcat(at, a[1..], b);
    }
  }

  /** The pieces name the same place. */
  ghost predicate SamePlace(a: seq<string>, b: seq<string>) {
    forall at: Path :: Resolve(at, a) == Resolve(at, b)
  }

  /** How a stored path is read: a name and the ".." behind it cancel, "." and empty pieces do not count, and ".." goes
      no higher than the root. By these rules every path comes down to names, and names are read as they stand. */
  lemma PiecesCancel(a: seq<string>, name: string, b: seq<string>)
    requires IsName(name)
    ensures SamePlace(a + [name, ".."] + b, a + b)
    ensures SamePlace(a + ["."] + b, a + b) && SamePlace(a + [""] + b, a + b)
    ensures Resolve([], [".."] + b) == Resolve([], b)
  {
    forall at: Path
      ensures Resolve(at, a + [name, ".."] + b) == Resolve(at, a + b)
      ensures Resolve(at, a + ["."] + b) == Resolve(at, a + b) == Resolve(at, a + [""] + b)
    {
      var here := Resolve(at, a);
      ResolveConcat(at, a, b);
      StepBack(here, name);
      hide Resolve;
      ResolveConcat(at, a + [name, ".."], b);
      ResolveConcat(at, a, [name, ".."]);
      ResolveConcat(at, a + ["."], b);
      ResolveConcat(at, a, ["."]);
      ResolveConcat(at, a + [""], b);
      ResolveConcat(at, a, [""]);
    }
    ResolveConcat([], [".."], b);
    assert [".."][1..] == [];
  }

  lemma StepBack(at: Path, name: string)
    requires IsName(name)
    ensures Resolve(at, [name, ".."]) == at && Resolve(at, ["."]) == at && Resolve(at, [""]) == at
  {
    assert (at + [name])[..|at|] == at;
    assert [name, ".."][1..] == [".."] && [".."][1..] == [] && ["."][1..] == [] && [""][1..] == [];
  }

  /** What safePath lets through: no absolute path, and only what lies strictly below the directory. */
  lemma SafePathIff(dir: Path, rel: string, p: Path)
    ensures SafePath(dir, rel) == Some(p) <==> !("/" <= rel) && p != [] && Resolve(dir, Split(rel)) == dir + p
  {
    hide Resolve, Split;
    assert "/" <= rel <==> rel != "" && rel[0] == '/';
    var abs := Resolve(dir, Split(rel));
    if |abs| > |dir| && abs[..|dir|] == dir {
      assert abs == dir + abs[|dir|..];
    }
  }
}
