/** The ZooKeeper connection of one process and the node creation loop (zk.go). */
module ZkManager {
  import opened Wrappers
  import opened GoStrings
  import opened ZkTree

  // ---------- creating a path, as a function of the tree ----------

  /** Walks the parts of a path from abs, creating what is missing; false when a creation fails. */
  function Walk(t: Tree, parts: seq<string>, abs: string): (Tree, bool)
    decreases |parts|
  {
    if parts == [] then (t, true)
    else if parts[0] == "" then Walk(t, parts[1..], abs)
    else
      var path := Join(abs, parts[0]);
      if path in t then Walk(t, parts[1..], path)
      else match Create(t, path, PERSISTENT)
        case Ok(t') => Walk(t', parts[1..], path)
        case Err(_) => (t, false)
  }

  /** The absolute paths of all non-empty prefixes, ignoring empty parts. */
  function Prefixes(parts: seq<string>, abs: string): set<string> {
    if parts == [] then {}
    else if parts[0] == "" then Prefixes(parts[1..], abs)
    else {Join(abs, parts[0])} + Prefixes(parts[1..], Join(abs, parts[0]))
  }

  /** The longest of them: the path with repeated and trailing slashes taken out. */
  function FullPath(parts: seq<string>, abs: string): string {
    if parts == [] then abs
    else if parts[0] == "" then FullPath(parts[1..], abs)
    else FullPath(parts[1..], Join(abs, parts[0]))
  }

  predicate Parts(parts: seq<string>) { forall i :: 0 <= i < |parts| ==> '/' !in parts[i] }

  lemma {:induction false} PrefixesAreShorter(parts: seq<string>, abs: string)
    requires Parts(parts) && abs != ""
    ensures forall q :: q in Prefixes(parts, abs) ==> |q| <= |FullPath(parts, abs)|
  {
    if parts != [] {
      if parts[0] == "" { PrefixesAreShorter(parts[1..], abs); }
      else {
        JoinParts(abs, parts[0]);
        PrefixesAreShorter(parts[1..], Join(abs, parts[0]));
        PrefixesGrow(parts[1..], Join(abs, parts[0]));
      }
    }
  }

  /** No ephemeral node stands where a directory is needed. */
  ghost predicate Unblocked(t: Tree, parts: seq<string>, abs: string) {
    forall q :: q in Prefixes(parts, abs) + {abs} && q in t && t[q].owner.Some? ==> q == FullPath(parts, abs)
  }

  lemma {:induction false} PrefixesGrow(parts: seq<string>, abs: string)
    requires Parts(parts) && abs != ""
    ensures forall q :: q in Prefixes(parts, abs) ==> |q| > |abs|
    ensures |FullPath(parts, abs)| >= |abs|
    ensures FullPath(parts, abs) in Prefixes(parts, abs) + {abs}
    ensures FullPath(parts, abs) == abs <==> Prefixes(parts, abs) == {}
  {
    if parts != [] {
      if parts[0] == "" { PrefixesGrow(parts[1..], abs); }
      else { JoinParts(abs, parts[0]); PrefixesGrow(parts[1..], Join(abs, parts[0])); }
    }
  }

  /** t' is t with some of the given paths added as persistent nodes. */
  ghost predicate Grown(t: Tree, t': Tree, paths: set<string>) {
    && t.Keys <= t'.Keys <= t.Keys + paths
    && (forall q :: q in t ==> t'[q] == t[q])
    && (forall q :: q in t' && q !in t ==> t'[q] == PERSISTENT)
  }

  lemma GrownTransitive(t: Tree, t1: Tree, t2: Tree, more: set<string>, paths: set<string>)
    requires Grown(t, t1, paths) && Grown(t1, t2, more) && more <= paths
    ensures Grown(t, t2, paths)
  {
    forall q | q in t2 && q !in t ensures t2[q] == PERSISTENT { assert q in t1 ==> t1[q] == PERSISTENT; }
  }

  /** What the walk does: it keeps every node there was and adds only persistent prefixes. */
  lemma {:induction false} WalkGrows(t: Tree, parts: seq<string>, abs: string)
    requires WellFormed(t)
    ensures WellFormed(Walk(t, parts, abs).0)
    ensures Grown(t, Walk(t, parts, abs).0, Prefixes(parts, abs))
    ensures Walk(t, parts, abs).1 ==> Prefixes(parts, abs) <= Walk(t, parts, abs).0.Keys
    decreases |parts|
  {
    if parts != [] {
      if parts[0] == "" {
        WalkGrows(t, parts[1..], abs);
      } else {
        var path := Join(abs, parts[0]);
        var r := Create(t, path, PERSISTENT);
        var t1 := if path !in t && r.Ok? then r.value else t;
        if path in t || r.Ok? {
          assert WellFormed(t1) by { if path !in t { CreateKeepsWellFormed(t, path, PERSISTENT); } }
          WalkGrows(t1, parts[1..], path);
          GrownTransitive(t, t1, Walk(t1, parts[1..], path).0, Prefixes(parts[1..], path), Prefixes(parts, abs));
        }
      }
    }
  }

  /** The walk completes exactly when no ephemeral node is in the way. */
  lemma {:induction false} WalkCompletes(t: Tree, parts: seq<string>, abs: string)
    requires WellFormed(t) && Parts(parts) && abs in t && abs != ""
    ensures Walk(t, parts, abs).1 <==> Unblocked(t, parts, abs)
    decreases |parts|
  {
    if parts == [] {
    } else if parts[0] == "" {
      WalkCompletes(t, parts[1..], abs);
    } else {
      var path := Join(abs, parts[0]);
      JoinParts(abs, parts[0]);
      PrefixesGrow(parts[1..], path);
      if path in t {
        assert HasPersistentParent(t, path);
        WalkCompletes(t, parts[1..], path);
        UnblockedStep(t, t, parts, abs);
      } else if t[abs].owner.Some? {
        assert abs in Prefixes(parts, abs) + {abs};
      } else {
        CreateKeepsWellFormed(t, path, PERSISTENT);
        WalkCompletes(t[path := PERSISTENT], parts[1..], path);
        UnblockedStep(t, t[path := PERSISTENT], parts, abs);
      }
    }
  }

  lemma UnblockedStep(t: Tree, t1: Tree, parts: seq<string>, abs: string)
    requires parts != [] && parts[0] != "" && Parts(parts) && abs != "" && abs in t && t[abs].owner.None?
    requires t1 == t || (Join(abs, parts[0]) !in t && t1 == t[Join(abs, parts[0]) := PERSISTENT])
    ensures Unblocked(t, parts, abs) <==> Unblocked(t1, parts[1..], Join(abs, parts[0]))
  {
    var path := Join(abs, parts[0]);
    assert Prefixes(parts, abs) == Prefixes(parts[1..], path) + {path};
    if Unblocked(t, parts, abs) {
      forall q | q in Prefixes(parts[1..], path) + {path} && q in t1 && t1[q].owner.Some?
        ensures q == FullPath(parts[1..], path) { assert q in Prefixes(parts, abs) + {abs}; }
    }
    if Unblocked(t1, parts[1..], path) {
      forall q | q in Prefixes(parts, abs) + {abs} && q in t && t[q].owner.Some?
        ensures q == FullPath(parts, abs) { assert q in Prefixes(parts[1..], path) + {path}; }
    }
  }

  /** A second walk finds everything in place and changes nothing. */
  lemma {:induction false} WalkAgain(t: Tree, parts: seq<string>, abs: string)
    requires Prefixes(parts, abs) <= t.Keys
    ensures Walk(t, parts, abs) == (t, true)
  {
    if parts != [] {
      if parts[0] == "" { WalkAgain(t, parts[1..], abs); }
      else {
        assert Join(abs, parts[0]) in Prefixes(parts, abs);
        WalkAgain(t, parts[1..], Join(abs, parts[0]));
      }
    }
  }

  function WalkPath(t: Tree, path: string): (Tree, bool) {
    Walk(t, Split(path, '/'), "/")
  }

  /** CreateNode as a function. When a creation fails the connection is closed before the panic, so
      that the session loses its ephemeral nodes. */
  function CreatePath(t: Tree, path: string, session: nat): (Tree, bool) {
    var (t', ok) := WalkPath(t, path);
    if ok then (t', true) else (CloseSession(t', session), false)
  }

  function PathPrefixes(path: string): set<string> {
    Prefixes(Split(path, '/'), "/")
  }

  /** An ephemeral node stands where a directory on the way to the path is needed. */
  ghost predicate Blocked(t: Tree, path: string) {
    exists q :: q in PathPrefixes(path) && q in t && t[q].owner.Some? && q != FullPath(Split(path, '/'), "/")
  }

  predicate OwnsNone(t: Tree, session: nat) {
    forall q :: q in t ==> t[q].owner != Some(session)
  }

  lemma CloseGrown(t: Tree, t': Tree, paths: set<string>, session: nat)
    requires Grown(t, t', paths)
    ensures Grown(CloseSession(t, session), CloseSession(t', session), paths)
    ensures OwnsNone(CloseSession(t', session), session)
  {
    assert PERSISTENT.owner == None;
    forall q | q in CloseSession(t', session) && q !in CloseSession(t, session)
      ensures q !in t && t'[q] == PERSISTENT {}
  }

  /** CreateNode, on a tree with the root in it: fails exactly if an ephemeral node stands in the way.
      If it does not, it adds exactly the missing prefixes of the path, and nothing the second time.
      If it does, the session's ephemeral nodes are gone and some prefixes may have been added. */
  lemma CreatePathLaw(t: Tree, path: string, session: nat)
    requires WellFormed(t)
    ensures var (t', ok) := CreatePath(t, path, session);
      && WellFormed(t')
      && (ok <==> !Blocked(t, path))
      && Grown(if ok then t else CloseSession(t, session), t', PathPrefixes(path))
      && (ok ==> t'.Keys == t.Keys + PathPrefixes(path) && CreatePath(t', path, session) == (t', true))
      && (!ok ==> OwnsNone(t', session))
  {
    WalkGrows(t, Split(path, '/'), "/");
    WalkCompletes(t, Split(path, '/'), "/");
    assert t["/"].owner.None?;
    assert Unblocked(t, Split(path, '/'), "/") <==> !Blocked(t, path);
    var (t', ok) := WalkPath(t, path);
    if ok {
      WalkAgain(t', Split(path, '/'), "/");
    } else {
      CloseGrown(t, t', PathPrefixes(path), session);
      CloseKeepsWellFormed(t', session);
    }
  }

  lemma {:induction false} FullPathAppend(parts: seq<string>, part: string, abs: string)
    requires part != ""
    ensures FullPath(parts + [part], abs) == Join(FullPath(parts, abs), part)
    ensures Prefixes(parts + [part], abs) == Prefixes(parts, abs) + {FullPath(parts + [part], abs)}
  {
    var all := parts + [part];
    if parts == [] {
      assert all[1..] == [];
    } else {
      assert all[1..] == parts[1..] + [part];
      FullPathAppend(parts[1..], part, if parts[0] == "" then abs else Join(abs, parts[0]));
    }
  }

  lemma RootIsNormal()
    ensures FullPath(Split("/", '/'), "/") == "/" && PathPrefixes("/") == {}
  {
    assert "/" == "" + ['/'] + "";
    SplitAppend("", '/', "");
    SplitWithout("", '/');
    assert [""] + [""] == ["", ""] && ["", ""][1..] == [""] && [""][1..] == [];
  }

  /** Normality passes from a parent to its child. */
  lemma ChildIsNormal(p: string, n: string)
    requires Segment(n) && FullPath(Split(p, '/'), "/") == p
    ensures FullPath(Split(Join(p, n), '/'), "/") == Join(p, n)
    ensures PathPrefixes(Join(p, n)) <= PathPrefixes(p) + {Join(p, n)}
  {
    if p == "/" {
      assert Join(p, n) == "" + ['/'] + n;
      SplitAppend("", '/', n);
      SplitWithout("", '/');
      FullPathAppend([""], n, "/");
      assert FullPath([""], "/") == "/" && Prefixes([""], "/") == {} by { assert [""][1..] == []; }
    } else {
      assert Join(p, n) == p + ['/'] + n;
      SplitAppend(p, '/', n);
      FullPathAppend(Split(p, '/'), n, "/");
    }
  }

  /** The parent is among the prefixes of its child. */
  lemma ChildPrefixes(p: string, n: string)
    requires Segment(n) && p != "/" && p != "" && FullPath(Split(p, '/'), "/") == p
    ensures p in PathPrefixes(Join(p, n)) && FullPath(Split(Join(p, n), '/'), "/") == Join(p, n)
  {
    assert Join(p, n) == p + ['/'] + n;
    SplitAppend(p, '/', n);
    FullPathAppend(Split(p, '/'), n, "/");
    PrefixesGrow(Split(p, '/'), "/");
  }

  /** Every path of a well-formed tree is already slash-normalised, and its prefixes are in the tree. */
  lemma {:induction false} TreePathsAreNormal(t: Tree, path: string)
    requires WellFormed(t) && path in t
    ensures FullPath(Split(path, '/'), "/") == path
    ensures PathPrefixes(path) <= t.Keys
    decreases |path|
  {
    if path == "/" {
      RootIsNormal();
    } else {
      assert HasPersistentParent(t, path);
      var p, n := Parent(path), Base(path);
      JoinParts(p, n);
      TreePathsAreNormal(t, p);
      ChildIsNormal(p, n);
    }
  }

  /** A path that CreateNode creates as it stands, not in a normalised spelling. */
  predicate Normal(path: string) { FullPath(Split(path, '/'), "/") == path }

  /** A complete creation ends with the path itself in the tree exactly if its spelling is normal. */
  lemma CreatedAsSpelled(t: Tree, path: string, session: nat)
    requires WellFormed(t) && path != "/" && CreatePath(t, path, session).1
    ensures path in CreatePath(t, path, session).0 <==> Normal(path)
    ensures Normal(path) ==> forall q :: q in PathPrefixes(path) ==> |q| <= |path|
  {
    CreatePathLaw(t, path, session);
    var parts := Split(path, '/');
    assert Parts(parts);
    PrefixesGrow(parts, "/");
    PrefixesAreShorter(parts, "/");
    var t' := CreatePath(t, path, session).0;
    if path in t' { TreePathsAreNormal(t', path); }
  }

  // ---------- what the walk makes of a path ----------

  /** The parts that are not empty. */
  function NonEmpty(parts: seq<string>): seq<string> {
    if parts == [] then []
    else
      var n := |parts| - 1;
      NonEmpty(parts[..n]) + if parts[n] == "" then [] else [parts[n]]
  }

  lemma {:induction false} EmptyPartsAreSkipped(parts: seq<string>, abs: string)
    ensures FullPath(parts + [""], abs) == FullPath(parts, abs)
    ensures Prefixes(parts + [""], abs) == Prefixes(parts, abs)
  {
    var all := parts + [""];
    if parts == [] {
      assert all[1..] == [];
    } else {
      assert all[1..] == parts[1..] + [""];
      EmptyPartsAreSkipped(parts[1..], if parts[0] == "" then abs else Join(abs, parts[0]));
    }
  }

  /** A path of the tree made of its first k names: each after a slash. */
  function Named(names: seq<string>): string { Glue([""] + names, '/') }

  lemma NamedGrows(names: seq<string>, name: string)
    requires name != "" && '/' !in name && forall n :: n in names ==> n != "" && '/' !in n
    ensures Named(names + [name]) == Join(if names == [] then "/" else Named(names), name)
    ensures names != [] ==> Named(names) != "/"
  {
    assert [""] + (names + [name]) == ([""] + names) + [name];
    GlueAppend([""] + names, name, '/');
    if names != [] {
      var m := |names| - 1;
      assert [""] + names == ([""] + names[..m]) + [names[m]];
      GlueAppend([""] + names[..m], names[m], '/');
      assert names[m] in names;
      assert |Named(names)| > 1;
    } else {
      assert [""] + names == [""];
    }
  }

  lemma {:induction false} NamesAre(parts: seq<string>)
    requires Parts(parts)
    ensures forall n :: n in NonEmpty(parts) ==> n != "" && '/' !in n
  {
    if parts != [] { NamesAre(parts[..|parts| - 1]); }
  }

  lemma NonEmptyStep(before: seq<string>, part: string)
    ensures NonEmpty(before + [part]) == if part == "" then NonEmpty(before) else NonEmpty(before) + [part]
  {
    assert (before + [part])[..|before|] == before;
    assert NonEmpty(before) + [] == NonEmpty(before);
  }

  /** The full path is made of the names in the path, empty ones left out. */
  lemma {:induction false} FullPathIs(parts: seq<string>)
    requires Parts(parts)
    ensures FullPath(parts, "/") == if NonEmpty(parts) == [] then "/" else Named(NonEmpty(parts))
  {
    if parts != [] {
      var n := |parts| - 1;
      var before, part := parts[..n], parts[n];
      FullPathIs(before);
      assert parts == before + [part];
      NonEmptyStep(before, part);
      if part == "" {
        EmptyPartsAreSkipped(before, "/");
      } else {
        FullPathAppend(before, part, "/");
        NamesAre(before);
        NamedGrows(NonEmpty(before), part);
      }
    }
  }

  /** What is created, in words: of these names, the first one under the root, the first two, and so on
      to all of them. */
  lemma {:induction false} PrefixesAre(parts: seq<string>, q: string)
    requires Parts(parts)
    ensures var names := NonEmpty(parts);
      q in Prefixes(parts, "/") <==> exists k :: 0 < k <= |names| && q == Named(names[..k])
  {
    if parts != [] {
      var n := |parts| - 1;
      var before, part := parts[..n], parts[n];
      PrefixesAre(before, q);
      assert parts == before + [part];
      NonEmptyStep(before, part);
      if part == "" {
        EmptyPartsAreSkipped(before, "/");
      } else {
        FullPathAppend(before, part, "/");
        FullPathIs(parts);
        PrefixesGrowByOne(NonEmpty(before), part, q);
      }
    }
  }

  lemma PrefixesGrowByOne(names: seq<string>, part: string, q: string)
    ensures var all := names + [part];
      (exists k :: 0 < k <= |all| && q == Named(all[..k]))
        <==> (q == Named(all) || exists k :: 0 < k <= |names| && q == Named(names[..k]))
  {
    var all := names + [part];
    assert all[..|all|] == all;
    forall k | 0 < k <= |names| ensures all[..k] == names[..k] {}
  }

  // ---------- the connection and its manager ----------

  /** One ZooKeeper session over the shared tree, and the watches its reads have set. */
  class ZkConn {
    var tree: Tree
    const session: nat
    var childWatches: set<string>
    var nodeWatches: set<string>

    constructor (tree: Tree, session: nat)
      ensures this.tree == tree && this.session == session && childWatches == {} && nodeWatches == {}
    {
      this.tree := tree;
      this.session := session;
      childWatches, nodeWatches := {}, {};
    }

    /** A read that finds its node leaves a watch there; the answer itself is the caller's parameter. */
    method ChildrenW(path: string, found: bool)
      modifies this`childWatches
      ensures childWatches == old(childWatches) + if found then {path} else {}
    {
      if found { childWatches := childWatches + {path}; }
    }

    method GetW(path: string, found: bool)
      modifies this`nodeWatches
      ensures nodeWatches == old(nodeWatches) + if found then {path} else {}
    {
      if found { nodeWatches := nodeWatches + {path}; }
    }

    method Close()
      modifies this`tree
      ensures tree == CloseSession(old(tree), session)
    {
      tree := CloseSession(tree, session);
    }

    method Create(path: string, data: Data, ephemeral: bool) returns (ok: bool)
      modifies this`tree
      ensures var r := ZkTree.Create(old(tree), path, Node(data, if ephemeral then Some(session) else None, 0));
        ok == r.Ok? && tree == if r.Ok? then r.value else old(tree)
    {
      var r := ZkTree.Create(tree, path, Node(data, if ephemeral then Some(session) else None, 0));
      ok := r.Ok?;
      if ok { tree := r.value; }
    }

    method Delete(path: string, version: nat) returns (ok: bool)
      modifies this`tree
      ensures var r := ZkTree.Delete(old(tree), path, version);
        ok == r.Ok? && tree == if r.Ok? then r.value else old(tree)
    {
      var r := ZkTree.Delete(tree, path, version);
      ok := r.Ok?;
      if ok { tree := r.value; }
    }
  }

  class ZKManager {
    const conn: ZkConn
    var watchers: set<string>
    var isClose: bool

    constructor (conn: ZkConn)
      ensures this.conn == conn && watchers == {} && !isClose
    {
      this.conn := conn;
      watchers, isClose := {}, false;
    }

    /** Returns false when the path is already watched. */
    method RegisteWatcher(rootpath: string) returns (added: bool)
      modifies this`watchers
      ensures added <==> rootpath !in old(watchers)
      ensures watchers == old(watchers) + {rootpath}
    {
      added := rootpath !in watchers;
      watchers := watchers + {rootpath};
    }

    /** Ends the listening loop and the session. */
    method Close()
      modifies this`isClose, conn`tree
      ensures isClose && conn.tree == CloseSession(old(conn.tree), conn.session)
    {
      isClose := true;
      conn.Close();
    }

    /** Creates a persistent node and its missing ancestors; ok is false where the source closes the
        connection and panics. */
    method CreateNode(servicePath: string) returns (ok: bool)
      modifies conn`tree
      ensures (conn.tree, ok) == CreatePath(old(conn.tree), servicePath, conn.session)
    {
      var absolutePath := "/";
      var parts := Split(servicePath, '/');
      var i := 0;
      while i < |parts|
        invariant 0 <= i <= |parts|
        invariant absolutePath == "/" || (absolutePath != "" && absolutePath[|absolutePath| - 1] != '/')
        invariant Walk(conn.tree, parts[i..], absolutePath) == Walk(old(conn.tree), parts, "/")
      {
        var path := parts[i];
        assert parts[i..][0] == path && parts[i..][1..] == parts[i + 1..];
        if |path| >= 1 {
          if absolutePath[|absolutePath| - 1] != '/' {
            absolutePath := absolutePath + "/";
          }
          absolutePath := absolutePath + path;
          assert path[|path| - 1] in path;
          if absolutePath !in conn.tree {
            var created := conn.Create(absolutePath, Empty, false);
            if !created {
              conn.Close();
              return false;
            }
          }
        }
        i := i + 1;
      }
      return true;
    }
  }
}
