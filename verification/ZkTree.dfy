/** The ZooKeeper data tree: paths, nodes and the operations a session performs on them. */
module ZkTree {
  import opened Wrappers
  import opened GoStrings
  import opened ServiceMetas

  // ---------- paths ----------

  predicate Segment(n: string) { n != "" && '/' !in n }

  function Parent(path: string): string {
    var i := LastIndex(path, '/');
    if i <= 0 then "/" else path[..i]
  }

  function Base(path: string): string {
    path[LastIndex(path, '/') + 1..]
  }

  function Join(parent: string, name: string): string {
    if parent == "/" then "/" + name else parent + "/" + name
  }

  /** A path that is its parent's path plus one proper name. */
  predicate Nameable(path: string) {
    path != "/" && Segment(Base(path)) && path == Join(Parent(path), Base(path))
  }

  lemma JoinParts(parent: string, name: string)
    requires parent != "" && Segment(name)
    ensures Parent(Join(parent, name)) == parent
    ensures Base(Join(parent, name)) == name
    ensures Nameable(Join(parent, name))
    ensures |Join(parent, name)| > |parent|
  {
    var path := Join(parent, name);
    var cut := |path| - |name| - 1;
    assert path[cut] == '/' && path[cut + 1..] == name;
    LastIndexIs(path, '/', cut);
    if parent != "/" { assert path[..cut] == parent; }
  }

  // ---------- nodes ----------

  /** Node contents: nothing, a service description that decodes, or bytes that do not. */
  datatype Data = Empty | Meta(meta: ServiceMeta) | Undecodable

  /** owner is the session of an ephemeral node. */
  datatype Node = Node(data: Data, owner: Option<nat>, version: nat)

  const PERSISTENT := Node(Empty, None, 0)

  type Tree = map<string, Node>

  function ChildPaths(t: Tree, path: string): set<string> {
    set q | q in t && q != "/" && Parent(q) == path
  }

  /** Names of the children of a node. */
  function Children(t: Tree, path: string): set<string> {
    set q | q in ChildPaths(t, path) :: Base(q)
  }

  /** Every node below the root has a proper name under a persistent parent, and nobody has
      written to a node after creating it. */
  ghost predicate WellFormed(t: Tree) {
    && "/" in t && t["/"].owner.None?
    && (forall q {:trigger Nameable(q)} {:trigger HasPersistentParent(t, q)} ::
          q in t && q != "/" ==> Nameable(q) && HasPersistentParent(t, q))
    && (forall q :: q in t ==> t[q].version == 0)
  }

  predicate HasPersistentParent(t: Tree, q: string) {
    Parent(q) in t && t[Parent(q)].owner.None?
  }

  lemma ChildrenAreJoined(t: Tree, path: string, name: string)
    requires WellFormed(t) && path != ""
    ensures name in Children(t, path) <==> Segment(name) && Join(path, name) in t
  {
    if name in Children(t, path) {
      var q :| q in ChildPaths(t, path) && Base(q) == name;
      assert Nameable(q);
    }
    if Segment(name) && Join(path, name) in t { JoinParts(path, name); }
  }

  // ---------- operations ----------

  datatype ZkError = NoNode | NodeExists | BadVersion | NotEmpty | NoChildrenForEphemerals | BadPath

  function Create(t: Tree, path: string, node: Node): Result<Tree, ZkError> {
    if !Nameable(path) then Err(BadPath)
    else if Parent(path) !in t then Err(NoNode)
    else if path in t then Err(NodeExists)
    else if t[Parent(path)].owner.Some? then Err(NoChildrenForEphemerals)
    else Ok(t[path := node])
  }

  function Delete(t: Tree, path: string, version: nat): Result<Tree, ZkError> {
    if path == "/" then Err(BadPath)
    else if path !in t then Err(NoNode)
    else if t[path].version != version then Err(BadVersion)
    else if Children(t, path) != {} then Err(NotEmpty)
    else Ok(t - {path})
  }

  /** Session close or expiry: its ephemeral nodes go. */
  function CloseSession(t: Tree, session: nat): Tree {
    map q | q in t && t[q].owner != Some(session) :: t[q]
  }

  lemma CreateKeepsWellFormed(t: Tree, path: string, node: Node)
    requires WellFormed(t) && node.version == 0 && Create(t, path, node).Ok?
    ensures WellFormed(Create(t, path, node).value)
  {
    var t' := Create(t, path, node).value;
    forall q | q in t' && q != "/" ensures Nameable(q) && HasPersistentParent(t', q) {
      assert q in t ==> Nameable(q) && HasPersistentParent(t, q);
    }
  }

  lemma DeleteKeepsWellFormed(t: Tree, path: string, version: nat)
    requires WellFormed(t) && Delete(t, path, version).Ok?
    ensures WellFormed(Delete(t, path, version).value)
  {
    var t' := Delete(t, path, version).value;
    forall q | q in t' && q != "/" ensures HasPersistentParent(t', q) {
      assert HasPersistentParent(t, q);
      assert q in ChildPaths(t, path) ==> Base(q) in Children(t, path);
    }
  }

  lemma CloseKeepsWellFormed(t: Tree, session: nat)
    requires WellFormed(t)
    ensures WellFormed(CloseSession(t, session))
  {
  }

  /** In a well-formed tree an ephemeral node never has children. */
  lemma EphemeralsAreLeaves(t: Tree, path: string)
    requires WellFormed(t) && path in t && t[path].owner.Some?
    ensures Children(t, path) == {}
  {
    forall q | q in t && q != "/" ensures q !in ChildPaths(t, path) { assert HasPersistentParent(t, q); }
  }

  lemma ChildrenAfterCreate(t: Tree, path: string, node: Node, p: string)
    requires path !in t && path != "/"
    ensures Children(t[path := node], p) == Children(t, p) + (if Parent(path) == p then {Base(path)} else {})
  {
    var t' := t[path := node];
    assert ChildPaths(t', p) == ChildPaths(t, p) + (if Parent(path) == p then {path} else {});
  }

  lemma ChildrenAfterDelete(t: Tree, path: string, p: string)
    requires Parent(path) != p
    ensures Children(t - {path}, p) == Children(t, p)
  {
    assert ChildPaths(t - {path}, p) == ChildPaths(t, p);
  }
}
