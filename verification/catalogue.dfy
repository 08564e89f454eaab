/**
 * The catalogue (folder) tree a task list is scoped by: flattening a
 * folder and its descendants into an id list (childrenNodeParse), and the
 * folder path of a task built by walking parent links
 * (getTaskPathByTaskId).
 */
module CatalogueWalker {
  import opened TaskTypes

  /** A folder node of the built catalogue tree. */
  datatype Tree = Tree(id: int, children: seq<Tree>)

  /** The ids of a tree in pre-order: the node, then each child's tree in turn. */
  function Flatten(t: Tree): seq<int>
    decreases t, |t.children| + 1
  {
    [t.id] + FlattenChildren(t, |t.children|)
  }

  /** The pre-order ids of the first n children's trees. */
  function FlattenChildren(t: Tree, n: nat): seq<int>
    requires n <= |t.children|
    decreases t, n
  {
    if n == 0 then [] else FlattenChildren(t, n - 1) + Flatten(t.children[n - 1])
  }

  /** The tree holds a node with this id. */
  predicate Occurs(t: Tree, x: int)
    decreases t
  {
    t.id == x || exists i :: 0 <= i < |t.children| && Occurs(t.children[i], x)
  }

  /** The number of nodes of a tree. */
  function Size(t: Tree): nat
    decreases t, |t.children| + 1
  {
    1 + SizeChildren(t, |t.children|)
  }

  function SizeChildren(t: Tree, n: nat): nat
    requires n <= |t.children|
    decreases t, n
  {
    if n == 0 then 0 else SizeChildren(t, n - 1) + Size(t.children[n - 1])
  }

  /** The flattened list names every node once per occurrence: an id is
      listed exactly when a node carries it, and the list is as long as the
      tree has nodes. */
  lemma {:induction false} FlattenListsEveryNode(t: Tree, x: int)
    ensures x in Flatten(t) <==> Occurs(t, x)
    ensures |Flatten(t)| == Size(t)
    decreases t, |t.children| + 1
  {
    FlattenChildrenListsNodes(t, |t.children|, x);
  }

  lemma {:induction false} FlattenChildrenListsNodes(t: Tree, n: nat, x: int)
    requires n <= |t.children|
    ensures x in FlattenChildren(t, n) <==> exists i :: 0 <= i < n && Occurs(t.children[i], x)
    ensures |FlattenChildren(t, n)| == SizeChildren(t, n)
    decreases t, n
  {
    if n > 0 {
      FlattenChildrenListsNodes(t, n - 1, x);
      FlattenListsEveryNode(t.children[n - 1], x);
    }
  }

  /**
   * childrenNodeParse: appends the ids below `node` to `parentIds`, each
   * child's id followed by its own descendants, children in order.
   */
  method ChildrenNodeParse(node: Tree, parentIds: seq<int>) returns (ids: seq<int>)
    ensures ids == parentIds + FlattenChildren(node, |node.children|)
    decreases node
  {
    ids := parentIds;
    var i := 0;
    while i < |node.children|
      invariant 0 <= i <= |node.children|
      invariant ids == parentIds + FlattenChildren(node, i)
    {
      var child := node.children[i];
      assert FlattenChildren(node, i + 1) == FlattenChildren(node, i) + Flatten(child);
      assert Flatten(child) == [child.id] + FlattenChildren(child, |child.children|);
      ids := ids + [child.id];
      if child.children != [] {
        ids := ChildrenNodeParse(child, ids);
      }
      i := i + 1;
    }
  }

  /** queryOnLineTaskByDoneStatus's folder scope: the folder's id, then
      every descendant's; exactly the ids of the folder's tree. */
  method ScopeIds(node: Tree) returns (parentIds: seq<int>)
    ensures parentIds == Flatten(node)
    ensures forall x :: x in parentIds <==> Occurs(node, x)
  {
    parentIds := ChildrenNodeParse(node, [node.id]);
    forall x ensures x in parentIds <==> Occurs(node, x) {
      FlattenListsEveryNode(node, x);
    }
  }

  /** A catalogue row: its folder or task name and its parent folder id. */
  datatype Catalogue = Catalogue(name: string, parentId: int)

  /**
   * The folder prefix ("a/b/") of a node whose parent is `id`, walking at
   * most `fuel` parent links: a missing folder ends the walk, a folder whose
   * parent is the root 0 is the last one. None means the fuel ran out, as it
   * does on a cycle of parent links, where the source never stops.
   */
  function Prefix(cats: map<int, Catalogue>, id: int, fuel: nat): Option<string>
    decreases fuel
  {
    if fuel == 0 then None
    else if id !in cats then Some("")
    else if cats[id].parentId == 0 then Some(cats[id].name + "/")
    else match Prefix(cats, cats[id].parentId, fuel - 1)
      case None => None
      case Some(p) => Some(p + cats[id].name + "/")
  }

  /** More fuel does not change a walk that already ended: the prefix does
      not depend on the bound. */
  lemma {:induction false} PrefixFuelIrrelevant(cats: map<int, Catalogue>, id: int, fuel: nat, more: nat)
    requires Prefix(cats, id, fuel).Some? && fuel <= more
    ensures Prefix(cats, id, more) == Prefix(cats, id, fuel)
    decreases fuel
  {
    if id in cats && cats[id].parentId != 0 {
      PrefixFuelIrrelevant(cats, cats[id].parentId, fuel - 1, more - 1);
    }
  }

  /**
   * getTaskPathByTaskId: the task's name, preceded by the names of the
   * folders above the task's catalogue row, root first, each followed by
   * "/". `leaf` is the catalogue row of the task, when there is one. The
   * walk is a do-while on the parent id: the first parent is looked up even
   * when it is the root 0. `fuel` bounds the walk; the requires states that
   * the parent links reach an end within it.
   */
  method TaskPath(taskName: string, leaf: Option<Catalogue>, cats: map<int, Catalogue>, ghost fuel: nat)
    returns (path: string)
    requires leaf.Some? ==> Prefix(cats, leaf.value.parentId, fuel).Some?
    ensures leaf.None? ==> path == taskName
    ensures leaf.Some? ==> path == Prefix(cats, leaf.value.parentId, fuel).value + taskName
  {
    path := taskName;
    if leaf.None? {
      return;
    }
    ghost var goal := Prefix(cats, leaf.value.parentId, fuel).value + taskName;
    var catalogueId := leaf.value.parentId;
    ghost var f := fuel;
    while catalogueId in cats
      invariant Prefix(cats, catalogueId, f).Some?
      invariant goal == Prefix(cats, catalogueId, f).value + path
      decreases f
    {
      var catalogue := cats[catalogueId];
      ghost var rest := Prefix(cats, catalogue.parentId, f - 1);
      path := catalogue.name + "/" + path;
      if catalogue.parentId == 0 {
        assert goal == path;
        return;
      }
      assert goal == rest.value + path;
      catalogueId := catalogue.parentId;
      f := f - 1;
    }
  }
}
