/**
 * The generic walker over the legal-text JSON trees: a node may carry a name, a
 * title, an article number, paragraphs and up to five arrays of child nodes.
 * Children are always visited in the fixed key order chapters, sections,
 * branches, articles, subsections, and a node's children are numbered by one
 * flat index across those arrays.
 */
module DataLoader {
  import opened Wrappers
  import opened Text
  import opened SeqUtil
  import LawSources

  // ---------------------------------------------------------------- the tree

  datatype ChildKey = Chapters | Sections | Branches | Articles | Subsections

  /** The child-array properties, in the order every walk visits them. */
  const CHILDREN_KEYS: seq<ChildKey> := [Chapters, Sections, Branches, Articles, Subsections]

  /** A node of a book's JSON tree. An absent child array is the empty sequence:
      every walk treats a missing array and an empty one alike. */
  datatype Node = Node(
    name: Option<string>,
    title: Option<string>,
    number: Option<string>,
    paragraphs: Option<seq<string>>,
    chapters: seq<Node>,
    sections: seq<Node>,
    branches: seq<Node>,
    articles: seq<Node>,
    subsections: seq<Node>)

  /** `node[key]`. */
  function Collection(n: Node, k: ChildKey): seq<Node> {
    match k
    case Chapters => n.chapters
    case Sections => n.sections
    case Branches => n.branches
    case Articles => n.articles
    case Subsections => n.subsections
  }

  /** The position of a key in `CHILDREN_KEYS`. */
  function Rank(k: ChildKey): (r: nat)
    ensures r < |CHILDREN_KEYS| && CHILDREN_KEYS[r] == k
  {
    match k
    case Chapters => 0
    case Sections => 1
    case Branches => 2
    case Articles => 3
    case Subsections => 4
  }

  /** All children of a node under the flat numbering: the five arrays one after another. */
  function Children(n: Node): seq<Node> {
    n.chapters + n.sections + n.branches + n.articles + n.subsections
  }

  /** The child at flat index `f` is part of the node (which is what makes every walk terminate). */
  lemma ChildIsPart(n: Node, f: nat)
    requires f < |Children(n)|
    ensures Children(n)[f] < n
  {
    var a, b, c, d := |n.chapters|, |n.sections|, |n.branches|, |n.articles|;
    if f < a {
      assert Children(n)[f] == n.chapters[f];
    } else if f < a + b {
      assert Children(n)[f] == n.sections[f - a];
    } else if f < a + b + c {
      assert Children(n)[f] == n.branches[f - a - b];
    } else if f < a + b + c + d {
      assert Children(n)[f] == n.articles[f - a - b - c];
    } else {
      assert Children(n)[f] == n.subsections[f - a - b - c - d];
    }
  }

  // ---------------------------------------------------------------- children arrays

  datatype ChildArray = ChildArray(key: ChildKey, children: seq<Node>)

  /** The non-empty arrays among the first `m` keys, in key order. */
  function ArraysUpTo(n: Node, m: nat): seq<ChildArray>
    requires m <= |CHILDREN_KEYS|
  {
    if m == 0 then []
    else
      var k := CHILDREN_KEYS[m - 1];
      ArraysUpTo(n, m - 1) + (if Collection(n, k) != [] then [ChildArray(k, Collection(n, k))] else [])
  }

  /** What `getChildrenArrays` returns: the node's non-empty child arrays in key order. */
  function ChildrenArrays(n: Node): seq<ChildArray> {
    ArraysUpTo(n, |CHILDREN_KEYS|)
  }

  /** The arrays' children, one array after another. */
  function Flatten(arrs: seq<ChildArray>): seq<Node> {
    if arrs == [] then [] else Flatten(arrs[..|arrs| - 1]) + arrs[|arrs| - 1].children
  }

  /** The first `m` collections of a node, one after another. */
  function CollectionsUpTo(n: Node, m: nat): seq<Node>
    requires m <= |CHILDREN_KEYS|
  {
    if m == 0 then [] else CollectionsUpTo(n, m - 1) + Collection(n, CHILDREN_KEYS[m - 1])
  }

  /** One step of `ArraysUpTo`: key `m - 1` contributes its array only when it is non-empty. */
  lemma ArraysUpToStep(n: Node, m: nat)
    requires 0 < m <= |CHILDREN_KEYS|
    ensures var k := CHILDREN_KEYS[m - 1];
      Rank(k) == m - 1
      && (Collection(n, k) != [] ==> ArraysUpTo(n, m) == ArraysUpTo(n, m - 1) + [ChildArray(k, Collection(n, k))])
      && (Collection(n, k) == [] ==> ArraysUpTo(n, m) == ArraysUpTo(n, m - 1))
  {
    var k := CHILDREN_KEYS[m - 1];
    if Collection(n, k) == [] {
      assert ArraysUpTo(n, m - 1) + [] == ArraysUpTo(n, m - 1);
    }
  }

  lemma {:induction false} ArraysUpToEntries(n: Node, m: nat)
    requires m <= |CHILDREN_KEYS|
    ensures var r := ArraysUpTo(n, m);
      forall i :: 0 <= i < |r| ==>
        r[i].children == Collection(n, r[i].key) && r[i].children != [] && Rank(r[i].key) < m
  {
    if m > 0 {
      ArraysUpToEntries(n, m - 1);
      ArraysUpToStep(n, m);
    }
  }

  lemma {:induction false} ArraysUpToSorted(n: Node, m: nat)
    requires m <= |CHILDREN_KEYS|
    ensures var r := ArraysUpTo(n, m);
      forall i, j :: 0 <= i < j < |r| ==> Rank(r[i].key) < Rank(r[j].key)
  {
    if m > 0 {
      ArraysUpToSorted(n, m - 1);
      ArraysUpToEntries(n, m - 1);
      ArraysUpToStep(n, m);
    }
  }

  lemma {:induction false} ArraysUpToComplete(n: Node, m: nat, k: ChildKey)
    requires m <= |CHILDREN_KEYS|
    requires Rank(k) < m && Collection(n, k) != []
    ensures exists i :: 0 <= i < |ArraysUpTo(n, m)| && ArraysUpTo(n, m)[i].key == k
  {
    ArraysUpToStep(n, m);
    var r0 := ArraysUpTo(n, m - 1);
    var r := ArraysUpTo(n, m);
    if Rank(k) == m - 1 {
      assert CHILDREN_KEYS[m - 1] == k;
      assert r[|r| - 1].key == k;
    } else {
      ArraysUpToComplete(n, m - 1, k);
      var i :| 0 <= i < |r0| && r0[i].key == k;
      assert r[i] == r0[i];
    }
  }

  lemma {:induction false} ArraysUpToFlatten(n: Node, m: nat)
    requires m <= |CHILDREN_KEYS|
    ensures Flatten(ArraysUpTo(n, m)) == CollectionsUpTo(n, m)
  {
    if m > 0 {
      ArraysUpToFlatten(n, m - 1);
      ArraysUpToStep(n, m);
      var k := CHILDREN_KEYS[m - 1];
      if Collection(n, k) != [] {
        FlattenSnoc(ArraysUpTo(n, m - 1), ChildArray(k, Collection(n, k)));
      } else {
        assert CollectionsUpTo(n, m - 1) + [] == CollectionsUpTo(n, m - 1);
      }
    }
  }

  lemma FlattenSnoc(arrs: seq<ChildArray>, a: ChildArray)
    ensures Flatten(arrs + [a]) == Flatten(arrs) + a.children
  {
    var r := arrs + [a];
    assert r[..|r| - 1] == arrs;
  }

  /** `getChildrenArrays` keeps exactly the non-empty arrays, in key order, and
      together they hold exactly the node's children. */
  lemma ChildrenArraysSpec(n: Node)
    ensures var r := ChildrenArrays(n);
      (forall i :: 0 <= i < |r| ==> r[i].children == Collection(n, r[i].key) && r[i].children != [])
      && (forall i, j :: 0 <= i < j < |r| ==> Rank(r[i].key) < Rank(r[j].key))
      && (forall k :: Collection(n, k) != [] <==> exists i :: 0 <= i < |r| && r[i].key == k)
  {
    ArraysUpToEntries(n, |CHILDREN_KEYS|);
    ArraysUpToSorted(n, |CHILDREN_KEYS|);
    forall k | Collection(n, k) != []
      ensures exists i :: 0 <= i < |ChildrenArrays(n)| && ChildrenArrays(n)[i].key == k
    {
      ArraysUpToComplete(n, |CHILDREN_KEYS|, k);
      var r := ArraysUpTo(n, |CHILDREN_KEYS|);
      var i :| 0 <= i < |r| && r[i].key == k;
      assert ChildrenArrays(n)[i].key == k;
    }
  }

  lemma ChildrenArraysFlatten(n: Node)
    ensures Flatten(ChildrenArrays(n)) == Children(n)
  {
    ArraysUpToFlatten(n, |CHILDREN_KEYS|);
    assert CollectionsUpTo(n, 1) == n.chapters;
    assert CollectionsUpTo(n, 2) == n.chapters + n.sections;
    assert CollectionsUpTo(n, 3) == n.chapters + n.sections + n.branches;
    assert CollectionsUpTo(n, 4) == n.chapters + n.sections + n.branches + n.articles;
  }

  method GetChildrenArrays(n: Node) returns (result: seq<ChildArray>)
    ensures result == ChildrenArrays(n)
  {
    result := [];
    for i := 0 to |CHILDREN_KEYS|
      invariant result == ArraysUpTo(n, i)
    {
      var key := CHILDREN_KEYS[i];
      var children := Collection(n, key);
      if |children| > 0 {
        result := result + [ChildArray(key, children)];
      }
    }
  }

  lemma {:induction false} FlattenPrefix(arrs: seq<ChildArray>, m: nat)
    requires m <= |arrs|
    ensures Flatten(arrs[..m]) <= Flatten(arrs)
  {
    if m < |arrs| {
      var init := arrs[..|arrs| - 1];
      assert init[..m] == arrs[..m];
      FlattenPrefix(init, m);
    } else {
      assert arrs[..m] == arrs;
    }
  }

  /** Array `i` occupies the flat indices from |Flatten(arrs[..i])| on. */
  lemma ArraySpan(arrs: seq<ChildArray>, i: nat)
    requires i < |arrs|
    ensures |Flatten(arrs[..i + 1])| == |Flatten(arrs[..i])| + |arrs[i].children|
    ensures |Flatten(arrs[..i + 1])| <= |Flatten(arrs)|
  {
    FlattenPrefix(arrs, i + 1);
    assert arrs[..i + 1][..i] == arrs[..i];
  }

  /** Child `j` of array `i` sits at flat index |Flatten(arrs[..i])| + j. */
  lemma ChildAt(arrs: seq<ChildArray>, i: nat, j: nat)
    requires i < |arrs| && j < |arrs[i].children|
    ensures |Flatten(arrs[..i])| + j < |Flatten(arrs)|
    ensures Flatten(arrs)[|Flatten(arrs[..i])| + j] == arrs[i].children[j]
  {
    FlattenPrefix(arrs, i + 1);
    assert arrs[..i + 1][..i] == arrs[..i];
  }

  /** Child `j` of array `i` of the node's children arrays is its child at the flat index
      |Flatten(arrs[..i])| + j. */
  lemma ChildOfArrays(node: Node, arrs: seq<ChildArray>, i: nat, j: nat)
    requires Flatten(arrs) == Children(node)
    requires i < |arrs| && j < |arrs[i].children|
    ensures |Flatten(arrs[..i])| + j < |Children(node)|
    ensures arrs[i].children[j] == Children(node)[|Flatten(arrs[..i])| + j]
    ensures arrs[i].children[j] < node
  {
    ChildAt(arrs, i, j);
    ChildIsPart(node, |Flatten(arrs[..i])| + j);
  }

  lemma FlattenWhole(arrs: seq<ChildArray>)
    ensures Flatten(arrs[..|arrs|]) == Flatten(arrs)
  {
    assert arrs[..|arrs|] == arrs;
  }

  /** `hasChildren`. */
  predicate HasChildren(n: Node) {
    |ChildrenArrays(n)| > 0
  }

  lemma HasChildrenIff(n: Node)
    ensures HasChildren(n) <==> Children(n) != []
  {
    ChildrenArraysSpec(n);
    ChildrenArraysFlatten(n);
    if HasChildren(n) {
      assert ChildrenArrays(n)[0].children != [];
      assert Flatten(ChildrenArrays(n)[..1]) == ChildrenArrays(n)[0].children;
      FlattenPrefix(ChildrenArrays(n), 1);
    }
  }

  /** `isNavigable`: the node carries a non-empty article number. */
  predicate IsNavigable(n: Node) {
    Truthy(n.number)
  }

  // ---------------------------------------------------------------- labels

  /** `getNodeLabel`: "name: title", else the name, else the title, else the
      law's word for an article followed by the number, else "عنصر". */
  function NodeLabel(n: Node, lawKey: Option<string>): (r: string)
    ensures r != ""
    ensures Truthy(n.name) ==> n.name.value <= r
    ensures Truthy(n.name) && Truthy(n.title) ==> EndsWith(r, n.title.value)
  {
    if Truthy(n.name) && Truthy(n.title) then n.name.value + ": " + n.title.value
    else if Truthy(n.name) then n.name.value
    else if Truthy(n.title) then n.title.value
    else if Truthy(n.number) then
      (if Truthy(lawKey) then LawSources.GetArticleLabel(lawKey.value) else "المادة") + " " + n.number.value
    else "عنصر"
  }

  /** A bare article is labelled with its law's own word: "المادة" in the Code of
      Criminal Procedure and by default, "الفصل" in the Criminal Code. */
  lemma ArticleNodeLabel(n: Node, lawKey: Option<string>)
    requires !Truthy(n.name) && !Truthy(n.title) && Truthy(n.number)
    ensures lawKey == Some("dp") ==> NodeLabel(n, lawKey) == "الفصل " + n.number.value
    ensures lawKey != Some("dp") ==> NodeLabel(n, lawKey) == "المادة " + n.number.value
  {
    if Truthy(lawKey) {
      LawSources.ValidIffRegistered(lawKey.value);
    }
  }

  // ---------------------------------------------------------------- pre-order

  /** Every node of the tree rooted at `n`, each before its descendants, children in flat order. */
  function PreOrder(n: Node): (r: seq<Node>)
    ensures |r| >= 1 && r[0] == n
    decreases n, 1
  {
    [n] + PreOrderFrom(n, 0)
  }

  /** The pre-orders of the children of `n` from flat index `f` on. */
  function PreOrderFrom(n: Node, f: nat): seq<Node>
    requires f <= |Children(n)|
    decreases n, 0, |Children(n)| - f
  {
    if f == |Children(n)| then []
    else
      ChildIsPart(n, f);
      PreOrder(Children(n)[f]) + PreOrderFrom(n, f + 1)
  }

  lemma PreOrderFromStep(n: Node, f: nat)
    requires f < |Children(n)|
    ensures PreOrderFrom(n, f) == PreOrder(Children(n)[f]) + PreOrderFrom(n, f + 1)
  {
  }

  /** One step of the loop of `findFirstArticle`: the child at `f` answers when it
      holds a navigable node, otherwise the search moves on to `f + 1`. */
  lemma FirstArticleStep(node: Node, f: nat, found: Option<Node>)
    requires f < |Children(node)|
    requires found == FirstWhere(PreOrder(Children(node)[f]), IsNavigable)
    ensures found.Some? ==> FirstWhere(PreOrderFrom(node, f), IsNavigable) == found
    ensures found.None? ==> FirstWhere(PreOrderFrom(node, f), IsNavigable) == FirstWhere(PreOrderFrom(node, f + 1), IsNavigable)
  {
    PreOrderFromStep(node, f);
    FirstWhereAppend(PreOrder(Children(node)[f]), PreOrderFrom(node, f + 1), IsNavigable);
  }

  /** `findFirstArticle`: the first navigable node of the tree, in pre-order. */
  method FindFirstArticle(node: Node) returns (r: Option<Node>)
    ensures r == FirstWhere(PreOrder(node), IsNavigable)
    decreases node
  {
    if IsNavigable(node) {
      return Some(node);
    }
    assert PreOrder(node) == [node] + PreOrderFrom(node, 0);
    var arrays := GetChildrenArrays(node);
    ChildrenArraysFlatten(node);
    ghost var flat := 0;
    for i := 0 to |arrays|
      invariant flat == |Flatten(arrays[..i])| <= |Children(node)|
      invariant FirstWhere(PreOrderFrom(node, flat), IsNavigable) == FirstWhere(PreOrder(node), IsNavigable)
    {
      var children := arrays[i].children;
      ArraySpan(arrays, i);
      for j := 0 to |children|
        invariant flat == |Flatten(arrays[..i])| + j <= |Children(node)|
        invariant FirstWhere(PreOrderFrom(node, flat), IsNavigable) == FirstWhere(PreOrder(node), IsNavigable)
      {
        ChildOfArrays(node, arrays, i, j);
        var article := FindFirstArticle(children[j]);
        FirstArticleStep(node, flat, article);
        if article.Some? {
          return article;
        }
        flat := flat + 1;
      }
    }
    FlattenWhole(arrays);
    return None;
  }

  // ---------------------------------------------------------------- locating a node

  /** `findNodeByNumber`'s result: the node, its ancestors from the root, and their flat indices. */
  datatype FindResult = FindResult(node: Node, path: seq<Node>, pathIndices: seq<nat>)

  /** `root.number === target`. */
  function HasNumber(target: string): Node -> bool {
    (n: Node) => n.number == Some(target)
  }

  /** `root === target`, for a tree of plain values. */
  function IsNode(target: Node): Node -> bool {
    (n: Node) => n == target
  }

  /** The first node in pre-order satisfying `p`, with the ancestors and flat child
      indices leading to it appended to `path` and `idx`. */
  function Locate(root: Node, p: Node -> bool, path: seq<Node>, idx: seq<nat>): Option<FindResult>
    decreases root, 1
  {
    if p(root) then Some(FindResult(root, path, idx)) else LocateFrom(root, p, path, idx, 0)
  }

  /** `Locate` in the subtrees of the children of `root` from flat index `f` on. */
  function LocateFrom(root: Node, p: Node -> bool, path: seq<Node>, idx: seq<nat>, f: nat): Option<FindResult>
    requires f <= |Children(root)|
    decreases root, 0, |Children(root)| - f
  {
    if f == |Children(root)| then None
    else
      ChildIsPart(root, f);
      var r := Locate(Children(root)[f], p, path + [root], idx + [f]);
      if r.Some? then r else LocateFrom(root, p, path, idx, f + 1)
  }

  /** One step of `LocateFrom`: the child at `f` answers when it finds a node,
      otherwise the search moves on to `f + 1`. */
  lemma LocateFromStep(root: Node, p: Node -> bool, path: seq<Node>, idx: seq<nat>, f: nat, result: Option<FindResult>)
    requires f < |Children(root)|
    requires result == Locate(Children(root)[f], p, path + [root], idx + [f])
    ensures result.Some? ==> LocateFrom(root, p, path, idx, f) == result
    ensures result.None? ==> LocateFrom(root, p, path, idx, f) == LocateFrom(root, p, path, idx, f + 1)
  {
  }

  function NodeOf(r: Option<FindResult>): Option<Node> {
    match r
    case Some(x) => Some(x.node)
    case None => None
  }

  function IndicesOf(r: Option<FindResult>): Option<seq<nat>> {
    match r
    case Some(x) => Some(x.pathIndices)
    case None => None
  }

  /** Walking down the flat child indices from `root`; `None` once an index is past
      the children of the node reached so far. */
  function ResolvePath(root: Node, idx: seq<nat>): Option<Node>
    decreases |idx|
  {
    if idx == [] then Some(root)
    else if idx[0] < |Children(root)| then ResolvePath(Children(root)[idx[0]], idx[1..])
    else None
  }

  lemma ResolveCons(root: Node, f: nat, rest: seq<nat>)
    requires f < |Children(root)|
    ensures ResolvePath(root, [f] + rest) == ResolvePath(Children(root)[f], rest)
  {
    assert ([f] + rest)[1..] == rest;
  }

  /** The node `Locate` finds is the first node of the pre-order satisfying `p`. */
  lemma {:induction false} LocateIsFirstInPreOrder(root: Node, p: Node -> bool, path: seq<Node>, idx: seq<nat>)
    ensures NodeOf(Locate(root, p, path, idx)) == FirstWhere(PreOrder(root), p)
    decreases root, 1
  {
    assert ([root] + PreOrderFrom(root, 0))[1..] == PreOrderFrom(root, 0);
    if !p(root) {
      LocateFromIsFirst(root, p, path, idx, 0);
    }
  }

  lemma {:induction false} LocateFromIsFirst(root: Node, p: Node -> bool, path: seq<Node>, idx: seq<nat>, f: nat)
    requires f <= |Children(root)|
    ensures NodeOf(LocateFrom(root, p, path, idx, f)) == FirstWhere(PreOrderFrom(root, f), p)
    decreases root, 0, |Children(root)| - f
  {
    if f < |Children(root)| {
      ChildIsPart(root, f);
      var c := Children(root)[f];
      PreOrderFromStep(root, f);
      FirstWhereAppend(PreOrder(c), PreOrderFrom(root, f + 1), p);
      LocateIsFirstInPreOrder(c, p, path + [root], idx + [f]);
      LocateFromIsFirst(root, p, path, idx, f + 1);
    }
  }

  /** What `Locate` reports about where the node sits: the ancestors and the indices
      grow `path` and `idx` by the same amount, the indices lead from `root` to the
      node, and each prefix of them leads to the matching ancestor. */
  lemma {:induction false} LocateShape(root: Node, p: Node -> bool, path: seq<Node>, idx: seq<nat>)
    requires |path| == |idx|
    ensures match Locate(root, p, path, idx)
      case None => true
      case Some(r) =>
        p(r.node) && |r.path| == |r.pathIndices| && path <= r.path && idx <= r.pathIndices
        && ResolvePath(root, r.pathIndices[|idx|..]) == Some(r.node)
        && forall k :: |idx| <= k < |r.path| ==> ResolvePath(root, r.pathIndices[|idx|..k]) == Some(r.path[k])
    decreases root, 1
  {
    if !p(root) {
      LocateFromShape(root, p, path, idx, 0);
    } else {
      assert idx[|idx|..] == [];
    }
  }

  lemma {:induction false} LocateFromShape(root: Node, p: Node -> bool, path: seq<Node>, idx: seq<nat>, f: nat)
    requires |path| == |idx| && f <= |Children(root)|
    ensures match LocateFrom(root, p, path, idx, f)
      case None => true
      case Some(r) =>
        p(r.node) && |r.path| == |r.pathIndices| && path <= r.path && idx <= r.pathIndices
        && ResolvePath(root, r.pathIndices[|idx|..]) == Some(r.node)
        && forall k :: |idx| <= k < |r.path| ==> ResolvePath(root, r.pathIndices[|idx|..k]) == Some(r.path[k])
    decreases root, 0, |Children(root)| - f
  {
    if f < |Children(root)| {
      ChildIsPart(root, f);
      var c := Children(root)[f];
      var sub := Locate(c, p, path + [root], idx + [f]);
      LocateShape(c, p, path + [root], idx + [f]);
      if sub.Some? {
        var r := sub.value;
        var n := |idx|;
        assert r.pathIndices[n] == f;
        assert r.pathIndices[n..] == [f] + r.pathIndices[n + 1..];
        ResolveCons(root, f, r.pathIndices[n + 1..]);
        forall k | n <= k < |r.path|
          ensures ResolvePath(root, r.pathIndices[n..k]) == Some(r.path[k])
        {
          if k == n {
            assert r.pathIndices[n..k] == [];
            assert r.path[n] == (path + [root])[n];
          } else {
            assert r.pathIndices[n..k] == [f] + r.pathIndices[n + 1..k];
            ResolveCons(root, f, r.pathIndices[n + 1..k]);
          }
        }
      } else {
        LocateFromShape(root, p, path, idx, f + 1);
      }
    }
  }

  /** `findNodeByNumber`: the first node, in pre-order, whose number is `targetNumber`,
      with its ancestors and their flat indices appended to `path` and `pathIndices`. */
  method FindNodeByNumber(root: Node, targetNumber: string, path: seq<Node>, pathIndices: seq<nat>)
    returns (r: Option<FindResult>)
    ensures r == Locate(root, HasNumber(targetNumber), path, pathIndices)
    decreases root
  {
    if root.number == Some(targetNumber) {
      return Some(FindResult(root, path, pathIndices));
    }
    var childrenArrays := GetChildrenArrays(root);
    ChildrenArraysFlatten(root);
    var flatIndex := 0;
    for i := 0 to |childrenArrays|
      invariant flatIndex == |Flatten(childrenArrays[..i])| <= |Children(root)|
      invariant LocateFrom(root, HasNumber(targetNumber), path, pathIndices, flatIndex)
        == Locate(root, HasNumber(targetNumber), path, pathIndices)
    {
      var children := childrenArrays[i].children;
      ArraySpan(childrenArrays, i);
      for j := 0 to |children|
        invariant flatIndex == |Flatten(childrenArrays[..i])| + j <= |Children(root)|
        invariant LocateFrom(root, HasNumber(targetNumber), path, pathIndices, flatIndex)
          == Locate(root, HasNumber(targetNumber), path, pathIndices)
      {
        ChildOfArrays(root, childrenArrays, i, j);
        var result := FindNodeByNumber(children[j], targetNumber, path + [root], pathIndices + [flatIndex]);
        LocateFromStep(root, HasNumber(targetNumber), path, pathIndices, flatIndex, result);
        if result.Some? {
          return result;
        }
        flatIndex := flatIndex + 1;
      }
    }
    FlattenWhole(childrenArrays);
    return None;
  }

  /** A search from the root finds the first node in pre-order carrying the number;
      it finds nothing exactly when no node carries it; the indices it reports lead
      back to the node, and their prefixes to its ancestors, the first being the root. */
  lemma FindNodeByNumberSpec(root: Node, targetNumber: string)
    ensures var res := Locate(root, HasNumber(targetNumber), [], []);
      NodeOf(res) == FirstWhere(PreOrder(root), HasNumber(targetNumber))
      && (res.None? <==> forall i :: 0 <= i < |PreOrder(root)| ==> PreOrder(root)[i].number != Some(targetNumber))
      && (res.Some? ==>
            res.value.node.number == Some(targetNumber)
            && |res.value.path| == |res.value.pathIndices|
            && ResolvePath(root, res.value.pathIndices) == Some(res.value.node)
            && (res.value.path != [] ==> res.value.path[0] == root)
            && forall k :: 0 <= k < |res.value.path| ==> ResolvePath(root, res.value.pathIndices[..k]) == Some(res.value.path[k]))
  {
    var res := Locate(root, HasNumber(targetNumber), [], []);
    LocateIsFirstInPreOrder(root, HasNumber(targetNumber), [], []);
    FirstWhereSpec(PreOrder(root), HasNumber(targetNumber));
    LocateShape(root, HasNumber(targetNumber), [], []);
    if res.Some? {
      var r := res.value;
      assert r.pathIndices[0..] == r.pathIndices;
      forall k | 0 <= k < |r.path| ensures ResolvePath(root, r.pathIndices[..k]) == Some(r.path[k]) {
        assert r.pathIndices[0..k] == r.pathIndices[..k];
      }
      if r.path != [] {
        assert r.pathIndices[0..0] == [];
      }
    }
  }

  /** `buildPathIndices`: the flat indices leading to the first occurrence of `targetNode`,
      appended to `currentPath`. */
  method BuildPathIndices(root: Node, targetNode: Node, currentPath: seq<nat>) returns (r: Option<seq<nat>>)
    ensures r == IndicesOf(Locate(root, IsNode(targetNode), [], currentPath))
    decreases root
  {
    if root == targetNode {
      return Some(currentPath);
    }
    assert !IsNode(targetNode)(root);
    var childrenArrays := GetChildrenArrays(root);
    ChildrenArraysFlatten(root);
    var flatIndex := 0;
    for i := 0 to |childrenArrays|
      invariant flatIndex == |Flatten(childrenArrays[..i])| <= |Children(root)|
      invariant IndicesOf(LocateFrom(root, IsNode(targetNode), [], currentPath, flatIndex))
        == IndicesOf(Locate(root, IsNode(targetNode), [], currentPath))
    {
      var children := childrenArrays[i].children;
      ArraySpan(childrenArrays, i);
      for j := 0 to |children|
        invariant flatIndex == |Flatten(childrenArrays[..i])| + j <= |Children(root)|
        invariant IndicesOf(LocateFrom(root, IsNode(targetNode), [], currentPath, flatIndex))
          == IndicesOf(Locate(root, IsNode(targetNode), [], currentPath))
      {
        ChildOfArrays(root, childrenArrays, i, j);
        var result := BuildPathIndices(children[j], targetNode, currentPath + [flatIndex]);
        IndicesStep(root, targetNode, currentPath, flatIndex, result);
        if result.Some? {
          return result;
        }
        flatIndex := flatIndex + 1;
      }
    }
    FlattenWhole(childrenArrays);
    return None;
  }

  /** One step of the loop of `buildPathIndices`: the child at `f` answers when it
      finds the node, otherwise the search moves on to `f + 1`. */
  lemma IndicesStep(root: Node, targetNode: Node, currentPath: seq<nat>, f: nat, result: Option<seq<nat>>)
    requires f < |Children(root)|
    requires result == IndicesOf(Locate(Children(root)[f], IsNode(targetNode), [], currentPath + [f]))
    ensures result.Some? ==> IndicesOf(LocateFrom(root, IsNode(targetNode), [], currentPath, f)) == result
    ensures result.None? ==>
      IndicesOf(LocateFrom(root, IsNode(targetNode), [], currentPath, f))
        == IndicesOf(LocateFrom(root, IsNode(targetNode), [], currentPath, f + 1))
  {
    var child := Children(root)[f];
    LocateIgnoresPath(child, IsNode(targetNode), [], [] + [root], currentPath + [f]);
    LocateFromStep(root, IsNode(targetNode), [], currentPath, f, Locate(child, IsNode(targetNode), [] + [root], currentPath + [f]));
  }

  /** The indices `Locate` reports do not depend on the ancestors collected so far. */
  lemma {:induction false} LocateIgnoresPath(root: Node, p: Node -> bool, path1: seq<Node>, path2: seq<Node>, idx: seq<nat>)
    ensures IndicesOf(Locate(root, p, path1, idx)) == IndicesOf(Locate(root, p, path2, idx))
    ensures Locate(root, p, path1, idx).Some? <==> Locate(root, p, path2, idx).Some?
    decreases root, 1
  {
    if !p(root) {
      LocateFromIgnoresPath(root, p, path1, path2, idx, 0);
    }
  }

  lemma {:induction false} LocateFromIgnoresPath(root: Node, p: Node -> bool, path1: seq<Node>, path2: seq<Node>, idx: seq<nat>, f: nat)
    requires f <= |Children(root)|
    ensures IndicesOf(LocateFrom(root, p, path1, idx, f)) == IndicesOf(LocateFrom(root, p, path2, idx, f))
    ensures LocateFrom(root, p, path1, idx, f).Some? <==> LocateFrom(root, p, path2, idx, f).Some?
    decreases root, 0, |Children(root)| - f
  {
    if f < |Children(root)| {
      ChildIsPart(root, f);
      LocateIgnoresPath(Children(root)[f], p, path1 + [root], path2 + [root], idx + [f]);
      LocateFromIgnoresPath(root, p, path1, path2, idx, f + 1);
    }
  }

  /** `findNodeByPath`: follow the flat child indices down from the root. */
  method FindNodeByPath(root: Node, pathIndices: seq<nat>) returns (r: Option<Node>)
    ensures r == ResolvePath(root, pathIndices)
  {
    if |pathIndices| == 0 {
      return Some(root);
    }
    var current := root;
    for i := 0 to |pathIndices|
      invariant ResolvePath(current, pathIndices[i..]) == ResolvePath(root, pathIndices)
    {
      var index := pathIndices[i];
      var childrenArrays := GetChildrenArrays(current);
      var allChildren: seq<Node> := [];
      for j := 0 to |childrenArrays|
        invariant allChildren == Flatten(childrenArrays[..j])
      {
        assert childrenArrays[..j + 1][..j] == childrenArrays[..j];
        allChildren := allChildren + childrenArrays[j].children;
      }
      FlattenWhole(childrenArrays);
      ChildrenArraysFlatten(current);
      assert pathIndices[i..] == [index] + pathIndices[i + 1..];
      if index >= |allChildren| {
        return None;
      }
      ResolveCons(current, index, pathIndices[i + 1..]);
      current := allChildren[index];
    }
    assert pathIndices[|pathIndices|..] == [];
    return Some(current);
  }

  /** The indices `buildPathIndices` reports lead `findNodeByPath` back to the target,
      and it reports some exactly when the target occurs in the tree. */
  lemma BuildThenFindPath(root: Node, targetNode: Node)
    ensures var ix := IndicesOf(Locate(root, IsNode(targetNode), [], []));
      (ix.Some? <==> targetNode in PreOrder(root))
      && (ix.Some? ==> ResolvePath(root, ix.value) == Some(targetNode))
  {
    var res := Locate(root, IsNode(targetNode), [], []);
    LocateIsFirstInPreOrder(root, IsNode(targetNode), [], []);
    FirstWhereSpec(PreOrder(root), IsNode(targetNode));
    LocateShape(root, IsNode(targetNode), [], []);
    if res.Some? {
      assert res.value.pathIndices[0..] == res.value.pathIndices;
    }
    if targetNode in PreOrder(root) {
      var i :| 0 <= i < |PreOrder(root)| && PreOrder(root)[i] == targetNode;
      assert IsNode(targetNode)(PreOrder(root)[i]);
    }
  }

  // ---------------------------------------------------------------- navigable nodes

  lemma FilterPreOrder(node: Node, p: Node -> bool)
    ensures Filter(PreOrder(node), p) == (if p(node) then [node] else []) + Filter(PreOrderFrom(node, 0), p)
  {
    assert Filter([node], p) == if p(node) then [node] else [];
    FilterAppend([node], PreOrderFrom(node, 0), p);
  }

  lemma FilterPreOrderFrom(node: Node, f: nat, p: Node -> bool)
    requires f < |Children(node)|
    ensures Filter(PreOrderFrom(node, f), p) == Filter(PreOrder(Children(node)[f]), p) + Filter(PreOrderFrom(node, f + 1), p)
  {
    PreOrderFromStep(node, f);
    FilterAppend(PreOrder(Children(node)[f]), PreOrderFrom(node, f + 1), p);
  }

  /** An accumulator `acc` that, followed by the navigable nodes of the children's
      subtrees from flat index `f` on, gives `total`. */
  ghost predicate OnTrack(node: Node, f: nat, acc: seq<Node>, total: seq<Node>)
    requires f <= |Children(node)|
  {
    acc + Filter(PreOrderFrom(node, f), IsNavigable) == total
  }

  /** Appending one more child's navigable nodes keeps an accumulator on track. */
  lemma OnTrackStep(node: Node, f: nat, before: seq<Node>, after: seq<Node>, total: seq<Node>)
    requires f < |Children(node)| && OnTrack(node, f, before, total)
    requires after == before + Filter(PreOrder(Children(node)[f]), IsNavigable)
    ensures OnTrack(node, f + 1, after, total)
  {
    FilterPreOrderFrom(node, f, IsNavigable);
    var a, b := Filter(PreOrder(Children(node)[f]), IsNavigable), Filter(PreOrderFrom(node, f + 1), IsNavigable);
    AppendAssoc(before, a, b);
  }

  lemma OnTrackStart(node: Node, result: seq<Node>, acc: seq<Node>)
    requires acc == result + (if IsNavigable(node) then [node] else [])
    ensures OnTrack(node, 0, acc, result + Filter(PreOrder(node), IsNavigable))
  {
    var head := if IsNavigable(node) then [node] else [];
    var rest := Filter(PreOrderFrom(node, 0), IsNavigable);
    FilterPreOrder(node, IsNavigable);
    AppendAssoc(result, head, rest);
  }

  lemma OnTrackEnd(node: Node, acc: seq<Node>, total: seq<Node>)
    requires OnTrack(node, |Children(node)|, acc, total)
    ensures acc == total
  {
  }

  /** `collectNavigableNodes`: `result` followed by the navigable nodes of the tree in pre-order. */
  method CollectNavigableNodes(node: Node, result: seq<Node>) returns (r: seq<Node>)
    ensures r == result + Filter(PreOrder(node), IsNavigable)
    decreases node
  {
    r := result;
    if IsNavigable(node) {
      r := r + [node];
    }
    ghost var total := result + Filter(PreOrder(node), IsNavigable);
    OnTrackStart(node, result, r);
    var childrenArrays := GetChildrenArrays(node);
    ChildrenArraysFlatten(node);
    ghost var flat := 0;
    for i := 0 to |childrenArrays|
      invariant flat == |Flatten(childrenArrays[..i])| <= |Children(node)|
      invariant OnTrack(node, flat, r, total)
    {
      var children := childrenArrays[i].children;
      ArraySpan(childrenArrays, i);
      for j := 0 to |children|
        invariant flat == |Flatten(childrenArrays[..i])| + j <= |Children(node)|
        invariant OnTrack(node, flat, r, total)
      {
        ChildOfArrays(node, childrenArrays, i, j);
        ghost var before := r;
        r := CollectNavigableNodes(children[j], r);
        OnTrackStep(node, flat, before, r, total);
        flat := flat + 1;
      }
    }
    FlattenWhole(childrenArrays);
    OnTrackEnd(node, r, total);
  }

  /** A node is collected exactly when it is in the tree and navigable. */
  lemma CollectedAreNavigable(node: Node, x: Node)
    ensures x in Filter(PreOrder(node), IsNavigable) <==> x in PreOrder(node) && IsNavigable(x)
  {
    FilterMembers(PreOrder(node), IsNavigable, x);
  }

  // ---------------------------------------------------------------- node paths in URLs

  /** One level of a node path: "depth-index". */
  function NodePathToken(depth: nat, index: nat): string {
    NatToString(depth) + "-" + NatToString(index)
  }

  /** `generateNodePath`: the tokens "depth-index" of every level, joined by "_". */
  function GenerateNodePath(pathIndices: seq<nat>): (r: string)
    ensures r == "" <==> pathIndices == []
  {
    Join(seq(|pathIndices|, d requires 0 <= d < |pathIndices| => NodePathToken(d, pathIndices[d])), "_")
  }

  /** The index half of one "depth-index" token; `None` stands for NaN. */
  function ParsePathToken(part: string): Option<int> {
    var pieces := Split(part, '-');
    if |pieces| >= 2 then ParseInt(pieces[1]) else None
  }

  /** `parseNodePath`: "" gives no indices; otherwise one entry per "_"-separated
      token, `None` where the token has no readable index. */
  function ParseNodePath(pathString: string): (r: seq<Option<int>>)
    ensures pathString != "" ==> |r| >= 1
  {
    if pathString == "" then []
    else
      var parts := Split(pathString, '_');
      seq(|parts|, i requires 0 <= i < |parts| => ParsePathToken(parts[i]))
  }

  lemma DigitsHaveNoSeparator(s: string, c: char)
    requires AllDigits(s) && !IsDigit(c)
    ensures c !in s
  {
  }

  lemma ParseToken(depth: nat, index: nat)
    ensures ParsePathToken(NodePathToken(depth, index)) == Some(index as int)
  {
    var a, b := NatToString(depth), NatToString(index);
    DigitsHaveNoSeparator(a, '-');
    DigitsHaveNoSeparator(b, '-');
    assert NodePathToken(depth, index) == a + ['-'] + b;
    SplitAfterPart(a, '-', b);
    SplitWithoutSeparator(b, '-');
    ParseIntOfNatToString(index);
  }

  /** Parsing a generated node path gives back every index. */
  lemma NodePathRoundTrip(pathIndices: seq<nat>)
    ensures ParseNodePath(GenerateNodePath(pathIndices))
      == seq(|pathIndices|, i requires 0 <= i < |pathIndices| => Some(pathIndices[i] as int))
  {
    if pathIndices != [] {
      var tokens := seq(|pathIndices|, d requires 0 <= d < |pathIndices| => NodePathToken(d, pathIndices[d]));
      forall d | 0 <= d < |tokens| ensures '_' !in tokens[d] {
        DigitsHaveNoSeparator(NatToString(d), '_');
        DigitsHaveNoSeparator(NatToString(pathIndices[d]), '_');
      }
      SplitJoin(tokens, '_');
      forall d | 0 <= d < |tokens| ensures ParsePathToken(tokens[d]) == Some(pathIndices[d] as int) {
        ParseToken(d, pathIndices[d]);
      }
    }
  }

  /** `buildContextualBookUrl`: the book page, with the node path as the `expand`
      query parameter when there is one. */
  function BuildContextualBookUrl(lawKey: string, bookId: string, pathIndices: seq<nat>): string {
    var basePath := "/" + lawKey + "/" + bookId;
    if |pathIndices| == 0 then basePath else basePath + "?expand=" + GenerateNodePath(pathIndices)
  }

  /** The URL is the book page itself exactly when there is no path, and otherwise
      carries an `expand` value that parses back to the path. */
  lemma ContextualUrlRoundTrip(lawKey: string, bookId: string, pathIndices: seq<nat>)
    ensures var basePath := "/" + lawKey + "/" + bookId;
      var url := BuildContextualBookUrl(lawKey, bookId, pathIndices);
      StartsWith(url, basePath)
      && (url == basePath <==> pathIndices == [])
      && (pathIndices != [] ==>
            var expand := url[|basePath| + |"?expand="|..];
            url == basePath + "?expand=" + expand
            && ParseNodePath(expand) == seq(|pathIndices|, i requires 0 <= i < |pathIndices| => Some(pathIndices[i] as int)))
  {
    var basePath := "/" + lawKey + "/" + bookId;
    if pathIndices != [] {
      var g := GenerateNodePath(pathIndices);
      var url := basePath + "?expand=" + g;
      assert url[|basePath| + |"?expand="|..] == g;
      NodePathRoundTrip(pathIndices);
    }
  }

  // ---------------------------------------------------------------- searchable articles

  /** `data-loader`'s searchable article record. */
  datatype SearchableArticle = SearchableArticle(
    articleNumber: string,
    lawKey: string,
    bookId: string,
    bookName: string,
    chapterName: string,
    sectionName: Option<string>,
    content: string)

  /** The trail segment a named child adds: "name title", trimmed. */
  function Segment(c: Node): string {
    Trim((if Truthy(c.name) then c.name.value else "") + " " + (if Truthy(c.title) then c.title.value else ""))
  }

  /** The trail below a child: one more segment when it has a name or a title. */
  function ChildPath(path: seq<string>, c: Node): (r: seq<string>)
    ensures Truthy(c.name) || Truthy(c.title) ==> r == path + [Segment(c)]
    ensures !(Truthy(c.name) || Truthy(c.title)) ==> r == path
  {
    if Truthy(c.name) || Truthy(c.title) then path + [Segment(c)] else path
  }

  /** Every node of the tree in pre-order, paired with its trail of segments. */
  function TrailOrder(n: Node, path: seq<string>): (r: seq<(Node, seq<string>)>)
    ensures |r| >= 1 && r[0] == (n, path)
    decreases n, 1
  {
    [(n, path)] + TrailsFrom(n, path, 0)
  }

  function TrailsFrom(n: Node, path: seq<string>, f: nat): seq<(Node, seq<string>)>
    requires f <= |Children(n)|
    decreases n, 0, |Children(n)| - f
  {
    if f == |Children(n)| then []
    else
      ChildIsPart(n, f);
      var c := Children(n)[f];
      TrailOrder(c, ChildPath(path, c)) + TrailsFrom(n, path, f + 1)
  }

  /** A node becomes a search record when it has a number and paragraphs. */
  predicate IsArticleNode(n: Node) {
    Truthy(n.number) && n.paragraphs.Some?
  }

  /** `path[0] || bookName`. */
  function ChapterName(path: seq<string>, bookName: string): (r: string)
    ensures path == [] ==> r == bookName
    ensures path != [] && path[0] != "" ==> r == path[0]
    ensures path != [] && path[0] == "" ==> r == bookName
  {
    if |path| > 0 then OrElse(path[0], bookName) else bookName
  }

  /** `path.slice(1).join(" > ") || undefined`. */
  function SectionName(path: seq<string>): (r: Option<string>)
    ensures |path| <= 1 ==> r == None
    ensures r.Some? ==> r.value != "" && |path| >= 2 && r.value == Join(path[1..], " > ")
    ensures |path| >= 3 || (|path| == 2 && path[1] != "") ==> r == Some(Join(path[1..], " > "))
    ensures |path| == 2 && path[1] != "" ==> r == Some(path[1])
  {
    var joined := if |path| > 0 then Join(path[1..], " > ") else "";
    if joined != "" then Some(joined) else None
  }

  function ArticleRecord(n: Node, lawKey: string, bookId: string, bookName: string, path: seq<string>): SearchableArticle
    requires IsArticleNode(n)
  {
    SearchableArticle(n.number.value, lawKey, bookId, bookName, ChapterName(path, bookName), SectionName(path),
      Join(n.paragraphs.value, " "))
  }

  /** The records of the article nodes of a trail, in trail order. */
  function Records(trail: seq<(Node, seq<string>)>, lawKey: string, bookId: string, bookName: string): (r: seq<SearchableArticle>)
    ensures |r| <= |trail|
  {
    if trail == [] then []
    else
      var (n, path) := trail[0];
      (if IsArticleNode(n) then [ArticleRecord(n, lawKey, bookId, bookName, path)] else [])
      + Records(trail[1..], lawKey, bookId, bookName)
  }

  lemma {:induction false} RecordsAppend(a: seq<(Node, seq<string>)>, b: seq<(Node, seq<string>)>, lawKey: string, bookId: string, bookName: string)
    ensures Records(a + b, lawKey, bookId, bookName) == Records(a, lawKey, bookId, bookName) + Records(b, lawKey, bookId, bookName)
  {
    if a != [] {
      assert (a + b)[1..] == a[1..] + b;
      RecordsAppend(a[1..], b, lawKey, bookId, bookName);
    } else {
      assert a + b == b;
    }
  }

  /** An accumulator that, followed by the records of the children's subtrees from
      flat index `f` on, gives `total`. */
  ghost predicate RecordsOnTrack(node: Node, path: seq<string>, f: nat, acc: seq<SearchableArticle>,
                                 lawKey: string, bookId: string, bookName: string, total: seq<SearchableArticle>)
    requires f <= |Children(node)|
  {
    acc + Records(TrailsFrom(node, path, f), lawKey, bookId, bookName) == total
  }

  lemma RecordsStart(node: Node, path: seq<string>, acc: seq<SearchableArticle>, lawKey: string, bookId: string, bookName: string)
    requires acc == if IsArticleNode(node) then [ArticleRecord(node, lawKey, bookId, bookName, path)] else []
    ensures RecordsOnTrack(node, path, 0, acc, lawKey, bookId, bookName, Records(TrailOrder(node, path), lawKey, bookId, bookName))
  {
    assert Records([(node, path)], lawKey, bookId, bookName) == acc;
    RecordsAppend([(node, path)], TrailsFrom(node, path, 0), lawKey, bookId, bookName);
  }

  lemma RecordsStep(node: Node, path: seq<string>, f: nat, before: seq<SearchableArticle>, sub: seq<SearchableArticle>,
                    lawKey: string, bookId: string, bookName: string, total: seq<SearchableArticle>)
    requires f < |Children(node)| && RecordsOnTrack(node, path, f, before, lawKey, bookId, bookName, total)
    requires sub == Records(TrailOrder(Children(node)[f], ChildPath(path, Children(node)[f])), lawKey, bookId, bookName)
    ensures RecordsOnTrack(node, path, f + 1, before + sub, lawKey, bookId, bookName, total)
  {
    var c := Children(node)[f];
    var rest := Records(TrailsFrom(node, path, f + 1), lawKey, bookId, bookName);
    assert TrailsFrom(node, path, f) == TrailOrder(c, ChildPath(path, c)) + TrailsFrom(node, path, f + 1);
    RecordsAppend(TrailOrder(c, ChildPath(path, c)), TrailsFrom(node, path, f + 1), lawKey, bookId, bookName);
    assert (before + sub) + rest == before + (sub + rest);
  }

  lemma RecordsEnd(node: Node, path: seq<string>, acc: seq<SearchableArticle>,
                   lawKey: string, bookId: string, bookName: string, total: seq<SearchableArticle>)
    requires RecordsOnTrack(node, path, |Children(node)|, acc, lawKey, bookId, bookName, total)
    ensures acc == total
  {
    assert acc + [] == acc;
  }

  lemma CollectionsAll(n: Node)
    ensures CollectionsUpTo(n, |CHILDREN_KEYS|) == Children(n)
  {
    ArraysUpToFlatten(n, |CHILDREN_KEYS|);
    ChildrenArraysFlatten(n);
  }

  /** The first `m` collections together are a prefix of the flat children. */
  lemma {:induction false} CollectionsPrefix(n: Node, m: nat)
    requires m <= |CHILDREN_KEYS|
    ensures CollectionsUpTo(n, m) <= Children(n)
    decreases |CHILDREN_KEYS| - m
  {
    if m < |CHILDREN_KEYS| {
      CollectionsPrefix(n, m + 1);
    } else {
      CollectionsAll(n);
    }
  }

  /** The flat index of the first child of collection `i`. */
  ghost function Offset(n: Node, i: nat): nat
    requires i <= |CHILDREN_KEYS|
  {
    |CollectionsUpTo(n, i)|
  }

  /** Collection `i` occupies the flat indices from `Offset(n, i)` to `Offset(n, i + 1)`;
      the last one ends with the children. */
  lemma CollectionSpan(n: Node, i: nat)
    requires i < |CHILDREN_KEYS|
    ensures Offset(n, i + 1) == Offset(n, i) + |Collection(n, CHILDREN_KEYS[i])| <= |Children(n)|
    ensures i + 1 == |CHILDREN_KEYS| ==> Offset(n, i + 1) == |Children(n)|
  {
    CollectionsPrefix(n, i + 1);
    CollectionsAll(n);
  }

  /** Child `j` of collection `i` is the node's child at flat index `Offset(n, i) + j`. */
  lemma ChildOfCollection(n: Node, i: nat, j: nat)
    requires i < |CHILDREN_KEYS| && j < |Collection(n, CHILDREN_KEYS[i])|
    ensures Offset(n, i) + j < |Children(n)|
    ensures Collection(n, CHILDREN_KEYS[i])[j] == Children(n)[Offset(n, i) + j]
    ensures Collection(n, CHILDREN_KEYS[i])[j] < n
  {
    CollectionsPrefix(n, i + 1);
    ChildIsPart(n, |CollectionsUpTo(n, i)| + j);
  }

  /** `extractArticles`: the records of the article nodes of the tree, in pre-order,
      each with the trail of named ancestors below the starting `path`. */
  method ExtractArticles(node: Node, lawKey: string, bookId: string, bookName: string, path: seq<string>)
    returns (articles: seq<SearchableArticle>)
    ensures articles == Records(TrailOrder(node, path), lawKey, bookId, bookName)
    decreases node
  {
    articles := [];
    if Truthy(node.number) && node.paragraphs.Some? {
      articles := articles + [ArticleRecord(node, lawKey, bookId, bookName, path)];
    }
    ghost var total := Records(TrailOrder(node, path), lawKey, bookId, bookName);
    RecordsStart(node, path, articles, lawKey, bookId, bookName);
    ghost var flat := 0;
    for i := 0 to |CHILDREN_KEYS|
      invariant flat == Offset(node, i) <= |Children(node)|
      invariant RecordsOnTrack(node, path, flat, articles, lawKey, bookId, bookName, total)
    {
      var children := Collection(node, CHILDREN_KEYS[i]);
      CollectionSpan(node, i);
      for j := 0 to |children|
        invariant flat == Offset(node, i) + j <= |Children(node)|
        invariant RecordsOnTrack(node, path, flat, articles, lawKey, bookId, bookName, total)
      {
        var child := children[j];
        ChildOfCollection(node, i, j);
        var childPath := ChildPath(path, child);
        var sub := ExtractArticles(child, lawKey, bookId, bookName, childPath);
        RecordsStep(node, path, flat, articles, sub, lawKey, bookId, bookName, total);
        articles := articles + sub;
        flat := flat + 1;
      }
    }
    CollectionSpan(node, |CHILDREN_KEYS| - 1);
    RecordsEnd(node, path, articles, lawKey, bookId, bookName, total);
  }

  /** The nodes of a trail. */
  function TrailNodes(trail: seq<(Node, seq<string>)>): (r: seq<Node>)
    ensures |r| == |trail|
  {
    if trail == [] then [] else [trail[0].0] + TrailNodes(trail[1..])
  }

  lemma {:induction false} TrailNodesAppend(a: seq<(Node, seq<string>)>, b: seq<(Node, seq<string>)>)
    ensures TrailNodes(a + b) == TrailNodes(a) + TrailNodes(b)
  {
    if a != [] {
      assert (a + b)[1..] == a[1..] + b;
      TrailNodesAppend(a[1..], b);
    } else {
      assert a + b == b;
    }
  }

  /** The trail walk visits the same nodes in the same order as the pre-order. */
  lemma {:induction false} TrailOrderIsPreOrder(n: Node, path: seq<string>)
    ensures TrailNodes(TrailOrder(n, path)) == PreOrder(n)
    decreases n, 1
  {
    TrailNodesAppend([(n, path)], TrailsFrom(n, path, 0));
    TrailsFromArePreOrder(n, path, 0);
  }

  lemma {:induction false} TrailsFromArePreOrder(n: Node, path: seq<string>, f: nat)
    requires f <= |Children(n)|
    ensures TrailNodes(TrailsFrom(n, path, f)) == PreOrderFrom(n, f)
    decreases n, 0, |Children(n)| - f
  {
    if f < |Children(n)| {
      ChildIsPart(n, f);
      var c := Children(n)[f];
      TrailNodesAppend(TrailOrder(c, ChildPath(path, c)), TrailsFrom(n, path, f + 1));
      TrailOrderIsPreOrder(c, ChildPath(path, c));
      TrailsFromArePreOrder(n, path, f + 1);
    }
  }

  /** The segments that the nodes met along the flat child indices `idx` below
      `root` add to the trail: one per node with a name or a title, in order from
      the top; the root itself adds none. */
  function SegmentsAlong(root: Node, idx: seq<nat>): seq<string>
    decreases |idx|
  {
    if idx == [] || idx[0] >= |Children(root)| then []
    else OwnSegment(Children(root)[idx[0]]) + SegmentsAlong(Children(root)[idx[0]], idx[1..])
  }

  /** The segment a node adds to the trail, if it has a name or a title. */
  function OwnSegment(c: Node): seq<string> {
    if Truthy(c.name) || Truthy(c.title) then [Segment(c)] else []
  }

  lemma ChildPathOwn(path: seq<string>, c: Node)
    ensures ChildPath(path, c) == path + OwnSegment(c)
  {
  }

  lemma SegmentsAlongCons(root: Node, f: nat, rest: seq<nat>)
    requires f < |Children(root)|
    ensures SegmentsAlong(root, [f] + rest) == OwnSegment(Children(root)[f]) + SegmentsAlong(Children(root)[f], rest)
  {
    assert ([f] + rest)[1..] == rest;
  }

  /** Node `m` is reached from `n` by some flat child indices, and `trail` is `path`
      followed by the segments of the named nodes on the way (`m` included). */
  ghost predicate ReachedWithTrail(n: Node, path: seq<string>, m: Node, trail: seq<string>) {
    exists idx :: ResolvePath(n, idx) == Some(m) && trail == path + SegmentsAlong(n, idx)
  }

  /** Each node of the trail walk is reached from `n`, and its trail is the starting
      one followed by the segments of its named ancestors below `n`. */
  lemma {:induction false} TrailsFollowNamedAncestors(n: Node, path: seq<string>)
    ensures forall k :: 0 <= k < |TrailOrder(n, path)| ==>
      ReachedWithTrail(n, path, TrailOrder(n, path)[k].0, TrailOrder(n, path)[k].1)
    decreases n, 1
  {
    var t := TrailOrder(n, path);
    var rest := TrailsFrom(n, path, 0);
    assert t == [(n, path)] + rest;
    TrailsFromFollowNamedAncestors(n, path, 0);
    assert ResolvePath(n, []) == Some(n) && path == path + SegmentsAlong(n, []);
    forall k | 0 <= k < |t|
      ensures ReachedWithTrail(n, path, t[k].0, t[k].1)
    {
      if k > 0 {
        assert t[k] == rest[k - 1];
      }
    }
  }

  lemma {:induction false} TrailsFromFollowNamedAncestors(n: Node, path: seq<string>, f: nat)
    requires f <= |Children(n)|
    ensures forall k :: 0 <= k < |TrailsFrom(n, path, f)| ==>
      ReachedWithTrail(n, path, TrailsFrom(n, path, f)[k].0, TrailsFrom(n, path, f)[k].1)
    decreases n, 0, |Children(n)| - f
  {
    if f < |Children(n)| {
      ChildIsPart(n, f);
      var c := Children(n)[f];
      var cPath := ChildPath(path, c);
      var a := TrailOrder(c, cPath);
      var b := TrailsFrom(n, path, f + 1);
      var ab: seq<(Node, seq<string>)> := a + b;
      assert TrailsFrom(n, path, f) == ab;
      TrailsFollowNamedAncestors(c, cPath);
      TrailsFromFollowNamedAncestors(n, path, f + 1);
      forall k | 0 <= k < |ab|
        ensures ReachedWithTrail(n, path, ab[k].0, ab[k].1)
      {
        if k < |a| {
          assert ab[k] == a[k];
          assert ReachedWithTrail(c, cPath, a[k].0, a[k].1);
          ReachedThroughChild(n, path, f, a[k].0, a[k].1);
        } else {
          assert ab[k] == b[k - |a|];
        }
      }
    }
  }

  /** What is reached from child `f` with its trail is reached from `n`. */
  lemma ReachedThroughChild(n: Node, path: seq<string>, f: nat, m: Node, trail: seq<string>)
    requires f < |Children(n)|
    requires ReachedWithTrail(Children(n)[f], ChildPath(path, Children(n)[f]), m, trail)
    ensures ReachedWithTrail(n, path, m, trail)
  {
    var c := Children(n)[f];
    var sub :| ResolvePath(c, sub) == Some(m) && trail == ChildPath(path, c) + SegmentsAlong(c, sub);
    ResolveCons(n, f, sub);
    SegmentsAlongCons(n, f, sub);
    ChildPathOwn(path, c);
    AppendAssoc(path, OwnSegment(c), SegmentsAlong(c, sub));
    assert ResolvePath(n, [f] + sub) == Some(m);
    assert trail == path + SegmentsAlong(n, [f] + sub);
  }

  /** `r` is the record of one of the article nodes of `trail`, with that node's trail. */
  ghost predicate RecordOfEntry(r: SearchableArticle, trail: seq<(Node, seq<string>)>, lawKey: string, bookId: string, bookName: string) {
    exists k :: 0 <= k < |trail| && IsArticleNode(trail[k].0)
      && r == ArticleRecord(trail[k].0, lawKey, bookId, bookName, trail[k].1)
  }

  /** Each record of a trail is the record of one of its article nodes. */
  lemma {:induction false} RecordsOfEntries(trail: seq<(Node, seq<string>)>, lawKey: string, bookId: string, bookName: string)
    ensures forall r :: r in Records(trail, lawKey, bookId, bookName) ==> RecordOfEntry(r, trail, lawKey, bookId, bookName)
  {
    if trail != [] {
      var (n, path) := trail[0];
      var head := if IsArticleNode(n) then [ArticleRecord(n, lawKey, bookId, bookName, path)] else [];
      var rest := Records(trail[1..], lawKey, bookId, bookName);
      assert Records(trail, lawKey, bookId, bookName) == head + rest;
      RecordsOfEntries(trail[1..], lawKey, bookId, bookName);
      forall r | r in head + rest
        ensures RecordOfEntry(r, trail, lawKey, bookId, bookName)
      {
        if r in head {
          assert IsArticleNode(trail[0].0) && r == ArticleRecord(trail[0].0, lawKey, bookId, bookName, trail[0].1);
        } else {
          assert RecordOfEntry(r, trail[1..], lawKey, bookId, bookName);
          var k :| 0 <= k < |trail[1..]| && IsArticleNode(trail[1..][k].0)
            && r == ArticleRecord(trail[1..][k].0, lawKey, bookId, bookName, trail[1..][k].1);
          assert trail[1..][k] == trail[k + 1];
        }
      }
    }
  }

  /** `r` is the record of article node `m` under `trail`: its number, its
      paragraphs joined by spaces, the law, book and book name given, the first
      trail segment (or the book name) as chapter and the remaining segments
      joined by " > " (if any) as section. */
  predicate IsRecordOf(r: SearchableArticle, m: Node, trail: seq<string>, lawKey: string, bookId: string, bookName: string) {
    IsArticleNode(m)
    && r.articleNumber == m.number.value && r.content == Join(m.paragraphs.value, " ")
    && r.lawKey == lawKey && r.bookId == bookId && r.bookName == bookName
    && r.chapterName == ChapterName(trail, bookName) && r.sectionName == SectionName(trail)
  }

  /** `r` is the record of a node reached from `n` by some flat child indices, under
      the trail made of `path` followed by the segments of the node's named
      ancestors below `n` (the node itself included). */
  ghost predicate RecordFromTree(r: SearchableArticle, n: Node, path: seq<string>, lawKey: string, bookId: string, bookName: string) {
    exists idx :: ResolvePath(n, idx).Some?
      && IsRecordOf(r, ResolvePath(n, idx).value, path + SegmentsAlong(n, idx), lawKey, bookId, bookName)
  }

  /** `extractArticles`: every record is the record of an article node of the tree,
      reached by some flat child indices, under the trail made of the starting one
      followed by the segments of the node's named ancestors (itself included). */
  lemma ExtractedRecordsCarryTrail(n: Node, lawKey: string, bookId: string, bookName: string, path: seq<string>)
    ensures forall r :: r in Records(TrailOrder(n, path), lawKey, bookId, bookName) ==>
      RecordFromTree(r, n, path, lawKey, bookId, bookName)
  {
    var t := TrailOrder(n, path);
    RecordsOfEntries(t, lawKey, bookId, bookName);
    TrailsFollowNamedAncestors(n, path);
    forall r | r in Records(t, lawKey, bookId, bookName)
      ensures RecordFromTree(r, n, path, lawKey, bookId, bookName)
    {
      assert RecordOfEntry(r, t, lawKey, bookId, bookName);
      var k :| 0 <= k < |t| && IsArticleNode(t[k].0) && r == ArticleRecord(t[k].0, lawKey, bookId, bookName, t[k].1);
      RecordOfReached(n, path, t[k].0, t[k].1, r, lawKey, bookId, bookName);
    }
  }

  lemma RecordOfReached(n: Node, path: seq<string>, m: Node, trail: seq<string>, r: SearchableArticle,
                        lawKey: string, bookId: string, bookName: string)
    requires ReachedWithTrail(n, path, m, trail) && IsArticleNode(m)
    requires r == ArticleRecord(m, lawKey, bookId, bookName, trail)
    ensures RecordFromTree(r, n, path, lawKey, bookId, bookName)
  {
    var idx :| ResolvePath(n, idx) == Some(m) && trail == path + SegmentsAlong(n, idx);
    assert IsRecordOf(r, ResolvePath(n, idx).value, path + SegmentsAlong(n, idx), lawKey, bookId, bookName);
  }

  /** The article number and content of a record. */
  function RecordKeys(recs: seq<SearchableArticle>): seq<(string, string)> {
    if recs == [] then [] else [(recs[0].articleNumber, recs[0].content)] + RecordKeys(recs[1..])
  }

  /** The article number and the paragraphs joined by spaces, for each article node. */
  function ArticleKeys(nodes: seq<Node>): seq<(string, string)> {
    if nodes == [] then []
    else
      (if IsArticleNode(nodes[0]) then [(nodes[0].number.value, Join(nodes[0].paragraphs.value, " "))] else [])
      + ArticleKeys(nodes[1..])
  }

  lemma {:induction false} RecordKeysOfTrail(trail: seq<(Node, seq<string>)>, lawKey: string, bookId: string, bookName: string)
    ensures RecordKeys(Records(trail, lawKey, bookId, bookName)) == ArticleKeys(TrailNodes(trail))
  {
    if trail != [] {
      RecordKeysOfTrail(trail[1..], lawKey, bookId, bookName);
      var head := if IsArticleNode(trail[0].0) then [ArticleRecord(trail[0].0, lawKey, bookId, bookName, trail[0].1)] else [];
      var rest := Records(trail[1..], lawKey, bookId, bookName);
      RecordKeysAppend(head, rest);
      assert TrailNodes(trail)[1..] == TrailNodes(trail[1..]);
    }
  }

  lemma {:induction false} RecordKeysAppend(a: seq<SearchableArticle>, b: seq<SearchableArticle>)
    ensures RecordKeys(a + b) == RecordKeys(a) + RecordKeys(b)
  {
    if a != [] {
      assert (a + b)[1..] == a[1..] + b;
      RecordKeysAppend(a[1..], b);
    } else {
      assert a + b == b;
    }
  }

  /** `extractArticles` yields one record per article node of the tree, in pre-order,
      carrying the node's number and its paragraphs joined by single spaces. */
  lemma ExtractedArticlesFollowPreOrder(n: Node, lawKey: string, bookId: string, bookName: string, path: seq<string>)
    ensures RecordKeys(Records(TrailOrder(n, path), lawKey, bookId, bookName)) == ArticleKeys(PreOrder(n))
  {
    RecordKeysOfTrail(TrailOrder(n, path), lawKey, bookId, bookName);
    TrailOrderIsPreOrder(n, path);
  }

  // ---------------------------------------------------------------- the book registry

  /** One book of a law: its id and the root of its JSON tree. */
  datatype BookEntry = BookEntry(id: string, root: Node)

  /** The books of one law, in declaration order. */
  datatype LawBooks = LawBooks(lawKey: string, books: seq<BookEntry>)

  /** The statically imported book trees, law by law. The trees are the JSON files
      the application ships; the registry fixes which ids each law has. */
  type BookData = seq<LawBooks>

  const CPP_BOOK_IDS: seq<string> :=
    ["book_0", "book_1st", "book_2nd", "book_3rd", "book_4th", "book_5th", "book_6th", "book_7th", "book_8th"]

  const DP_BOOK_IDS: seq<string> := ["code_book_0", "code_book_1", "code_book_2", "code_book_3"]

  function BookIdsOf(books: seq<BookEntry>): (r: seq<string>)
    ensures |r| == |books| && forall i :: 0 <= i < |books| ==> r[i] == books[i].id
  {
    seq(|books|, i requires 0 <= i < |books| => books[i].id)
  }

  /** The book table has exactly the registry's laws and book ids, in order. */
  predicate MatchesRegistry(data: BookData) {
    |data| == 2
    && data[0].lawKey == "cpp" && BookIdsOf(data[0].books) == CPP_BOOK_IDS
    && data[1].lawKey == "dp" && BookIdsOf(data[1].books) == DP_BOOK_IDS
  }

  /** Entry `i` is the table's first entry for `lawKey` (the one a property
      lookup finds). */
  predicate FirstLawAt(data: BookData, lawKey: string, i: int) {
    0 <= i < |data| && data[i].lawKey == lawKey && forall j :: 0 <= j < i ==> data[j].lawKey != lawKey
  }

  /** Book `k` is the first book with id `bookId`. */
  predicate FirstBookAt(books: seq<BookEntry>, bookId: string, k: int) {
    0 <= k < |books| && books[k].id == bookId && forall j :: 0 <= j < k ==> books[j].id != bookId
  }

  /** `BOOK_DATA[lawKey]`: the books of the first entry with that key, none without one. */
  function LawBooksOf(data: BookData, lawKey: string): (r: Option<seq<BookEntry>>)
    ensures r.Some? ==> exists i :: FirstLawAt(data, lawKey, i) && data[i].books == r.value
    ensures r.None? <==> forall i :: 0 <= i < |data| ==> data[i].lawKey != lawKey
    ensures forall i :: FirstLawAt(data, lawKey, i) ==> r == Some(data[i].books)
  {
    if data == [] then None
    else if data[0].lawKey == lawKey then
      assert FirstLawAt(data, lawKey, 0);
      Some(data[0].books)
    else
      var r := LawBooksOf(data[1..], lawKey);
      assert forall i :: FirstLawAt(data[1..], lawKey, i) <==> FirstLawAt(data, lawKey, i + 1);
      assert forall i :: FirstLawAt(data, lawKey, i) ==> i >= 1 && FirstLawAt(data[1..], lawKey, i - 1);
      assert forall i :: 0 <= i < |data[1..]| ==> data[1..][i] == data[i + 1];
      r
  }

  /** `lawBooks[bookId]`: the tree of the first book with that id, none without one. */
  function BookOf(books: seq<BookEntry>, bookId: string): (r: Option<Node>)
    ensures r.Some? <==> bookId in BookIdsOf(books)
    ensures r.Some? ==> BookEntry(bookId, r.value) in books
    ensures forall k :: FirstBookAt(books, bookId, k) ==> r == Some(books[k].root)
  {
    if books == [] then None
    else if books[0].id == bookId then Some(books[0].root)
    else
      assert BookIdsOf(books) == [books[0].id] + BookIdsOf(books[1..]);
      assert forall k :: FirstBookAt(books, bookId, k) ==> k >= 1 && FirstBookAt(books[1..], bookId, k - 1);
      BookOf(books[1..], bookId)
  }

  /** `getAvailableBookIds`: the ids of the first entry for the law in the table,
      none when the table has no entry for it. */
  function GetAvailableBookIds(data: BookData, lawKey: string): (r: seq<string>)
    ensures (forall i :: 0 <= i < |data| ==> data[i].lawKey != lawKey) ==> r == []
    ensures forall i :: FirstLawAt(data, lawKey, i) ==> r == BookIdsOf(data[i].books)
  {
    match LawBooksOf(data, lawKey)
    case None => []
    case Some(books) => BookIdsOf(books)
  }

  /** `loadBookDataSync`: the book's tree, or `None` for an unknown law or book.
      The tree is the one registered under `bookId` in the law's first entry. */
  function LoadBookDataSync(data: BookData, lawKey: string, bookId: string): (r: Option<Node>)
    ensures r.Some? <==> bookId in GetAvailableBookIds(data, lawKey)
    ensures r.Some? ==> exists i :: FirstLawAt(data, lawKey, i) && BookEntry(bookId, r.value) in data[i].books
    ensures forall i, k :: FirstLawAt(data, lawKey, i) && FirstBookAt(data[i].books, bookId, k) ==>
      r == Some(data[i].books[k].root)
  {
    match LawBooksOf(data, lawKey)
    case None => None
    case Some(books) => BookOf(books, bookId)
  }

  /** `loadBookData`: as `loadBookDataSync`, but only for a registered law source. */
  function LoadBookData(data: BookData, lawKey: string, bookId: string): (r: Option<Node>)
    ensures r.Some? ==> LawSources.IsValidLawSource(lawKey) && bookId in GetAvailableBookIds(data, lawKey)
    ensures LawSources.IsValidLawSource(lawKey) ==> r == LoadBookDataSync(data, lawKey, bookId)
  {
    LawSources.ValidIffRegistered(lawKey);
    if LawSources.GetLawSource(lawKey).None? then None else LoadBookDataSync(data, lawKey, bookId)
  }

  /** With the registry's table, the Code of Criminal Procedure has nine books, the
      Criminal Code four, and any other key none. */
  lemma RegistryBookIds(data: BookData, lawKey: string)
    requires MatchesRegistry(data)
    ensures lawKey == "cpp" ==> GetAvailableBookIds(data, lawKey) == CPP_BOOK_IDS
    ensures lawKey == "dp" ==> GetAvailableBookIds(data, lawKey) == DP_BOOK_IDS
    ensures lawKey != "cpp" && lawKey != "dp" ==> GetAvailableBookIds(data, lawKey) == []
  {
  }
}
