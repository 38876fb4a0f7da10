/** Flattening the sidebar tree, against the positions of its nodes. */
module Navigation {
  import opened Wrappers

  /**
   An entry of the tree. `labels` stands for the fields the flattening only copies; absent
   `children` are the empty list, which the flattening treats alike.
   */
  datatype NavigationItem = NavigationItem(
    key: string, labels: seq<string>, path: Option<string>, children: seq<NavigationItem>)

  datatype FlatNavItem = FlatNavItem(item: NavigationItem, depth: nat, parentKey: Option<string>)

  predicate HasPath(item: NavigationItem) {
    item.path.Some? && item.path.value != ""
  }

  function Own(item: NavigationItem, depth: nat, parentKey: Option<string>): seq<FlatNavItem> {
    if HasPath(item) then [FlatNavItem(item, depth, parentKey)] else []
  }

  /** What the loop has pushed after all of `items`. */
  function Flattened(items: seq<NavigationItem>, depth: nat, parentKey: Option<string>): seq<FlatNavItem> {
    if items == [] then []
    else
      var item := items[|items| - 1];
      Flattened(items[..|items| - 1], depth, parentKey) + Own(item, depth, parentKey)
      + Flattened(item.children, depth + 1, Some(item.key))
  }

  method FlattenNavigation(items: seq<NavigationItem>, depth: nat, parentKey: Option<string>)
    returns (result: seq<FlatNavItem>)
    ensures result == Flattened(items, depth, parentKey)
  {
    result := [];
    for i := 0 to |items|
      invariant result == Flattened(items[..i], depth, parentKey)
    {
      var item := items[i];
      assert items[..i + 1][..i] == items[..i];
      if HasPath(item) {
        result := result + [FlatNavItem(item, depth, parentKey)];
      }
      if item.children != [] {
        var below := FlattenNavigation(item.children, depth + 1, Some(item.key));
        result := result + below;
      }
    }
    assert items[..|items|] == items;
  }

  // ── Positions in the tree ──

  /** The child indices from the top of the tree down to a node. */
  type Position = seq<nat>

  predicate IsPosition(items: seq<NavigationItem>, p: Position)
    decreases p
  {
    p != [] && p[0] < |items| && (|p| == 1 || IsPosition(items[p[0]].children, p[1..]))
  }

  function At(items: seq<NavigationItem>, p: Position): NavigationItem
    requires IsPosition(items, p)
    decreases p
  {
    if |p| == 1 then items[p[0]] else At(items[p[0]].children, p[1..])
  }

  /** The key of the node above a position, or `top` at the top of the tree. */
  function ParentKey(items: seq<NavigationItem>, p: Position, top: Option<string>): Option<string>
    requires IsPosition(items, p)
    decreases p
  {
    if |p| == 1 then top else ParentKey(items[p[0]].children, p[1..], Some(items[p[0]].key))
  }

  lemma {:induction false} ParentKeyIsKeyOfParent(items: seq<NavigationItem>, p: Position, top: Option<string>)
    requires IsPosition(items, p) && |p| > 1
    ensures IsPosition(items, p[..|p| - 1])
    ensures ParentKey(items, p, top) == Some(At(items, p[..|p| - 1]).key)
    decreases p
  {
    var front := p[..|p| - 1];
    if |p| > 2 {
      ParentKeyIsKeyOfParent(items[p[0]].children, p[1..], Some(items[p[0]].key));
      assert p[1..][..|p| - 2] == front[1..];
    }
  }

  /** Preorder: a node before those below it, and before those right of it. */
  predicate Before(p: Position, q: Position) {
    q != [] && (p == [] || p[0] < q[0] || (p[0] == q[0] && Before(p[1..], q[1..])))
  }

  ghost predicate InPreorder(ps: seq<Position>) {
    forall i, j :: 0 <= i < j < |ps| ==> Before(ps[i], ps[j])
  }

  function Under(k: nat, ps: seq<Position>): seq<Position> {
    seq(|ps|, i requires 0 <= i < |ps| => [k] + ps[i])
  }

  function OwnPosition(items: seq<NavigationItem>): seq<Position>
    requires items != []
  {
    if HasPath(items[|items| - 1]) then [[|items| - 1]] else []
  }

  /** The positions of the entries pushed. */
  function Visited(items: seq<NavigationItem>): seq<Position> {
    if items == [] then []
    else
      var item := items[|items| - 1];
      Visited(items[..|items| - 1]) + OwnPosition(items)
      + Under(|items| - 1, Visited(item.children))
  }

  // ── What is visited ──

  lemma {:induction false} ShorterIsPosition(items: seq<NavigationItem>, n: nat, p: Position)
    requires n <= |items|
    ensures IsPosition(items[..n], p) <==> IsPosition(items, p) && p[0] < n
    ensures IsPosition(items[..n], p) && IsPosition(items, p) ==> At(items[..n], p) == At(items, p)
    ensures forall top :: IsPosition(items[..n], p) && IsPosition(items, p) ==>
              ParentKey(items[..n], p, top) == ParentKey(items, p, top)
  {
  }

  /** Exactly the nodes with a path are visited. */
  lemma {:induction false} VisitsExactlyPaths(items: seq<NavigationItem>, p: Position)
    ensures p in Visited(items) <==> IsPosition(items, p) && HasPath(At(items, p))
    decreases items
  {
    if items != [] {
      var n := |items| - 1;
      var below := items[n].children;
      VisitsExactlyPaths(items[..n], p);
      ShorterIsPosition(items, n, p);
      if p != [] && p[0] == n {
        VisitsExactlyPaths(below, p[1..]);
      }
      InUnder(n, Visited(below), p);
      assert |p| == 1 && p[0] == n ==> p == [n];
      assert p in OwnPosition(items) <==> HasPath(items[n]) && p == [n];
    }
  }

  lemma {:induction false} InUnder(k: nat, ps: seq<Position>, p: Position)
    ensures p in Under(k, ps) <==> p != [] && p[0] == k && p[1..] in ps
  {
    if p != [] && p[0] == k && p[1..] in ps {
      var i :| 0 <= i < |ps| && ps[i] == p[1..];
      assert p == [k] + ps[i] == Under(k, ps)[i];
    }
    if p in Under(k, ps) {
      var i :| 0 <= i < |ps| && Under(k, ps)[i] == p;
      assert p[1..] == ps[i];
    }
  }

  /** The visit is in preorder, so no node is visited twice. */
  lemma {:induction false} VisitsInPreorder(items: seq<NavigationItem>)
    ensures InPreorder(Visited(items))
  {
    if items != [] {
      var n := |items| - 1;
      var a, b := Visited(items[..n]), OwnPosition(items);
      VisitsInPreorder(items[..n]);
      VisitsInPreorder(items[n].children);
      VisitedStart(items[..n]);
      VisitedStart(items[n].children);
      ConcatInPreorder(a, b, Visited(items[n].children), n);
    }
  }

  lemma {:induction false} VisitedStart(items: seq<NavigationItem>)
    ensures forall i :: 0 <= i < |Visited(items)| ==> Visited(items)[i] != [] && Visited(items)[i][0] < |items|
  {
    forall i | 0 <= i < |Visited(items)|
      ensures Visited(items)[i] != [] && Visited(items)[i][0] < |items|
    {
      VisitsExactlyPaths(items, Visited(items)[i]);
    }
  }

  lemma {:induction false} ConcatInPreorder(a: seq<Position>, b: seq<Position>, below: seq<Position>, n: nat)
    requires InPreorder(a) && InPreorder(below) && (b == [] || b == [[n]])
    requires forall i :: 0 <= i < |a| ==> a[i] != [] && a[i][0] < n
    requires forall i :: 0 <= i < |below| ==> below[i] != []
    ensures InPreorder(a + b + Under(n, below))
  {
    forall i | 0 <= i < |below|
      ensures |Under(n, below)[i]| > 1 && Under(n, below)[i][0] == n && Under(n, below)[i][1..] == below[i]
    {
    }
  }

  /** The entry for position `p`. */
  function EntryFor(items: seq<NavigationItem>, p: Position, depth: nat, top: Option<string>): FlatNavItem
    requires IsPosition(items, p)
  {
    FlatNavItem(At(items, p), depth + |p| - 1, ParentKey(items, p, top))
  }

  /** The i-th entry pushed is the node at the i-th position visited, with that position's depth and parent. */
  lemma {:induction false} EntriesAreNodes(items: seq<NavigationItem>, depth: nat, top: Option<string>)
    ensures |Flattened(items, depth, top)| == |Visited(items)|
    ensures forall i :: 0 <= i < |Visited(items)| ==>
              && IsPosition(items, Visited(items)[i])
              && Flattened(items, depth, top)[i] == EntryFor(items, Visited(items)[i], depth, top)
  {
    if items != [] {
      var n := |items| - 1;
      var item := items[n];
      var below := item.children;
      var a, b, c := Visited(items[..n]), OwnPosition(items), Under(n, Visited(below));
      EntriesAreNodes(items[..n], depth, top);
      EntriesAreNodes(below, depth + 1, Some(item.key));
      forall i | 0 <= i < |a|
        ensures IsPosition(items, a[i]) && EntryFor(items, a[i], depth, top) == EntryFor(items[..n], a[i], depth, top)
      {
        ShorterIsPosition(items, n, a[i]);
      }
      forall i | 0 <= i < |c|
        ensures IsPosition(items, c[i])
        ensures EntryFor(items, c[i], depth, top) == EntryFor(below, Visited(below)[i], depth + 1, Some(item.key))
      {
        assert c[i][1..] == Visited(below)[i];
      }
    }
  }

  // ── The call the sidebar makes ──

  /** The entry is the node at `p`, with the depth of that place and the key of the node above. */
  ghost predicate IsEntryAt(items: seq<NavigationItem>, entry: FlatNavItem, p: Position) {
    && IsPosition(items, p) && entry.item == At(items, p) && entry.depth == |p| - 1
    && (|p| == 1 ==> entry.parentKey == None)
    && (|p| > 1 ==> IsPosition(items, p[..|p| - 1]) && entry.parentKey == Some(At(items, p[..|p| - 1]).key))
  }

  /**
   Flattening lists exactly the nodes with a path, in preorder, each with the depth and the
   parent key of its place in the tree.
   */
  lemma {:induction false} FlatteningIsPreorderWalk(items: seq<NavigationItem>)
    ensures var (flat, ps) := (Flattened(items, 0, None), Visited(items));
            && |flat| == |ps| && InPreorder(ps)
            && (forall p :: p in ps <==>
                  IsPosition(items, p) && At(items, p).path.Some? && At(items, p).path.value != "")
            && forall i :: 0 <= i < |ps| ==> IsEntryAt(items, flat[i], ps[i])
  {
    EntriesAreNodes(items, 0, None);
    VisitsInPreorder(items);
    forall p
      ensures p in Visited(items) <==>
                IsPosition(items, p) && At(items, p).path.Some? && At(items, p).path.value != ""
    {
      VisitsExactlyPaths(items, p);
    }
    forall i | 0 <= i < |Visited(items)|
      ensures IsEntryAt(items, Flattened(items, 0, None)[i], Visited(items)[i])
    {
      if |Visited(items)[i]| > 1 {
        ParentKeyIsKeyOfParent(items, Visited(items)[i], None);
      }
    }
  }

  lemma {:induction false} BeforeDiffers(p: Position, q: Position)
    requires Before(p, q)
    ensures p != q
  {
    if p != [] && p[0] == q[0] {
      BeforeDiffers(p[1..], q[1..]);
    }
  }

  ghost predicate KeysAreUnique(items: seq<NavigationItem>) {
    forall p, q :: IsPosition(items, p) && IsPosition(items, q) && p != q ==> At(items, p).key != At(items, q).key
  }

  /** A tree without repeated keys gives a list without repeated keys. */
  lemma {:induction false} UniqueKeysStayUnique(items: seq<NavigationItem>, i: nat, j: nat)
    requires KeysAreUnique(items) && i < j < |Flattened(items, 0, None)|
    ensures Flattened(items, 0, None)[i].item.key != Flattened(items, 0, None)[j].item.key
  {
    EntriesAreNodes(items, 0, None);
    VisitsInPreorder(items);
    BeforeDiffers(Visited(items)[i], Visited(items)[j]);
  }
}
