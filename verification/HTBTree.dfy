// The sorted tree of HTBTree.c, with the pointers and cached depths of its elements.  A zipper, the path
// from the top down to an element and the subtree that hangs there, says where in the tree the code is.
// Line numbers in comments are those of Library/src/HTBTree.c.
module HTBTree {
  import opened SortedList
  import opened TreeBalance
  import opened TreeShape
  ghost function Leaf<T>(e: Element<T>): Shape<T> {
    Node(e, Empty, Empty)
  }

  // s hangs at the end of c, and every depth cache is right.
  ghost predicate Standing<T>(c: Path<T>, s: Shape<T>)
    reads PathElems(c), Elems(s)
  {
    At(c, s) && Depths(s) && PathDepths(c, Height(s))
  }

  ghost function Items<T>(es: seq<Element<T>>): (r: seq<T>)
    ensures |r| == |es| && forall i :: 0 <= i < |es| ==> r[i] == es[i].item
  {
    seq(|es|, i requires 0 <= i < |es| => es[i].item)
  }

  // The path leads to where item belongs.
  ghost predicate Separates<T>(cmp: Comparer<T>, c: Path<T>, item: T) {
    && (forall e :: e in Before(c) ==> !Less(cmp, item, e.item))
    && (forall e :: e in After(c) ==> Less(cmp, item, e.item))
  }

  ghost predicate WellSorted<T(!new)>(cmp: Comparer<T>, s: Shape<T>) {
    Sorted(cmp, Items(InOrder(s)))
  }

  // In a sorted list, what comes before one object comes before every later one.
  lemma Pivot<T(!new)>(cmp: Comparer<T>, a: seq<Element<T>>, e: Element<T>, b: seq<Element<T>>, x: T)
    requires TotalPreorder(cmp) && Sorted(cmp, Items(a + [e] + b))
    ensures Less(cmp, x, e.item) ==> forall f :: f in b ==> Less(cmp, x, f.item)
    ensures !Less(cmp, x, e.item) ==> forall f :: f in a ==> !Less(cmp, x, f.item)
  {
    var s, k := Items(a + [e] + b), |a|;
    assert s[k] == e.item;
    forall f | f in b
      ensures Less(cmp, x, e.item) ==> Less(cmp, x, f.item)
    {
      var i :| 0 <= i < |b| && b[i] == f;
      assert !Less(cmp, s[k + 1 + i], s[k]);
    }
    forall f | f in a
      ensures Less(cmp, x, f.item) ==> Less(cmp, x, e.item)
    {
      var i :| 0 <= i < |a| && a[i] == f;
      assert !Less(cmp, s[k], s[i]);
    }
  }

  lemma SortedAround<T(!new)>(cmp: Comparer<T>, c: Path<T>, s: Shape<T>, item: T)
    requires s.Node? && TotalPreorder(cmp) && WellSorted(cmp, Plug(c, s))
    ensures Less(cmp, item, s.e.item) ==> forall e :: e in InOrder(s.right) ==> Less(cmp, item, e.item)
    ensures !Less(cmp, item, s.e.item) ==> forall e :: e in InOrder(s.left) ==> !Less(cmp, item, e.item)
  {
    PlugInOrder(c, s);
    var l, r := InOrder(s.left), InOrder(s.right);
    var all := InOrder(Plug(c, s));
    Regroup(Before(c), l, [s.e], r, After(c));
    Pivot(cmp, Before(c) + l, s.e, r + After(c), item);
  }

  lemma TurnLeft<T(!new)>(cmp: Comparer<T>, c: Path<T>, s: Shape<T>, item: T)
    requires s.Node? && Standing(c, s) && Less(cmp, item, s.e.item)
    requires TotalPreorder(cmp) ==> WellSorted(cmp, Plug(c, s)) && Separates(cmp, c, item)
    ensures Standing(LeftOf(s.e, s.right, c), s.left)
    ensures TotalPreorder(cmp) ==> Separates(cmp, LeftOf(s.e, s.right, c), item)
  {
    if TotalPreorder(cmp) {
      SortedAround(cmp, c, s, item);
    }
  }

  lemma TurnRight<T(!new)>(cmp: Comparer<T>, c: Path<T>, s: Shape<T>, item: T)
    requires s.Node? && Standing(c, s) && !Less(cmp, item, s.e.item)
    requires TotalPreorder(cmp) ==> WellSorted(cmp, Plug(c, s)) && Separates(cmp, c, item)
    ensures Standing(RightOf(s.e, s.left, c), s.right)
    ensures TotalPreorder(cmp) ==> Separates(cmp, RightOf(s.e, s.left, c), item)
  {
    if TotalPreorder(cmp) {
      SortedAround(cmp, c, s, item);
    }
  }

  method HangLeft<T>(father: Element<T>, item: T, ghost c: Path<T>) returns (added: Element<T>)
    requires c.LeftOf? && c.p == father && Standing(c, Empty)
    modifies father`left
    ensures fresh(added) && added.item == item
    ensures At(c, Leaf(added)) && Depths(Leaf(added)) && PathDepths(c, 0)
  {
    PathElemsAllocated(c);
    added := new Element(item, father);
    father.left := added;
  }

  method HangRight<T>(father: Element<T>, item: T, ghost c: Path<T>) returns (added: Element<T>)
    requires c.RightOf? && c.p == father && Standing(c, Empty)
    modifies father`right
    ensures fresh(added) && added.item == item
    ensures At(c, Leaf(added)) && Depths(Leaf(added)) && PathDepths(c, 0)
  {
    PathElemsAllocated(c);
    added := new Element(item, father);
    father.right := added;
  }

  // Lines 209-224, 293-326 and 399-431: father's cached depth on the side of its child y becomes d.
  // Reports the cache before and after.  The subtree y heads is `old_` as the pointers have it, and
  // `new_` as it will be; the two differ only when a rotation is under way.
  method SetDepth<T>(father: Element<T>, y: Element<T>, d: int,
                     ghost c: Path<T>, ghost old_: Shape<T>, ghost new_: Shape<T>, ghost h: int)
    returns (depth: int, depth2: int)
    requires Holder(c) == father && Root(old_) == y && At(c, old_) && PathDepths(c, h)
    requires Elems(new_) == Elems(old_) && Depths(new_) && d == Height(new_)
    modifies father`leftDepth, father`rightDepth
    ensures depth == h && depth2 == d
    ensures Depths(Below(c, new_)) && PathDepths(Above(c), HeightAbove(c, h))
    ensures At(Above(c), Below(c, old_)) && Elems(Below(c, new_)) == Elems(Below(c, old_))
    ensures PathElems(Above(c)) <= PathElems(c) && Plug(Above(c), Below(c, new_)) == Plug(c, new_)
  {
    if father.left == y {
      depth := father.leftDepth;
      father.leftDepth := d;
      depth2 := father.leftDepth;
    } else {
      depth := father.rightDepth;
      father.rightDepth := d;
      depth2 := father.rightDepth;
    }
  }

  // Lines 205-227: carry the new height upwards until it no longer changes a cache.
  method UpdateDepths<T>(father: Element<T>, added: Element<T>, ghost c: Path<T>, ghost s: Shape<T>, ghost h: int)
    requires Holder(c) == father && Root(s) == added
    requires At(c, s) && Depths(s) && PathDepths(c, h)
    modifies PathElems(c)`leftDepth, PathElems(c)`rightDepth
    ensures Depths(Plug(c, s))
  {
    var fatherOfForefather: Element?<T> := father;
    var forefather: Element<T> := added;
    ghost var above, below, h' := c, s, h;
    var again := true;
    while again
      invariant Plug(above, below) == Plug(c, s) && PathElems(above) <= PathElems(c)
      invariant At(above, below) && Depths(below) && PathDepths(above, h')
      invariant Holder(above) == fatherOfForefather && Root(below) == forefather
      invariant if again then !above.Top? else above.Top? || h' == Height(below)
      decreases again, Length(above)
    {
      var depth, depth2 := SetDepth(fatherOfForefather, forefather,
        1 + Maximum(forefather.rightDepth, forefather.leftDepth), above, below, below, h');
      above, below, h' := Above(above), Below(above, below), HeightAbove(above, h');
      forefather := fatherOfForefather;
      fatherOfForefather := fatherOfForefather.up;
      again := depth != depth2 && fatherOfForefather != null;
    }
    PlugDepths(above, below);
  }

  // Lines 286-330 and 392-435: the same walk, made before the pointers of the rotation are changed.
  // It starts at the father of n and uses the depths of `added`, which is about to take n's place.
  method UpdateDepthsAbove<T>(n: Element<T>, added: Element<T>, ghost c: Path<T>, ghost f: Shape<T>, ghost f': Shape<T>)
    requires !c.Top? && Root(f) == n && At(c, f) && PathDepths(c, Height(f))
    requires Root(f') == added && added.up == n && Elems(f') == Elems(f) && Depths(f')
    modifies PathElems(c)`leftDepth, PathElems(c)`rightDepth
    ensures Depths(Plug(c, f'))
  {
    var fatherOfForefather: Element?<T> := n.up;
    var forefather: Element<T> := added;
    var firstTime := true;
    ghost var above, old_, new_ := c, f, f';
    var again := true;
    while again
      invariant Plug(above, new_) == Plug(c, f') && PathElems(above) <= PathElems(c)
      invariant At(above, old_) && Depths(new_) && PathDepths(above, Height(old_)) && Elems(new_) == Elems(old_)
      invariant Holder(above) == fatherOfForefather && forefather.up != null && forefather.up == Root(old_)
      invariant Root(new_) == if firstTime then forefather else forefather.up
      invariant if again then !above.Top? else above.Top? || Height(old_) == Height(new_)
      decreases again, Length(above)
    {
      var measured := if firstTime then forefather else forefather.up;
      firstTime := false;
      var depth, depth2 := SetDepth(fatherOfForefather, forefather.up,
        1 + Maximum(measured.leftDepth, measured.rightDepth), above, old_, new_, Height(old_));
      above, old_, new_ := Above(above), Below(above, old_), Below(above, new_);
      forefather := forefather.up;
      fatherOfForefather := fatherOfForefather.up;
      again := depth != depth2 && fatherOfForefather != null;
    }
    PlugDepths(above, new_);
  }

  // Lines 332-333, 347-348, 437-438 and 452-453: added takes n's place under father.
  method Replace<T>(father: Element<T>, n: Element<T>, added: Element<T>, ghost c: Path<T>, ghost f: Shape<T>)
    requires Holder(c) == father && At(c, f) && Root(f) == n && added in Elems(f)
    modifies father`left, father`right
    ensures PathLinks(c, added) && Links(f, father)
  {
    if father.left == n {
      father.left := added;
    }
    if father.right == n {
      father.right := added;
    }
  }

  // Lines 379-380 and 484-485: the subtree that changed sides gets a new father.
  method Adopt<T>(child: Element?<T>, father: Element<T>, ghost s: Shape<T>, ghost was: Element<T>)
    requires Root(s) == child && Proper(s) && Links(s, was)
    modifies Elems(s)`up
    ensures Links(s, father)
  {
    if child != null {
      assert s == Node(child, s.left, s.right);
      child.up := father;
    }
  }

  method TradeRight<T>(n: Element<T>, added: Element<T>, ghost al: Shape<T>, ghost ar: Shape<T>, ghost r: Shape<T>)
    requires Proper(Node(n, Node(added, al, ar), r)) && Depths(Node(n, Node(added, al, ar), r))
    modifies n`leftDepth, added`rightDepth
    ensures Depths(Node(added, al, Node(n, ar, r)))
    ensures Elems(Node(added, al, Node(n, ar, r))) == Elems(Node(n, Node(added, al, ar), r))
  {
    assert Proper(Node(added, al, ar)) && Depths(Node(added, al, ar));
    n.leftDepth := added.rightDepth;
    added.rightDepth := 1 + Maximum(n.rightDepth, n.leftDepth);
  }

  // The depths of a right rotation: lines 278-330.
  method DepthsRight<T>(n: Element<T>, ghost c: Path<T>, ghost a: Element<T>, ghost al: Shape<T>, ghost ar: Shape<T>, ghost r: Shape<T>)
    requires Standing(c, Node(n, Node(a, al, ar), r))
    modifies PathElems(c)`leftDepth, PathElems(c)`rightDepth, n`leftDepth, a`rightDepth
    ensures Depths(Node(n, ar, r)) && PathDepths(RightOf(a, al, c), Height(Node(n, ar, r)))
  {
    ghost var f, f' := Node(n, Node(a, al, ar), r), Node(a, al, Node(n, ar, r));
    AllAllocated(c, f);
    Parts(c, n, Node(a, al, ar), r);
    assert Links(Node(a, al, ar), n);
    var added := n.left;
    TradeRight(n, added, al, ar, r);
    if n.up != null {
      UpdateDepthsAbove(n, added, c, f, f');
    }
    PlugDepths(RightOf(a, al, c), Node(n, ar, r));
  }

  // The pointers below the father: lines 344-345, 359-360, 362 and 374-380.
  method SwingRight<T>(n: Element<T>, added: Element<T>, father: Element?<T>, ghost c: Path<T>, ghost al: Shape<T>, ghost ar: Shape<T>, ghost r: Shape<T>)
    requires n != added && n !in Elems(al) + Elems(ar) + Elems(r) && added !in Elems(al) + Elems(ar) + Elems(r)
    requires Elems(ar) !! Elems(al) + Elems(r) && Proper(ar)
    requires n !in PathElems(c) && added !in PathElems(c) && PathElems(c) !! Elems(ar)
    requires n.left == added && n.right == Root(r) && added.left == Root(al) && added.right == Root(ar)
    requires Links(al, added) && Links(ar, added) && Links(r, n) && PathLinks(c, added) && Holder(c) == father
    modifies n`left, n`up, added`right, added`up, Elems(ar)`up
    ensures PathLinks(RightOf(added, al, c), n) && Links(Node(n, ar, r), added)
  {
    AllAllocated(c, al);
    ElemsAllocated(r);
    added.up := father;
    n.left := added.right;
    added.right := n;
    n.up := added;
    Adopt(n.left, n, ar, added);
  }

  // The pointers of a right rotation: lines 331-380.
  method LinkRight<T>(n: Element<T>, ghost c: Path<T>, ghost a: Element<T>, ghost al: Shape<T>, ghost ar: Shape<T>, ghost r: Shape<T>)
    requires At(c, Node(n, Node(a, al, ar), r))
    modifies PathElems(c)`left, PathElems(c)`right, n`left, n`up, a`right, a`up, Elems(ar)`up
    ensures At(RightOf(a, al, c), Node(n, ar, r))
  {
    ghost var f := Node(n, Node(a, al, ar), r);
    Parts(c, n, Node(a, al, ar), r);
    assert Links(Node(a, al, ar), n) && Proper(Node(a, al, ar));
    var added := n.left;
    if n.up != null {
      Replace(n.up, n, added, c, f);
    }
    SwingRight(n, added, n.up, c, al, ar, r);
  }

  // Lines 277-381: n's left child takes n's place, and n becomes its right child.
  method RotateRight<T>(n: Element<T>, ghost c: Path<T>, ghost a: Element<T>, ghost al: Shape<T>, ghost ar: Shape<T>, ghost r: Shape<T>)
    requires Standing(c, Node(n, Node(a, al, ar), r))
    modifies PathElems(c), Elems(Node(n, Node(a, al, ar), r))
    ensures Standing(RightOf(a, al, c), Node(n, ar, r))
  {
    AllAllocated(c, Node(n, Node(a, al, ar), r));
    AllAllocated(RightOf(a, al, c), Node(n, ar, r));
    DepthsRight(n, c, a, al, ar, r);
    LinkRight(n, c, a, al, ar, r);
  }

  method TradeLeft<T>(n: Element<T>, added: Element<T>, ghost l: Shape<T>, ghost al: Shape<T>, ghost ar: Shape<T>)
    requires Proper(Node(n, l, Node(added, al, ar))) && Depths(Node(n, l, Node(added, al, ar)))
    modifies n`rightDepth, added`leftDepth
    ensures Depths(Node(added, Node(n, l, al), ar))
    ensures Elems(Node(added, Node(n, l, al), ar)) == Elems(Node(n, l, Node(added, al, ar)))
  {
    assert Proper(Node(added, al, ar)) && Depths(Node(added, al, ar));
    n.rightDepth := added.leftDepth;
    added.leftDepth := 1 + Maximum(n.leftDepth, n.rightDepth);
  }

  // The depths of a left rotation: lines 384-435.
  method DepthsLeft<T>(n: Element<T>, ghost c: Path<T>, ghost a: Element<T>, ghost l: Shape<T>, ghost al: Shape<T>, ghost ar: Shape<T>)
    requires Standing(c, Node(n, l, Node(a, al, ar)))
    modifies PathElems(c)`leftDepth, PathElems(c)`rightDepth, n`rightDepth, a`leftDepth
    ensures Depths(Node(n, l, al)) && PathDepths(LeftOf(a, ar, c), Height(Node(n, l, al)))
  {
    ghost var f, f' := Node(n, l, Node(a, al, ar)), Node(a, Node(n, l, al), ar);
    AllAllocated(c, f);
    Parts(c, n, l, Node(a, al, ar));
    assert Links(Node(a, al, ar), n);
    var added := n.right;
    TradeLeft(n, added, l, al, ar);
    if n.up != null {
      UpdateDepthsAbove(n, added, c, f, f');
    }
    PlugDepths(LeftOf(a, ar, c), Node(n, l, al));
  }

  // The pointers below the father: lines 449-450, 464-465, 467 and 479-485.
  method SwingLeft<T>(n: Element<T>, added: Element<T>, father: Element?<T>, ghost c: Path<T>, ghost l: Shape<T>, ghost al: Shape<T>, ghost ar: Shape<T>)
    requires n != added && n !in Elems(al) + Elems(ar) + Elems(l) && added !in Elems(al) + Elems(ar) + Elems(l)
    requires Elems(al) !! Elems(ar) + Elems(l) && Proper(al)
    requires n !in PathElems(c) && added !in PathElems(c) && PathElems(c) !! Elems(al)
    requires n.right == added && n.left == Root(l) && added.left == Root(al) && added.right == Root(ar)
    requires Links(al, added) && Links(ar, added) && Links(l, n) && PathLinks(c, added) && Holder(c) == father
    modifies n`right, n`up, added`left, added`up, Elems(al)`up
    ensures PathLinks(LeftOf(added, ar, c), n) && Links(Node(n, l, al), added)
  {
    AllAllocated(c, ar);
    ElemsAllocated(l);
    added.up := father;
    n.right := added.left;
    added.left := n;
    n.up := added;
    Adopt(n.right, n, al, added);
  }

  // The pointers of a left rotation: lines 436-485.
  method LinkLeft<T>(n: Element<T>, ghost c: Path<T>, ghost a: Element<T>, ghost l: Shape<T>, ghost al: Shape<T>, ghost ar: Shape<T>)
    requires At(c, Node(n, l, Node(a, al, ar)))
    modifies PathElems(c)`left, PathElems(c)`right, n`right, n`up, a`left, a`up, Elems(al)`up
    ensures At(LeftOf(a, ar, c), Node(n, l, al))
  {
    ghost var f := Node(n, l, Node(a, al, ar));
    Parts(c, n, l, Node(a, al, ar));
    assert Links(Node(a, al, ar), n) && Proper(Node(a, al, ar));
    var added := n.right;
    if n.up != null {
      Replace(n.up, n, added, c, f);
    }
    SwingLeft(n, added, n.up, c, l, al, ar);
  }

  // Lines 384-486: the mirror image of RotateRight.
  method RotateLeft<T>(n: Element<T>, ghost c: Path<T>, ghost a: Element<T>, ghost l: Shape<T>, ghost al: Shape<T>, ghost ar: Shape<T>)
    requires Standing(c, Node(n, l, Node(a, al, ar)))
    modifies PathElems(c), Elems(Node(n, l, Node(a, al, ar)))
    ensures Standing(LeftOf(a, ar, c), Node(n, l, al))
  {
    AllAllocated(c, Node(n, l, Node(a, al, ar)));
    AllAllocated(LeftOf(a, ar, c), Node(n, l, al));
    DepthsLeft(n, c, a, l, al, ar);
    LinkLeft(n, c, a, l, al, ar);
  }

  lemma RotatedInOrder<T>(n: Element<T>, a: Element<T>, x: Shape<T>, y: Shape<T>, z: Shape<T>)
    ensures InOrder(Node(a, x, Node(n, y, z))) == InOrder(Node(n, Node(a, x, y), z))
    ensures Elems(Node(a, x, Node(n, y, z))) == Elems(Node(n, Node(a, x, y), z))
  {
    var i, j, k := InOrder(x), InOrder(y), InOrder(z);
    assert InOrder(Node(n, y, z)) == j + [n] + k && InOrder(Node(a, x, y)) == i + [a] + j;
    assert i + [a] + (j + [n] + k) == (i + [a] + j) + [n] + k;
  }

  // A rotation changes neither the elements nor their order.
  lemma RotationKeepsOrder<T>(c: Path<T>, n: Element<T>, a: Element<T>, x: Shape<T>, y: Shape<T>, z: Shape<T>)
    ensures InOrder(Plug(c, Node(a, x, Node(n, y, z)))) == InOrder(Plug(c, Node(n, Node(a, x, y), z)))
    ensures Elems(Plug(c, Node(a, x, Node(n, y, z)))) == Elems(Plug(c, Node(n, Node(a, x, y), z)))
  {
    var s, t := Node(a, x, Node(n, y, z)), Node(n, Node(a, x, y), z);
    RotatedInOrder(n, a, x, y, z);
    PlugInOrder(c, s);
    PlugInOrder(c, t);
    PlugElems(c, s);
    PlugElems(c, t);
  }

  function Abs(x: int): int {
    if x < 0 then -x else x
  }

  // Lines 263-273.  That none of these dereferences meets a null pointer follows from the depths.
  method GiveUp<T>(father: Element<T>, corrections: int, ghost c: Path<T>, ghost f: Shape<T>) returns (r: int)
    requires Standing(c, f) && Root(f) == father
    requires Abs(father.leftDepth - father.rightDepth) >= 2
    requires corrections <= MAX_CORRECTIONS
    ensures r == if Crooked(f) then MAX_CORRECTIONS else corrections
  {
    r := corrections;
    assert f.left.Node? ==> Links(f.left, father) && Depths(f.left);
    assert f.right.Node? ==> Links(f.right, father) && Depths(f.right);
    assert f.left.Node? && f.left.right.Node? ==> Links(f.left.right, f.left.e);
    assert f.right.Node? && f.right.left.Node? ==> Links(f.right.left, f.right.e);
    if father.left == null && father.right.right == null
       && father.right.left.left == null && father.right.left.right == null {
      r := MAX_CORRECTIONS;
    }
    if father.right == null && father.left.left == null
       && father.left.right.right == null && father.left.right.left == null {
      r := MAX_CORRECTIONS;
    }
  }

  // Lines 276-486.
  method Rotate<T>(father: Element<T>, ghost c: Path<T>, ghost f: Shape<T>) returns (ghost c': Path<T>, ghost f': Shape<T>)
    requires Standing(c, f) && Root(f) == father
    requires Abs(father.leftDepth - father.rightDepth) >= 2
    modifies PathElems(c), Elems(f)
    ensures Standing(c', f') && Root(f') == father && !Level(f) && (c', f') == Turned(c, f)
    ensures Elems(Plug(c', f')) == Elems(Plug(c, f)) && InOrder(Plug(c', f')) == InOrder(Plug(c, f))
  {
    if father.leftDepth > father.rightDepth {
      ghost var a, al, ar, r := f.left.e, f.left.left, f.left.right, f.right;
      assert f == Node(father, Node(a, al, ar), r);
      RotationKeepsOrder(c, father, a, al, ar, r);
      RotateRight(father, c, a, al, ar, r);
      c', f' := RightOf(a, al, c), Node(father, ar, r);
    } else {
      ghost var l, a, al, ar := f.left, f.right.e, f.right.left, f.right.right;
      assert f == Node(father, l, Node(a, al, ar));
      RotationKeepsOrder(c, a, father, l, al, ar);
      RotateLeft(father, c, a, l, al, ar);
      c', f' := LeftOf(a, ar, c), Node(father, l, al);
    }
  }

  // Lines 258-486: one correction.
  method Correct<T>(father: Element<T>, corrections: nat, ghost c: Path<T>, ghost f: Shape<T>)
    returns (r: nat, ghost c': Path<T>, ghost f': Shape<T>)
    requires Standing(c, f) && Root(f) == father && corrections < MAX_CORRECTIONS
    requires Abs(father.leftDepth - father.rightDepth) >= 2
    modifies PathElems(c), Elems(f)
    ensures Standing(c', f') && Root(f') == father && corrections < r <= MAX_CORRECTIONS
    ensures Elems(Plug(c', f')) == Elems(Plug(c, f)) && InOrder(Plug(c', f')) == InOrder(Plug(c, f))
    ensures Rebalanced(c', f', r) == Rebalanced(c, f, corrections)
  {
    AllAllocated(c, f);
    assert !Level(f);
    r := GiveUp(father, corrections + 1, c, f);
    c', f' := Rotate(father, c, f);
  }

  lemma Climb<T>(c: Path<T>, f: Shape<T>)
    requires !c.Top? && Standing(c, f)
    ensures Standing(Above(c), Below(c, f)) && Plug(Above(c), Below(c, f)) == Plug(c, f)
  {
  }

  // Lines 235-488: climb, rotating where the depths differ by two or more.  It may give up, but it
  // always ends: either the corrections run out or the top is reached.
  method Balance<T>(start: Element<T>, ghost c0: Path<T>, ghost f0: Shape<T>)
    returns (father: Element<T>, ghost c: Path<T>, ghost f: Shape<T>)
    requires Standing(c0, f0) && Root(f0) == start
    modifies Elems(Plug(c0, f0))
    ensures Standing(c, f) && Root(f) == father
    ensures var r := Rebalanced(c0, f0, 0); c == r.0 && f == r.1
    ensures Elems(Plug(c, f)) == Elems(Plug(c0, f0)) && InOrder(Plug(c, f)) == InOrder(Plug(c0, f0))
  {
    father, c, f := start, c0, f0;
    var topFound, corrections := true, 0;
    while topFound && corrections < MAX_CORRECTIONS
      invariant Standing(c, f) && Root(f) == father && corrections <= MAX_CORRECTIONS
      invariant Elems(Plug(c, f)) == Elems(Plug(c0, f0)) && InOrder(Plug(c, f)) == InOrder(Plug(c0, f0))
      invariant topFound ==> Rebalanced(c, f, corrections) == Rebalanced(c0, f0, 0)
      invariant !topFound ==> (c, f, corrections) == Rebalanced(c0, f0, 0)
      decreases MAX_CORRECTIONS - corrections, Length(c), topFound
    {
      if Abs(father.leftDepth - father.rightDepth) < 2 {
        if father.up != null {
          Climb(c, f);
          c, f := Above(c), Below(c, f);
          father := father.up;
        } else {
          topFound := false;
        }
      } else {
        AllAllocated(c, f);
        PlugElems(c, f);
        corrections, c, f := Correct(father, corrections, c, f);
      }
    }
  }

  // Lines 489-492.
  method FindTop<T>(start: Element<T>, ghost c0: Path<T>, ghost f0: Shape<T>) returns (top: Element<T>)
    requires Standing(c0, f0) && Root(f0) == start
    ensures top == Root(Plug(c0, f0)) && At(Top, Plug(c0, f0)) && Depths(Plug(c0, f0))
  {
    top := start;
    ghost var c, s := c0, f0;
    while top.up != null
      invariant Standing(c, s) && Root(s) == top
      invariant Plug(c, s) == Plug(c0, f0)
      decreases Length(c)
    {
      Climb(c, s);
      c, s := Above(c), Below(c, s);
      top := top.up;
    }
  }

  lemma PlugLeaf<T>(c: Path<T>, e: Element<T>)
    ensures Elems(Plug(c, Leaf(e))) == Elems(Plug(c, Empty)) + {e}
    ensures InOrder(Plug(c, Empty)) == Before(c) + After(c)
    ensures InOrder(Plug(c, Leaf(e))) == Before(c) + [e] + After(c)
  {
    PlugElems(c, Empty);
    PlugElems(c, Leaf(e));
    PlugInOrder(c, Empty);
    PlugInOrder(c, Leaf(e));
    assert InOrder(Leaf(e)) == [e];
    assert Before(c) + [] + After(c) == Before(c) + After(c);
  }

  // Lines 202-492: what follows the attachment.
  method Settle<T>(father: Element<T>, added: Element<T>, ghost c: Path<T>) returns (top: Element<T>, ghost s: Shape<T>)
    requires At(c, Leaf(added)) && Depths(Leaf(added)) && PathDepths(c, 0) && Holder(c) == father
    modifies Elems(Plug(c, Leaf(added)))
    ensures At(Top, s) && Depths(s) && Root(s) == top && s == Grown(c, added)
    ensures Elems(s) == Elems(Plug(c, Leaf(added))) && InOrder(s) == InOrder(Plug(c, Leaf(added)))
  {
    AllAllocated(c, Leaf(added));
    PlugElems(c, Leaf(added));
    UpdateDepths(father, added, c, Leaf(added), 0);
    PlugDepths(c, Leaf(added));
    Climb(c, Leaf(added));
    var last, c', f := Balance(father, Above(c), Below(c, Leaf(added)));
    top := FindTop(last, c', f);
    s := Plug(c', f);
  }

  lemma InsertedAt<T(!new)>(cmp: Comparer<T>, c: Path<T>, added: Element<T>, item: T)
    requires Separates(cmp, c, item) && added.item == item
    ensures Items(Before(c) + [added] + After(c)) == Insert(cmp, Items(Before(c) + After(c)), item)
  {
    var b, a := Items(Before(c)), Items(After(c));
    InsertAt(cmp, b, a, item);
    assert Items(Before(c) + After(c)) == b + a;
    assert Items(Before(c) + [added] + After(c)) == b + [item] + a;
  }

  ghost function First<T>(s: seq<Element<T>>): Element?<T> {
    if s == [] then null else s[0]
  }

  // What comes right after e in s, or null.
  ghost function Following<T>(s: seq<Element<T>>, e: Element<T>): Element?<T> {
    if s == [] then null
    else if s[0] == e then First(s[1..])
    else Following(s[1..], e)
  }

  lemma {:induction false} FollowingAt<T>(a: seq<Element<T>>, e: Element<T>, b: seq<Element<T>>)
    requires Distinct(a + [e] + b)
    ensures Following(a + [e] + b, e) == First(b)
  {
    var s := a + [e] + b;
    assert s[|a|] == e;
    if a == [] {
      assert s[1..] == b;
    } else {
      assert s[1..] == a[1..] + [e] + b;
      FollowingAt(a[1..], e, b);
    }
  }

  ghost predicate Distinct<T>(s: seq<Element<T>>) {
    forall i, j :: 0 <= i < j < |s| ==> s[i] != s[j]
  }

  lemma DistinctAround<T>(a: seq<Element<T>>, e: Element<T>, b: seq<Element<T>>)
    requires Distinct(a) && Distinct(b)
    requires forall i :: 0 <= i < |a| ==> a[i] != e
    requires forall j :: 0 <= j < |b| ==> b[j] != e
    requires forall i, j :: 0 <= i < |a| && 0 <= j < |b| ==> a[i] != b[j]
    ensures Distinct(a + [e] + b)
  {
  }

  lemma {:induction false} Locate<T>(s: Shape<T>, c: Path<T>, e: Element<T>) returns (c': Path<T>, s': Shape<T>)
    requires At(c, s) && e in Elems(s)
    ensures At(c', s') && s'.Node? && s'.e == e && Plug(c', s') == Plug(c, s)
  {
    if s.e == e {
      c', s' := c, s;
    } else if e in Elems(s.left) {
      c', s' := Locate(s.left, LeftOf(s.e, s.right, c), e);
    } else {
      c', s' := Locate(s.right, RightOf(s.e, s.left, c), e);
    }
  }

  lemma {:induction false} ElemsAreInOrder<T>(s: Shape<T>)
    ensures forall i :: 0 <= i < |InOrder(s)| ==> InOrder(s)[i] in Elems(s)
  {
    if s.Node? {
      ElemsAreInOrder(s.left);
      ElemsAreInOrder(s.right);
    }
  }

  lemma {:induction false} NoDuplicates<T>(s: Shape<T>)
    requires Proper(s)
    ensures Distinct(InOrder(s))
  {
    if s.Node? {
      NoDuplicates(s.left);
      NoDuplicates(s.right);
      ElemsAreInOrder(s.left);
      ElemsAreInOrder(s.right);
      DistinctAround(InOrder(s.left), s.e, InOrder(s.right));
    }
  }

  // An element occurs once: after everything that is before its path or in its left subtree.
  lemma Position<T>(c: Path<T>, s: Shape<T>)
    requires At(c, s) && s.Node?
    ensures InOrder(Plug(c, s)) == (Before(c) + InOrder(s.left)) + [s.e] + (InOrder(s.right) + After(c))
    ensures Following(InOrder(Plug(c, s)), s.e) == First(InOrder(s.right) + After(c))
  {
    PlugAt(c, s);
    NoDuplicates(Plug(c, s));
    PlugInOrder(c, s);
    Regroup(Before(c), InOrder(s.left), [s.e], InOrder(s.right), After(c));
    FollowingAt(Before(c) + InOrder(s.left), s.e, InOrder(s.right) + After(c));
  }

  // Lines 523-530: go up while coming from the right.
  method Upwards<T>(element: Element<T>, ghost c0: Path<T>, ghost s0: Shape<T>) returns (next: Element?<T>)
    requires At(c0, s0) && Root(s0) == element
    ensures next == First(After(c0))
  {
    var e: Element<T> := element;
    next := e.up;
    ghost var c, s := c0, s0;
    while next != null && next.right == e
      invariant At(c, s) && Root(s) == e && Holder(c) == next && After(c) == After(c0)
      decreases Length(c)
    {
      assert e in Elems(s) && (Root(Hanging(c)) == null || Root(Hanging(c)) in Elems(Hanging(c)));
      c, s := Above(c), Below(c, s);
      e := next;
      next := e.up;
    }
  }

  class HTBTree<T(!new)> {
    const compare: Comparer<T>
    var top: Element?<T>
    ghost var shape: Shape<T>

    ghost predicate Valid()
      reads this, Elems(shape)
    {
      && top == Root(shape)
      && At(Top, shape)
      && Depths(shape)
      && (TotalPreorder(compare) ==> Sorted(compare, Contents()))
    }

    // The objects from left to right.
    ghost function Contents(): seq<T>
      reads this
    {
      Items(InOrder(shape))
    }

    constructor (comp: Comparer<T>)
      ensures Valid() && compare == comp && Contents() == [] && Elems(shape) == {}
    {
      compare, top, shape := comp, null, Empty;
    }

    // Lines 158-201: walk down to the father and hang the new element under it.
    method Attach(item: T) returns (father: Element<T>, added: Element<T>, ghost c: Path<T>)
      requires Valid() && top != null
      modifies Elems(shape)`left, Elems(shape)`right
      ensures fresh(added) && added.item == item
      ensures Holder(c) == father && Plug(c, Empty) == shape
      ensures At(c, Leaf(added)) && Depths(Leaf(added)) && PathDepths(c, 0)
      ensures TotalPreorder(compare) ==> Separates(compare, c, item)
    {
      var fatherFound := true;
      father := top;
      var new_: Element?<T> := null;
      ghost var s := shape;
      c := Top;
      while fatherFound
        invariant Plug(c, s) == shape
        invariant fatherFound ==> Standing(c, s) && s.Node? && s.e == father
        invariant !fatherFound ==>
            && new_ != null && fresh(new_) && new_.item == item && s == Empty && Holder(c) == father
            && At(c, Leaf(new_)) && Depths(Leaf(new_)) && PathDepths(c, 0)
        invariant TotalPreorder(compare) ==> Separates(compare, c, item)
        decreases fatherFound, Height(s)
      {
        PlugElems(c, s);
        if compare(item, father.item) < 0 {
          TurnLeft(compare, c, s, item);
          c, s := LeftOf(father, s.right, c), s.left;
          if father.left != null {
            father := father.left;
          } else {
            fatherFound := false;
            new_ := HangLeft(father, item, c);
          }
        }
        if compare(item, father.item) >= 0 {
          TurnRight(compare, c, s, item);
          c, s := RightOf(father, s.left, c), s.right;
          if father.right != null {
            father := father.right;
          } else {
            fatherFound := false;
            new_ := HangRight(father, item, c);
          }
        }
      }
      added := new_;
    }

    // HTBTree_add.  Whatever the comparer, the elements stay in their order around the new one.
    method Add(item: T) returns (ghost e: Element<T>, ghost k: nat, ghost c: Path<T>)
      requires Valid()
      modifies this`top, this`shape, Elems(shape)
      ensures Valid() && fresh(e) && e.item == item
      ensures Plug(c, Empty) == old(shape) && shape == Grown(c, e) && k == |Before(c)|
      ensures old(Even(shape)) ==> (Even(shape) <==> !LeansInward(c))
      ensures k <= |old(InOrder(shape))| && InOrder(shape) == old(InOrder(shape))[..k] + [e] + old(InOrder(shape))[k..]
      ensures Elems(shape) == old(Elems(shape)) + {e}
      ensures TotalPreorder(compare) ==> Contents() == Insert(compare, old(Contents()), item)
    {
      ghost var old_ := InOrder(shape);
      c := Top;
      if top == null {
        top := new Element(item, null);
        e, k, shape := top, 0, Leaf(top);
        assert Links(shape, null) && Contents() == [item] && old_ == [];
      } else {
        var added;
        added, c := Grow(item);
        e, k := added, |Before(c)|;
        if old(Even(shape)) {
          GrowsEven(c, e);
        }
        if TotalPreorder(compare) {
          InsertedAt(compare, c, added, item);
          InsertKeepsSorted(compare, Items(old_), item);
        }
      }
    }

    // The case of a tree that has elements: lines 156-494.
    method Grow(item: T) returns (added: Element<T>, ghost c: Path<T>)
      requires Valid() && top != null
      modifies this`top, this`shape, Elems(shape)
      ensures fresh(added) && added.item == item
      ensures top == Root(shape) && At(Top, shape) && Depths(shape)
      ensures Elems(shape) == old(Elems(shape)) + {added}
      ensures Plug(c, Empty) == old(shape) && shape == Grown(c, added)
      ensures old(InOrder(shape)) == Before(c) + After(c) && InOrder(shape) == Before(c) + [added] + After(c)
      ensures TotalPreorder(compare) ==> Separates(compare, c, item)
    {
      var father;
      father, added, c := Attach(item);
      PlugLeaf(c, added);
      top, shape := Settle(father, added, c);
    }

    // Lines 507-510 and 517-519.
    method Leftmost(start: Element<T>, ghost c0: Path<T>, ghost s0: Shape<T>) returns (e: Element<T>)
      requires At(c0, s0) && Root(s0) == start
      ensures |Before(c0)| < |InOrder(Plug(c0, s0))| && e == InOrder(Plug(c0, s0))[|Before(c0)|]
    {
      e := start;
      ghost var c, s := c0, s0;
      while e.left != null
        invariant At(c, s) && Root(s) == e && Plug(c, s) == Plug(c0, s0) && Before(c) == Before(c0)
        decreases Height(s)
      {
        c, s := LeftOf(e, s.right, c), s.left;
        e := e.left;
      }
      PlugInOrder(c, s);
    }

    // HTBTree_next: the element after the given one, or the first.
    method Next(element: Element?<T>) returns (next: Element?<T>)
      requires Valid()
      requires element != null ==> element in Elems(shape)
      ensures next == if element == null then First(InOrder(shape)) else Following(InOrder(shape), element)
    {
      if element == null {
        next := top;
        if next != null {
          next := Leftmost(next, Top, shape);
        }
      } else {
        ghost var c, s := Locate(shape, Top, element);
        Position(c, s);
        if element.right != null {
          next := Leftmost(element.right, RightOf(s.e, s.left, c), s.right);
        } else {
          next := Upwards(element, c, s);
        }
      }
    }

    // The objects in the order in which repeated calls of Next meet them (lines 705-710).
    method Traverse() returns (objects: seq<T>)
      requires Valid()
      ensures objects == Contents()
    {
      objects := [];
      ElemsAllocated(shape);
      ElemsAreInOrder(shape);
      NoDuplicates(shape);
      var e := Next(null);
      ghost var order, k := InOrder(shape), 0;
      while e != null
        invariant k <= |order| && e == First(order[k..])
        invariant objects == Items(order[..k])
        decreases |order| - k
      {
        assert order == order[..k] + [e] + order[k + 1..];
        FollowingAt(order[..k], e, order[k + 1..]);
        objects := objects + [e.item];
        e := Next(e);
        k := k + 1;
      }
      assert order[..k] == order;
    }
  }

  // Build a tree and walk it (lines 570-711).  It holds all the objects in order, and those that compare
  // equal in the order in which they came.
  method AddAndTraverse<T(!new)>(comp: Comparer<T>, xs: seq<T>) returns (objects: seq<T>)
    requires TotalPreorder(comp)
    ensures objects == InsertAll(comp, xs)
    ensures Sorted(comp, objects) && multiset(objects) == multiset(xs)
    ensures forall k :: Ties(comp, objects, k) == Ties(comp, xs, k)
  {
    var tree := new HTBTree(comp);
    assert xs[..0] == [];
    for i := 0 to |xs|
      invariant fresh(tree) && tree.Valid() && fresh(Elems(tree.shape)) && tree.compare == comp
      invariant tree.Contents() == InsertAll(comp, xs[..i])
    {
      assert xs[..i + 1][..i] == xs[..i];
      ElemsAllocated(tree.shape);
      ghost var e, k, c := tree.Add(xs[i]);
    }
    assert xs[..|xs|] == xs;
    objects := tree.Traverse();
    InsertAllSorts(comp, xs);
  }
}
