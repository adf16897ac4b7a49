// The elements of the tree and the mathematical view of how they hang together.
module TreeShape {
  // struct _HTBTree_element.  The object is set when the element is made and never changed.
  class Element<T> {
    const item: T
    var up: Element?<T>
    var left: Element?<T>
    var leftDepth: int
    var right: Element?<T>
    var rightDepth: int

    constructor (item: T, up: Element?<T>)
      ensures this.item == item && this.up == up
      ensures left == null && right == null && leftDepth == 0 && rightDepth == 0
    {
      this.item, this.up := item, up;
      left, right, leftDepth, rightDepth := null, null, 0, 0;
    }
  }

  // A subtree as a value.
  datatype Shape<T> =
    | Empty
    | Node(e: Element<T>, left: Shape<T>, right: Shape<T>)

  // What surrounds a subtree: the way up to the top, with the other subtree hanging at each step.
  datatype Path<T> =
    | Top
    | LeftOf(p: Element<T>, right: Shape<T>, above: Path<T>)
    | RightOf(p: Element<T>, left: Shape<T>, above: Path<T>)

  ghost function Root<T>(s: Shape<T>): Element?<T> {
    if s.Empty? then null else s.e
  }

  ghost function Holder<T>(c: Path<T>): Element?<T> {
    if c.Top? then null else c.p
  }

  ghost function Elems<T>(s: Shape<T>): set<Element<T>> {
    if s.Empty? then {} else {s.e} + Elems(s.left) + Elems(s.right)
  }

  ghost function PathElems<T>(c: Path<T>): set<Element<T>> {
    match c
    case Top => {}
    case LeftOf(p, r, above) => {p} + Elems(r) + PathElems(above)
    case RightOf(p, l, above) => {p} + Elems(l) + PathElems(above)
  }

  ghost function InOrder<T>(s: Shape<T>): seq<Element<T>> {
    if s.Empty? then [] else InOrder(s.left) + [s.e] + InOrder(s.right)
  }

  ghost function Before<T>(c: Path<T>): seq<Element<T>> {
    match c
    case Top => []
    case LeftOf(_, _, above) => Before(above)
    case RightOf(p, l, above) => Before(above) + InOrder(l) + [p]
  }

  ghost function After<T>(c: Path<T>): seq<Element<T>> {
    match c
    case Top => []
    case LeftOf(p, r, above) => [p] + InOrder(r) + After(above)
    case RightOf(_, _, above) => After(above)
  }

  function Maximum(a: int, b: int): int {
    if a > b then a else b
  }

  ghost function Height<T>(s: Shape<T>): nat {
    if s.Empty? then 0 else 1 + Maximum(Height(s.left), Height(s.right))
  }

  ghost function Length<T>(c: Path<T>): nat {
    if c.Top? then 0 else 1 + Length(c.above)
  }

  ghost function Plug<T>(c: Path<T>, s: Shape<T>): Shape<T> {
    match c
    case Top => s
    case LeftOf(p, r, above) => Plug(above, Node(p, s, r))
    case RightOf(p, l, above) => Plug(above, Node(p, l, s))
  }

  // One step up: the rest of the path, and what then hangs at its end.
  ghost function Above<T>(c: Path<T>): Path<T>
    requires !c.Top?
  {
    c.above
  }

  ghost function Below<T>(c: Path<T>, s: Shape<T>): Shape<T>
    requires !c.Top?
  {
    if c.LeftOf? then Node(c.p, s, c.right) else Node(c.p, c.left, s)
  }

  ghost function Hanging<T>(c: Path<T>): Shape<T>
    requires !c.Top?
  {
    if c.LeftOf? then c.right else c.left
  }

  // The height of Below(c, s) when s is h high.
  ghost function HeightAbove<T>(c: Path<T>, h: int): int
    requires !c.Top?
  {
    1 + Maximum(h, Height(Hanging(c)))
  }

  // No element hangs in two places.
  ghost predicate Proper<T>(s: Shape<T>) {
    s.Node? ==>
      && s.e !in Elems(s.left) && s.e !in Elems(s.right) && Elems(s.left) !! Elems(s.right)
      && Proper(s.left) && Proper(s.right)
  }

  ghost predicate ProperPath<T>(c: Path<T>) {
    match c
    case Top => true
    case LeftOf(p, s, above) =>
      && p !in Elems(s) && p !in PathElems(above) && Elems(s) !! PathElems(above)
      && Proper(s) && ProperPath(above)
    case RightOf(p, s, above) =>
      && p !in Elems(s) && p !in PathElems(above) && Elems(s) !! PathElems(above)
      && Proper(s) && ProperPath(above)
  }

  // The pointers of the elements are those of the shape, and `up` inverts `left` and `right`.
  ghost predicate Links<T>(s: Shape<T>, up: Element?<T>)
    reads Elems(s)`up, Elems(s)`left, Elems(s)`right
  {
    s.Node? ==>
      && s.e.up == up && s.e.left == Root(s.left) && s.e.right == Root(s.right)
      && Links(s.left, s.e) && Links(s.right, s.e)
  }

  ghost predicate PathLinks<T>(c: Path<T>, x: Element?<T>)
    reads PathElems(c)`up, PathElems(c)`left, PathElems(c)`right
  {
    match c
    case Top => true
    case LeftOf(p, r, above) =>
      && p.left == x && p.right == Root(r) && p.up == Holder(above)
      && Links(r, p) && PathLinks(above, p)
    case RightOf(p, l, above) =>
      && p.right == x && p.left == Root(l) && p.up == Holder(above)
      && Links(l, p) && PathLinks(above, p)
  }

  // The cached depths are the true heights of the subtrees.
  ghost predicate Depths<T>(s: Shape<T>)
    reads Elems(s)`leftDepth, Elems(s)`rightDepth
  {
    s.Node? ==>
      && s.e.leftDepth == Height(s.left) && s.e.rightDepth == Height(s.right)
      && Depths(s.left) && Depths(s.right)
  }

  // The same along a path, taking the subtree at its end to be h high.
  ghost predicate PathDepths<T>(c: Path<T>, h: int)
    reads PathElems(c)`leftDepth, PathElems(c)`rightDepth
  {
    match c
    case Top => true
    case LeftOf(p, r, above) =>
      && p.leftDepth == h && p.rightDepth == Height(r)
      && Depths(r) && PathDepths(above, 1 + Maximum(h, Height(r)))
    case RightOf(p, l, above) =>
      && p.rightDepth == h && p.leftDepth == Height(l)
      && Depths(l) && PathDepths(above, 1 + Maximum(h, Height(l)))
  }

  // s hangs at the end of c.
  ghost predicate At<T>(c: Path<T>, s: Shape<T>)
    reads PathElems(c)`up, PathElems(c)`left, PathElems(c)`right
    reads Elems(s)`up, Elems(s)`left, Elems(s)`right
  {
    && ProperPath(c) && Proper(s) && PathElems(c) !! Elems(s)
    && PathLinks(c, Root(s)) && Links(s, Holder(c))
  }

  lemma {:induction false} ElemsAllocated<T>(s: Shape<T>)
    ensures forall e :: e in Elems(s) ==> allocated(e)
  {
    if s.Node? {
      ElemsAllocated(s.left);
      ElemsAllocated(s.right);
    }
  }

  lemma {:induction false} PathElemsAllocated<T>(c: Path<T>)
    ensures forall e :: e in PathElems(c) ==> allocated(e)
  {
    match c
    case Top =>
    case LeftOf(p, s, above) => ElemsAllocated(s); PathElemsAllocated(above);
    case RightOf(p, s, above) => ElemsAllocated(s); PathElemsAllocated(above);
  }

  // Calls leave what is not listed alone only where it is known to exist already.
  lemma AllAllocated<T>(c: Path<T>, s: Shape<T>)
    ensures forall e :: e in PathElems(c) ==> allocated(e)
    ensures forall e :: e in Elems(s) ==> allocated(e)
  {
    PathElemsAllocated(c);
    ElemsAllocated(s);
  }

  // At, one level down.
  lemma Parts<T>(c: Path<T>, n: Element<T>, l: Shape<T>, r: Shape<T>)
    requires At(c, Node(n, l, r))
    ensures At(LeftOf(n, r, c), l) && At(RightOf(n, l, c), r)
    ensures n.up == Holder(c) && n.left == Root(l) && n.right == Root(r)
    ensures Proper(Node(n, l, r)) && Links(Node(n, l, r), n.up)
  {
  }

  lemma {:induction false} PlugElems<T>(c: Path<T>, s: Shape<T>)
    ensures Elems(Plug(c, s)) == PathElems(c) + Elems(s)
    ensures Root(Plug(c, s)) == null <==> c.Top? && s.Empty?
  {
    if c.LeftOf? {
      PlugElems(c.above, Node(c.p, s, c.right));
    } else if c.RightOf? {
      PlugElems(c.above, Node(c.p, c.left, s));
    }
  }

  lemma Regroup<X>(a: seq<X>, b: seq<X>, c: seq<X>, d: seq<X>, e: seq<X>)
    ensures a + (b + c + d) + e == a + b + (c + d + e)
    ensures a + (b + c + d) + e == (a + b + c) + d + e
    ensures a + (b + c + d) + e == (a + b) + c + (d + e)
  {
  }

  lemma {:induction false} PlugInOrder<T>(c: Path<T>, s: Shape<T>)
    ensures InOrder(Plug(c, s)) == Before(c) + InOrder(s) + After(c)
  {
    if c.LeftOf? {
      PlugInOrder(c.above, Node(c.p, s, c.right));
      Regroup(Before(c), InOrder(s), [c.p], InOrder(c.right), After(c.above));
    } else if c.RightOf? {
      PlugInOrder(c.above, Node(c.p, c.left, s));
      Regroup(Before(c.above), InOrder(c.left), [c.p], InOrder(s), After(c));
    }
  }

  lemma {:induction false} PlugAt<T>(c: Path<T>, s: Shape<T>)
    ensures At(c, s) <==> At(Top, Plug(c, s))
  {
    PlugElems(c, s);
    if c.LeftOf? {
      PlugAt(c.above, Node(c.p, s, c.right));
    } else if c.RightOf? {
      PlugAt(c.above, Node(c.p, c.left, s));
    }
  }

  lemma {:induction false} PlugDepths<T>(c: Path<T>, s: Shape<T>)
    ensures Depths(s) && PathDepths(c, Height(s)) <==> Depths(Plug(c, s))
  {
    if c.LeftOf? {
      PlugDepths(c.above, Node(c.p, s, c.right));
    } else if c.RightOf? {
      PlugDepths(c.above, Node(c.p, c.left, s));
    }
  }
}
