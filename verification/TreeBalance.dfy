// The balancing loop of HTBTree.c on shapes: what the tree looks like after an insertion, and what the
// loop achieves unless it gives up.
module TreeBalance {
  import opened TreeShape

  const MAX_CORRECTIONS := 7

  // The heights of an element's subtrees differ by less than two.
  ghost predicate Level<T>(f: Shape<T>)
    requires f.Node?
  {
    -2 < Height(f.left) - Height(f.right) < 2
  }

  // The two shapes a single rotation only turns into each other: a bent line of three elements.
  ghost predicate Crooked<T>(f: Shape<T>)
    requires f.Node?
  {
    || (f.left.Empty? && f.right.Node? && f.right.right.Empty? && f.right.left.Node?
        && f.right.left.left.Empty? && f.right.left.right.Empty?)
    || (f.right.Empty? && f.left.Node? && f.left.left.Empty? && f.left.right.Node?
        && f.left.right.left.Empty? && f.left.right.right.Empty?)
  }

  // One rotation toward the lower side.  The element that was too high goes down and stays current.
  ghost function Turned<T>(c: Path<T>, f: Shape<T>): (Path<T>, Shape<T>)
    requires f.Node? && !Level(f)
  {
    if Height(f.left) > Height(f.right) then
      (RightOf(f.left.e, f.left.left, c), Node(f.e, f.left.right, f.right))
    else
      (LeftOf(f.right.e, f.right.right, c), Node(f.e, f.left, f.right.left))
  }

  // Climb, rotating where the heights differ by two or more, until the top or the end of the corrections.
  ghost function Rebalanced<T>(c: Path<T>, f: Shape<T>, corrections: nat): (r: (Path<T>, Shape<T>, nat))
    requires f.Node? && corrections <= MAX_CORRECTIONS
    ensures r.1.Node?
    decreases MAX_CORRECTIONS - corrections, Length(c)
  {
    if corrections == MAX_CORRECTIONS then (c, f, corrections)
    else if !Level(f) then
      var t := Turned(c, f);
      Rebalanced(t.0, t.1, if Crooked(f) then MAX_CORRECTIONS else corrections + 1)
    else if c.Top? then (c, f, corrections)
    else Rebalanced(Above(c), Below(c, f), corrections)
  }

  // The tree after a new element has been hung at the end of the path.
  ghost function Grown<T>(c: Path<T>, added: Element<T>): Shape<T> {
    if c.Top? then Node(added, Empty, Empty)
    else
      var r := Rebalanced(Above(c), Below(c, Node(added, Empty, Empty)), 0);
      Plug(r.0, r.1)
  }

  ghost predicate GivesUp<T>(c: Path<T>, added: Element<T>) {
    !c.Top? && Rebalanced(Above(c), Below(c, Node(added, Empty, Empty)), 0).2 == MAX_CORRECTIONS
  }

  // ---------------------------------------------------------------------------------------------

  // No element of the tree has subtrees whose heights differ by two or more.
  ghost predicate Even<T>(s: Shape<T>) {
    s.Node? ==> Level(s) && Even(s.left) && Even(s.right)
  }

  // The same for everything that hangs beside a path.
  ghost predicate EvenBeside<T>(c: Path<T>) {
    c.Top? || (Even(Hanging(c)) && EvenBeside(Above(c)))
  }

  lemma {:induction false} EvenPath<T>(c: Path<T>, s: Shape<T>)
    requires Even(Plug(c, s))
    ensures EvenBeside(c) && Even(s)
  {
    if !c.Top? {
      EvenPath(Above(c), Below(c, s));
    }
  }

  // Off the path, all is even; so it is everywhere once the top has been passed.
  lemma {:induction false} EvenAtTheTop<T>(c: Path<T>, f: Shape<T>, corrections: nat)
    requires f.Node? && corrections <= MAX_CORRECTIONS
    requires EvenBeside(c) && Even(f.left) && Even(f.right)
    ensures var r := Rebalanced(c, f, corrections); r.2 == MAX_CORRECTIONS || (r.0.Top? && Even(r.1))
    decreases MAX_CORRECTIONS - corrections, Length(c)
  {
    if corrections == MAX_CORRECTIONS {
    } else if !Level(f) {
      var t := Turned(c, f);
      EvenAtTheTop(t.0, t.1, if Crooked(f) then MAX_CORRECTIONS else corrections + 1);
    } else if !c.Top? {
      EvenAtTheTop(Above(c), Below(c, f), corrections);
    }
  }

  // What decides whether an insertion keeps an even tree even: the lowest place on the way up where the
  // heights come to differ by two or more.  There the higher subtree leans inward if its inner part is the
  // higher one.  `l` and `r` are the heights below the end of the path, once the new element hangs there.
  ghost predicate Leans<T>(c: Path<T>, l: nat, r: nat) {
    && !c.Top?
    && var h, o := 1 + Maximum(l, r), Height(Hanging(c));
    if -2 < h - o < 2 then
      if c.LeftOf? then Leans(Above(c), h, o) else Leans(Above(c), o, h)
    else
      if c.LeftOf? then l < r else r < l
  }

  ghost predicate LeansInward<T>(c: Path<T>) {
    Leans(c, 0, 0)
  }

  // Where no rotation is called for, none is made: the element hangs where the search ended.
  lemma {:induction false} NothingToTurn<T>(c: Path<T>, f: Shape<T>, corrections: nat)
    requires f.Node? && corrections < MAX_CORRECTIONS && Even(Plug(c, f))
    ensures var r := Rebalanced(c, f, corrections); Plug(r.0, r.1) == Plug(c, f) && r.2 == corrections
    decreases Length(c)
  {
    EvenPath(c, f);
    if !c.Top? {
      NothingToTurn(Above(c), Below(c, f), corrections);
    }
  }

  // A subtree may be put in the place of another one of the same height.
  lemma {:induction false} SameHeight<T>(c: Path<T>, s: Shape<T>, t: Shape<T>)
    requires Even(Plug(c, s)) && Even(t) && Height(t) == Height(s)
    ensures Even(Plug(c, t))
  {
    if !c.Top? {
      EvenPath(Above(c), Below(c, s));
      SameHeight(Above(c), Below(c, s), Below(c, t));
    }
  }

  // Nothing leans where nothing comes to differ.
  lemma {:induction false} EvenStands<T>(c: Path<T>, f: Shape<T>)
    requires f.Node? && Even(Plug(c, f))
    ensures !Leans(c, Height(f.left), Height(f.right))
  {
    if !c.Top? {
      EvenPath(Above(c), Below(c, f));
      EvenStands(Above(c), Below(c, f));
    }
  }

  // The heights about an element whose left subtree is too high by two, and higher on its inner side; and
  // the mirror image.
  ghost predicate BentLeft<T>(f: Shape<T>) {
    && f.Node? && f.left.Node?
    && Height(f.left.right) == Height(f.right) + 1 && Height(f.left.left) == Height(f.right)
  }

  ghost predicate BentRight<T>(f: Shape<T>) {
    && f.Node? && f.right.Node?
    && Height(f.right.left) == Height(f.left) + 1 && Height(f.right.right) == Height(f.left)
  }

  // A single rotation turns one of the two into the other, at the same place.
  lemma TurnedAround<T>(c: Path<T>, f: Shape<T>)
    requires BentLeft(f) || BentRight(f)
    ensures !Level(f)
    ensures var t := Turned(c, f); !t.0.Top? && t.1.Node? && Level(t.1) && Above(t.0) == c
    ensures var t := Turned(c, f); BentLeft(f) ==> BentRight(Below(t.0, t.1))
    ensures var t := Turned(c, f); BentRight(f) ==> BentLeft(Below(t.0, t.1))
  {
  }

  lemma {:induction false} Spins<T>(c: Path<T>, f: Shape<T>, corrections: nat)
    requires (BentLeft(f) || BentRight(f)) && corrections <= MAX_CORRECTIONS
    ensures var r := Rebalanced(c, f, corrections); r.2 == MAX_CORRECTIONS && !Even(Plug(r.0, r.1))
    decreases MAX_CORRECTIONS - corrections
  {
    TurnedAround(c, f);
    if Even(Plug(c, f)) {
      EvenPath(c, f);
      assert false;
    }
    if corrections < MAX_CORRECTIONS {
      var t := Turned(c, f);
      var next := if Crooked(f) then MAX_CORRECTIONS else corrections + 1;
      var b := Below(t.0, t.1);
      assert Plug(t.0, t.1) == Plug(c, b);
      if next == MAX_CORRECTIONS {
        if Even(Plug(c, b)) {
          EvenPath(c, b);
          TurnedAround(c, b);
          assert false;
        }
      } else {
        Spins(c, b, next);
      }
    }
  }

  // One rotation gives an outward subtree the height it had before the insertion.
  lemma Cured<T>(c: Path<T>, f: Shape<T>)
    requires f.Node? && !Level(f) && Even(f.left) && Even(f.right)
    requires
      || (f.left.Node? && Height(f.left.left) == Height(f.left.right) + 1 == Height(f.right) + 1)
      || (f.right.Node? && Height(f.right.right) == Height(f.right.left) + 1 == Height(f.left) + 1)
    ensures var t := Turned(c, f);
      !t.0.Top? && Above(t.0) == c && !Crooked(f) && Even(Below(t.0, t.1)) && Height(Below(t.0, t.1)) == Height(f) - 1
  {
  }

  // The place where the heights come to differ by two.
  lemma FirstUneven<T>(c: Path<T>, s: Shape<T>, f: Shape<T>)
    requires !c.Top? && Even(Plug(c, s)) && f.Node? && Even(f) && Height(f) == Height(s) + 1
    requires Height(f.left) != Height(f.right) && !Level(Below(c, f))
    ensures Outcome(Above(c), Below(c, f), Leans(c, Height(f.left), Height(f.right)))
  {
    var was, now := Below(c, s), Below(c, f);
    EvenPath(Above(c), was);
    if Leans(c, Height(f.left), Height(f.right)) {
      Spins(Above(c), now, 0);
    } else {
      Cured(Above(c), now);
      var t := Turned(Above(c), now);
      SameHeight(Above(c), was, Below(t.0, t.1));
      NothingToTurn(t.0, t.1, 1);
    }
  }

  // How the loop ends: it has given up, and the tree is uneven, or neither.
  ghost predicate Outcome<T>(c: Path<T>, f: Shape<T>, leans: bool)
    requires f.Node?
  {
    var r := Rebalanced(c, f, 0);
    (r.2 == MAX_CORRECTIONS <==> leans) && (Even(Plug(r.0, r.1)) <==> !leans)
  }

  // The subtree at the end of an even path has grown by one.
  lemma {:induction false} GrownByOne<T>(c: Path<T>, s: Shape<T>, f: Shape<T>)
    requires Even(Plug(c, s)) && f.Node? && Even(f) && Height(f) == Height(s) + 1
    requires Height(f) == 1 || Height(f.left) != Height(f.right)
    ensures Outcome(c, f, Leans(c, Height(f.left), Height(f.right)))
    decreases Length(c)
  {
    if !c.Top? {
      var was, now := Below(c, s), Below(c, f);
      EvenPath(Above(c), was);
      assert Rebalanced(c, f, 0) == Rebalanced(Above(c), now, 0);
      if !Level(now) {
        FirstUneven(c, s, f);
      } else if Height(now) == Height(was) {
        SameHeight(Above(c), was, now);
        NothingToTurn(Above(c), now, 0);
        EvenStands(Above(c), now);
      } else {
        GrownByOne(Above(c), was, now);
      }
    }
  }

  // An insertion keeps an even tree even if and only if it does not lean inward; if it does, the loop
  // turns to and fro until it gives up.
  lemma GrowsEven<T>(c: Path<T>, added: Element<T>)
    requires Even(Plug(c, Empty))
    ensures Even(Grown(c, added)) <==> !LeansInward(c)
    ensures GivesUp(c, added) <==> LeansInward(c)
  {
    if !c.Top? {
      GrownByOne(c, Empty, Node(added, Empty, Empty));
    }
  }

  // The smallest tree that leans: an element between the two of a line is turned once and left uneven.
  lemma BentLineStaysUneven<T>(a: Element<T>, b: Element<T>, x: Element<T>)
    ensures var c := LeftOf(b, Empty, RightOf(a, Empty, Top));
      Even(Plug(c, Empty)) && LeansInward(c) && !Even(Grown(c, x))
  {
    var up: Path<T> := RightOf(a, Empty, Top);
    var c := LeftOf(b, Empty, up);
    assert Plug(c, Empty) == Plug(up, Node(b, Empty, Empty)) == Plug(Top, Node(a, Empty, Node(b, Empty, Empty)));
    assert Leans(c, 0, 0) == Leans(up, 1, 0);
    GrowsEven(c, x);
  }
}
