/** cJSON_Duplicate of app/cJSON.c: a copy of a whole tree of items that is equal
    in value, is made of new items only, and leaves the original as it was. */
module JsonCopy {
  import opened Prelude
  import opened JsonList

  /** Which items make up a tree. */
  datatype Shape = Shape(node: Node, kids: seq<Shape>)

  /** What a tree says, apart from where its items are. */
  datatype Tree = Tree(payload: Payload, kids: seq<Tree>)

  function Nodes(s: Shape): set<Node>
    decreases s
  {
    {s.node} + Below(s.kids)
  }

  function Below(kids: seq<Shape>): set<Node>
    decreases kids
  {
    if kids == [] then {} else Below(Front(kids)) + Nodes(Last(kids))
  }

  function Roots(kids: seq<Shape>): (r: seq<Node>)
    ensures |r| == |kids| && forall i | 0 <= i < |kids| :: r[i] == kids[i].node
  {
    seq(|kids|, i requires 0 <= i < |kids| => kids[i].node)
  }

  /** No item occurs twice in the tree. */
  predicate Separate(s: Shape)
    decreases s
  {
    s.node !in Below(s.kids) && SeparateAll(s.kids)
  }

  predicate SeparateAll(kids: seq<Shape>)
    decreases kids
  {
    kids == [] || (SeparateAll(Front(kids)) && Separate(Last(kids)) && Below(Front(kids)) !! Nodes(Last(kids)))
  }

  /** The items below the root; each is linked to its neighbours. */
  function Inner(s: Shape): set<Node>
    decreases s
  {
    Members(Roots(s.kids)) + Deep(s.kids)
  }

  /** The items below the roots of these trees. */
  function Deep(kids: seq<Shape>): set<Node>
    decreases kids
  {
    if kids == [] then {} else Deep(Front(kids)) + Inner(Last(kids))
  }

  /** The items are linked as the shape says: every item's children are a list. */
  ghost predicate Holds(s: Shape)
    reads Nodes(s)`child, Inner(s)`next, Inner(s)`prev
    decreases s
  {
    IsList(s.node, Roots(s.kids)) && HoldsAll(s.kids)
  }

  ghost predicate HoldsAll(kids: seq<Shape>)
    reads Below(kids)`child, Deep(kids)`next, Deep(kids)`prev
    decreases kids
  {
    kids == [] || (HoldsAll(Front(kids)) && Holds(Last(kids)))
  }

  function TreeOf(s: Shape): Tree
    decreases s
  {
    Tree(s.node.payload, TreesOf(s.kids))
  }

  function TreesOf(kids: seq<Shape>): seq<Tree>
    decreases kids
  {
    if kids == [] then [] else TreesOf(Front(kids)) + [TreeOf(Last(kids))]
  }

  lemma {:induction false} RootsBelow(kids: seq<Shape>)
    ensures forall i | 0 <= i < |kids| :: kids[i].node in Below(kids)
    ensures Members(Roots(kids)) <= Below(kids)
  {
    if kids != [] {
      RootsBelow(Front(kids));
      assert forall i | 0 <= i < |kids| - 1 :: kids[i] == Front(kids)[i];
    }
  }

  lemma {:induction false} DeepBelow(kids: seq<Shape>)
    ensures Deep(kids) <= Below(kids)
    decreases kids, 0
  {
    if kids != [] {
      DeepBelow(Front(kids));
      InnerBelow(Last(kids));
    }
  }

  lemma {:induction false} InnerBelow(s: Shape)
    ensures Inner(s) <= Below(s.kids)
    decreases s, 1
  {
    RootsBelow(s.kids);
    DeepBelow(s.kids);
  }

  lemma {:induction false} RootsNotDeep(kids: seq<Shape>)
    requires SeparateAll(kids)
    ensures Members(Roots(kids)) !! Deep(kids)
  {
    if kids != [] {
      var front, last := Front(kids), Last(kids);
      RootsNotDeep(front);
      RootsBelow(front);
      DeepBelow(front);
      InnerBelow(last);
      assert forall i | 0 <= i < |front| :: Roots(kids)[i] == Roots(front)[i];
      assert Roots(kids) == Roots(front) + [last.node];
    }
  }

  lemma {:induction false} KidsHold(kids: seq<Shape>, i: nat)
    requires HoldsAll(kids) && i < |kids|
    ensures Holds(kids[i]) && Nodes(kids[i]) <= Below(kids)
  {
    if i < |kids| - 1 {
      KidsHold(Front(kids), i);
    }
  }

  lemma {:induction false} TreesMore(kids: seq<Shape>, k: Shape)
    ensures TreesOf(kids + [k]) == TreesOf(kids) + [TreeOf(k)]
    ensures Below(kids + [k]) == Below(kids) + Nodes(k)
    ensures Deep(kids + [k]) == Deep(kids) + Inner(k)
    ensures SeparateAll(kids + [k]) <==> SeparateAll(kids) && Separate(k) && Below(kids) !! Nodes(k)
    ensures HoldsAll(kids + [k]) <==> HoldsAll(kids) && Holds(k)
  {
    FrontLast(kids, k);
  }

  lemma {:induction false} TreesNext(kids: seq<Shape>, n: nat)
    requires n < |kids|
    ensures TreesOf(kids[..n + 1]) == TreesOf(kids[..n]) + [TreeOf(kids[n])]
  {
    assert kids[..n + 1] == kids[..n] + [kids[n]];
    TreesMore(kids[..n], kids[n]);
  }

  lemma {:induction false} TreeAt(kids: seq<Shape>, i: nat)
    requires i < |kids|
    ensures |TreesOf(kids)| == |kids| && TreesOf(kids)[i] == TreeOf(kids[i])
  {
    if i < |kids| - 1 {
      TreeAt(Front(kids), i);
    } else if i > 0 {
      TreeAt(Front(kids), 0);
    }
  }

  /** The children copied so far: linked in a row, the first one's prev not yet set. */
  ghost predicate Row(made: seq<Node>)
    reads Members(made)`next, Members(made)`prev
  {
    NoRepeats(made) && forall k | 0 <= k < |made| ::
      made[k].next == NextOf(made, k) && (k > 0 ==> made[k].prev == made[k - 1])
  }

  method Duplicate(item: Node, recurse: bool, ghost s: Shape) returns (copy: Node, ghost c: Shape)
    requires Holds(s) && s.node == item && allocated(Nodes(s))
    ensures c.node == copy && Holds(c) && Separate(c) && fresh(Nodes(c))
    ensures copy.next == null && copy.prev == null
    ensures recurse ==> TreeOf(c) == TreeOf(s)
    ensures !recurse ==> c.kids == [] && copy.payload == item.payload
    decreases s, 4
  {
    InnerBelow(s);
    copy := new Node(item.payload);
    c := Shape(copy, []);
    if recurse {
      ghost var made := CopyChildren(item, copy, s);
      c := Shape(copy, made);
    }
  }

  method CopyChildren(item: Node, copy: Node, ghost s: Shape) returns (ghost made: seq<Shape>)
    requires Holds(s) && s.node == item && copy !in Nodes(s) && copy.child == null && allocated(Nodes(s))
    modifies copy`child
    ensures IsList(copy, Roots(made)) && HoldsAll(made) && SeparateAll(made)
    ensures fresh(Below(made)) && TreesOf(made) == TreesOf(s.kids)
    decreases s, 3
  {
    var last: Node?;
    last, made := CopyRow(item, copy, s);
    assert s.kids[..|made|] == s.kids;
    RootsBelow(made);
    Close(copy, last, made);
  }

  /** The walk along the next chain of the children. What holds of the row and of
      the original is stated as equations, each carried along as one fact. */
  method CopyRow(item: Node, copy: Node, ghost s: Shape) returns (last: Node?, ghost made: seq<Shape>)
    requires Holds(s) && s.node == item && copy !in Nodes(s) && copy.child == null && allocated(Nodes(s))
    modifies copy`child
    ensures Rows(null, copy, last, made, s) == 1 && fresh(Below(made))
    decreases s, 2
  {
    var child := item.child;
    last, made := null, [];
    assert s.kids[..0] == [];
    ghost var news: set<Node> := {};
    while child != null
      invariant Holds(s) == old(Holds(s)) && Rows(child, copy, last, made, s) == 1
      invariant news == Below(made) && fresh(news)
      decreases |s.kids| - |made|
    {
      ghost var added: set<Node>;
      last, child, made, added := CopyStep(child, copy, last, made, s);
      assert fresh(added);
      news := news + added;
    }
  }

  /** The children before this one have been copied and are linked behind copy. */
  ghost predicate InRow(child: Node?, copy: Node, last: Node?, made: seq<Shape>, s: Shape)
    reads copy`child, Below(made)`child, Deep(made)`next, Deep(made)`prev
    reads Members(Roots(made))`next, Members(Roots(made))`prev
  {
    && |made| <= |s.kids| && child == (if |made| < |s.kids| then s.kids[|made|].node else null)
    && copy !in Below(made) && Nodes(s) !! Below(made) && (last != null ==> last in Below(made))
    && Copied(copy, last, made) && TreesOf(made) == TreesOf(s.kids[..|made|])
  }

  /** Whether they have, as a number: one fact that is carried along unopened. */
  ghost function Rows(child: Node?, copy: Node, last: Node?, made: seq<Shape>, s: Shape): nat
    reads copy`child, Below(made)`child, Deep(made)`next, Deep(made)`prev
    reads Members(Roots(made))`next, Members(Roots(made))`prev
  {
    if InRow(child, copy, last, made, s) then 1 else 0
  }

  /** What touches none of its items leaves a tree as it was. */
  twostate lemma StillHolds(s: Shape)
    requires old(allocated(Nodes(s))) && unchanged(Nodes(s))
    ensures Holds(s) == old(Holds(s))
  {
    InnerBelow(s);
  }

  lemma {:induction false} NextKid(s: Shape, k: nat)
    requires Holds(s) && k < |s.kids|
    ensures s.kids[k].node.next == if k + 1 < |s.kids| then s.kids[k + 1].node else null
  {
    assert Roots(s.kids)[k].next == NextOf(Roots(s.kids), k);
  }

  /** The children made so far are proper copies, linked in a row behind copy. */
  ghost predicate Copied(copy: Node, last: Node?, made: seq<Shape>)
    reads copy`child, Below(made)`child, Deep(made)`next, Deep(made)`prev
    reads Members(Roots(made))`next, Members(Roots(made))`prev
  {
    && HoldsAll(made) && SeparateAll(made) && Row(Roots(made))
    && copy.child == (if made == [] then null else made[0].node)
    && last == (if made == [] then null else Last(made).node)
  }

  /** One pass of the walk. */
  method CopyStep(child: Node, copy: Node, last: Node?, ghost made: seq<Shape>, ghost s: Shape)
    returns (newChild: Node, next: Node?, ghost more: seq<Shape>, ghost added: set<Node>)
    requires Holds(s) && allocated(Nodes(s)) && copy !in Nodes(s)
    requires Rows(child, copy, last, made, s) == 1 && allocated(Below(made))
    modifies copy`child, Only(last)`next
    ensures Rows(next, copy, newChild, more, s) == 1 && |more| == |made| + 1
    ensures Below(more) == Below(made) + added && fresh(added) && Holds(s)
    decreases s, 1
  {
    newChild, next, more, added := CopyNext(child, copy, last, made, s);
  }

  method CopyNext(child: Node, copy: Node, last: Node?, ghost made: seq<Shape>, ghost s: Shape)
    returns (newChild: Node, next: Node?, ghost more: seq<Shape>, ghost added: set<Node>)
    requires Holds(s) && allocated(Nodes(s)) && copy !in Nodes(s)
    requires InRow(child, copy, last, made, s) && allocated(Below(made))
    modifies copy`child, Only(last)`next
    ensures InRow(next, copy, newChild, more, s) && |more| == |made| + 1
    ensures Below(more) == Below(made) + added && fresh(added) && Holds(s)
    decreases s, 0
  {
    ghost var kid: Shape;
    KidsHold(s.kids, |made|);
    NextKid(s, |made|);
    next := child.next;
    newChild, kid := CopyKid(child, copy, last, made, s.kids[|made|]);
    more, added := made + [kid], Nodes(kid);
    KidAdded(made, kid, s);
    StillHolds(s);
  }

  lemma {:induction false} KidAdded(made: seq<Shape>, kid: Shape, s: Shape)
    requires |made| < |s.kids| && TreesOf(made) == TreesOf(s.kids[..|made|]) && TreeOf(kid) == TreeOf(s.kids[|made|])
    ensures TreesOf(made + [kid]) == TreesOf(s.kids[..|made| + 1])
    ensures Below(made + [kid]) == Below(made) + Nodes(kid) && kid.node in Nodes(kid)
  {
    TreesMore(made, kid);
    TreesNext(s.kids, |made|);
  }

  method CopyKid(child: Node, copy: Node, last: Node?, ghost made: seq<Shape>, ghost s: Shape)
    returns (newChild: Node, ghost kid: Shape)
    requires Holds(s) && child == s.node && allocated(Nodes(s)) && allocated(Below(made))
    requires Copied(copy, last, made) && copy !in Below(made)
    modifies copy`child, Only(last)`next
    ensures Copied(copy, newChild, made + [kid]) && fresh(Nodes(kid))
    ensures newChild == kid.node && TreeOf(kid) == TreeOf(s)
    decreases s, 5
  {
    ghost var before := Below(made);
    RootsBelow(made);
    DeepBelow(made);
    newChild, kid := Duplicate(child, true, s);
    assert before !! Nodes(kid) && copy !in Nodes(kid);
    assert Copied(copy, last, made);
    TreesMore(made, kid);
    if last == null {
      AttachFirst(copy, newChild, made, kid);
    } else {
      AttachNext(copy, last, newChild, made, kid);
    }
  }

  /** The first copied child. */
  method AttachFirst(copy: Node, newChild: Node, ghost made: seq<Shape>, ghost kid: Shape)
    requires made == [] && Holds(kid) && Separate(kid)
    requires kid.node == newChild && newChild.next == null && copy !in Nodes(kid)
    modifies copy`child
    ensures Copied(copy, newChild, made + [kid])
  {
    copy.child := newChild;
    TreesMore(made, kid);
    assert Roots(made + [kid]) == [newChild];
    assert Last(made + [kid]) == kid && (made + [kid])[0] == kid;
  }

  /** Crosswires the next copied child with the last one. */
  method AttachNext(copy: Node, last: Node, newChild: Node, ghost made: seq<Shape>, ghost kid: Shape)
    requires Copied(copy, last, made) && Holds(kid) && Separate(kid) && Below(made) !! Nodes(kid)
    requires kid.node == newChild && newChild.next == null
    modifies last`next, newChild`prev
    ensures Copied(copy, newChild, made + [kid])
  {
    ghost var row := Roots(made);
    assert last == row[|made| - 1];
    RootsBelow(made);
    Link(last, newChild, made, kid);
    RowGrows(row, newChild);
    CopiedMore(copy, newChild, made, kid);
  }

  lemma {:induction false} CopiedMore(copy: Node, newChild: Node, made: seq<Shape>, kid: Shape)
    requires made != [] && kid.node == newChild && copy.child == made[0].node
    requires HoldsAll(made) && SeparateAll(made) && Holds(kid) && Separate(kid) && Below(made) !! Nodes(kid)
    requires Row(Roots(made) + [newChild])
    ensures Copied(copy, newChild, made + [kid])
  {
    TreesMore(made, kid);
    assert Roots(made + [kid]) == Roots(made) + [newChild];
  }

  method Link(last: Node, newChild: Node, ghost made: seq<Shape>, ghost kid: Shape)
    requires made != [] && last == Last(made).node && kid.node == newChild
    requires HoldsAll(made) && SeparateAll(made) && Holds(kid) && Separate(kid) && Below(made) !! Nodes(kid)
    modifies last`next, newChild`prev
    ensures HoldsAll(made) == old(HoldsAll(made)) && Holds(kid) == old(Holds(kid))
    ensures last.next == newChild && newChild.prev == last
  {
    RootsNotDeep(made);
    RootsBelow(made);
    DeepBelow(made);
    InnerBelow(kid);
    assert last == Roots(made)[|made| - 1] && last in Members(Roots(made)) && last in Below(made);
    assert newChild in Nodes(kid) && newChild !in Below(made);
    SetNext(last, newChild, made, kid);
    SetPrev(newChild, last, made, kid);
  }

  method SetNext(n: Node, next: Node, ghost made: seq<Shape>, ghost kid: Shape)
    requires n !in Deep(made) && n !in Inner(kid)
    modifies n`next
    ensures n.next == next
    ensures HoldsAll(made) == old(HoldsAll(made)) && Holds(kid) == old(Holds(kid))
  {
    n.next := next;
  }

  method SetPrev(n: Node, prev: Node, ghost made: seq<Shape>, ghost kid: Shape)
    requires n !in Deep(made) && n !in Inner(kid)
    modifies n`prev
    ensures n.prev == prev
    ensures HoldsAll(made) == old(HoldsAll(made)) && Holds(kid) == old(Holds(kid))
  {
    n.prev := prev;
  }

  lemma {:induction false} RowGrows(row: seq<Node>, n: Node)
    requires row != [] && NoRepeats(row) && n !in row
    requires forall k | 0 <= k < |row| - 1 :: row[k].next == row[k + 1]
    requires forall k | 0 < k < |row| :: row[k].prev == row[k - 1]
    requires Last(row).next == n && n.prev == Last(row) && n.next == null
    ensures Row(row + [n])
  {
  }

  method Close(copy: Node, last: Node?, ghost made: seq<Shape>)
    requires Row(Roots(made)) && HoldsAll(made) && SeparateAll(made)
    requires copy.child == (if made == [] then null else made[0].node)
    requires last == if made == [] then null else Last(made).node
    modifies Only(copy.child)`prev
    ensures IsList(copy, Roots(made)) && HoldsAll(made)
  {
    RootsNotDeep(made);
    assert copy.child != null ==> copy.child == Roots(made)[0];
    if copy.child != null {
      copy.child.prev := last;
    }
  }
}
