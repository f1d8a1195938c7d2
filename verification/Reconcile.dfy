/**
 Reconciling the live document with a freshly rendered one, node by node and in place.

 Source: web/markdown.js:192-217. A node is a text or an element; `copy` is the text its copy button uses. The
 live tree and the rendered one are objects, so a position keeps its node object, and with it selection and focus,
 wherever kind and name match.
 */
module Reconcile {

  /** A tree by value; text nodes carry no copy text. */
  datatype Tree = Text(data: string) | Element(name: string, attrs: map<string, string>, copy: string, kids: seq<Tree>)

  /** Which object stands where. */
  datatype Shot = Shot(node: Node, kids: seq<Shot>)

  /** The nodeName of every text node. */
  const TEXT_NAME := "#text"

  class Node {
    const isText: bool
    const name: string
    var data: string
    var attrs: map<string, string>
    var copy: string
    var kids: seq<Node>
    ghost var repr: set<Node>

    ghost predicate Valid()
      reads this, repr
      decreases repr
    {
      && this in repr
      && (isText ==> kids == [] && name == TEXT_NAME)
      && (forall k :: k in kids ==> k in repr && k.repr <= repr && this !in k.repr && k.Valid())
      && (forall i, j :: 0 <= i < j < |kids| ==> kids[i].repr !! kids[j].repr)
    }

    /** The tree below this node, by value. */
    ghost function Plain(): Tree
      requires Valid()
      reads this, repr
      decreases repr
    {
      if isText then Text(data)
      else Element(name, attrs, copy, seq(|kids|, i requires 0 <= i < |kids| && Valid() reads this, repr => kids[i].Plain()))
    }

    /** The objects below this node. */
    ghost function Snap(): Shot
      requires Valid()
      reads this, repr
      decreases repr
    {
      Shot(this, seq(|kids|, i requires 0 <= i < |kids| && Valid() reads this, repr => kids[i].Snap()))
    }

    constructor (isText: bool, name: string, data: string)
      requires isText ==> name == TEXT_NAME
      ensures Valid() && fresh(repr) && this.isText == isText && this.name == name && this.data == data
      ensures kids == [] && attrs == map[] && copy == "" && repr == {this}
    {
      this.isText, this.name, this.data := isText, name, data;
      attrs, copy, kids, repr := map[], "", [], {this};
    }

    /** append. */
    method Append(kid: Node)
      requires Valid() && !isText && kid.Valid() && kid.repr !! repr
      modifies `kids, `repr
      ensures Valid() && kids == old(kids) + [kid] && repr == old(repr) + kid.repr
      ensures forall j :: 0 <= j < |old(kids)| ==> kids[j].Valid() && kids[j].Plain() == old(kids[j].Plain()) && kids[j].Snap() == old(kids[j].Snap())
      ensures kid.Valid() && kid.Plain() == old(kid.Plain())
    {
      kids := kids + [kid];
      repr := repr + kid.repr;
    }
  }

  /** Everything but the copy texts, which cloneNode does not know. */
  function Bare(t: Tree): Tree {
    match t
    case Text(_) => t
    case Element(name, attrs, _, kids) =>
      Element(name, attrs, "", seq(|kids|, i requires 0 <= i < |kids| => Bare(kids[i])))
  }

  /** cloneNode(true). */
  method CloneNode(source: Node) returns (c: Node)
    requires source.Valid()
    ensures c.Valid() && fresh(c.repr) && c.Plain() == Bare(source.Plain())
    ensures c.isText == source.isText && c.name == source.name
    decreases source.repr
  {
    c := new Node(source.isText, source.name, source.data);
    if source.isText {
      return;
    }
    c.attrs := source.attrs;
    ghost var want := Bare(source.Plain());
    var i := 0;
    while i < |source.kids|
      invariant i <= |source.kids| && c.Valid() && fresh(c.repr) && |c.kids| == i
      invariant !c.isText && c.name == source.name && c.attrs == source.attrs && c.copy == ""
      invariant forall j :: 0 <= j < i ==> c.kids[j].Plain() == want.kids[j]
    {
      var kid := CloneNode(source.kids[i]);
      assert kid.Plain() == want.kids[i];
      c.Append(kid);
      i := i + 1;
    }
    assert c.Plain().kids == want.kids;
  }

  /** copyProperties: the copy texts of two trees of the same shape. */
  method CopyProperties(target: Node, source: Node)
    requires target.Valid() && source.Valid() && target.repr !! source.repr
    requires Bare(target.Plain()) == Bare(source.Plain())
    modifies target.repr
    ensures target.Valid() && target.repr == old(target.repr) && target.Plain() == source.Plain()
    decreases source.repr, 2
  {
    if source.isText {
      target.copy := source.copy;
    } else {
      ghost var shape := Bare(source.Plain());
      BareKids(target);
      target.copy := source.copy;
      CopyKids(target, source, shape);
    }
  }

  lemma BareKids(n: Node)
    requires n.Valid() && !n.isText
    ensures var t := Bare(n.Plain());
      |t.kids| == |n.kids| && forall j :: 0 <= j < |n.kids| ==> Bare(n.kids[j].Plain()) == t.kids[j]
  {
  }

  /** Its loop. */
  method CopyKids(target: Node, source: Node, ghost shape: Tree)
    requires target.Valid() && source.Valid() && target.repr !! source.repr && !target.isText && !source.isText
    requires shape == Bare(source.Plain()) && |target.kids| == |source.kids|
    requires forall j :: 0 <= j < |target.kids| ==> Bare(target.kids[j].Plain()) == shape.kids[j]
    modifies target.repr
    ensures target.Valid() && unchanged(target)
    ensures forall j :: 0 <= j < |target.kids| ==> target.kids[j].Plain() == source.kids[j].Plain()
    decreases source.repr, 1
  {
    ghost var want := source.Plain();
    var i := 0;
    while i < |source.kids|
      invariant i <= |source.kids| && unchanged(target) && target.Valid() && source.Plain() == want
      invariant forall j :: 0 <= j < i ==> target.kids[j].Plain() == want.kids[j]
      invariant forall j :: i <= j < |target.kids| ==> Bare(target.kids[j].Plain()) == shape.kids[j]
    {
      assert source.kids[i].Plain() == want.kids[i];
      CopyKid(target, source, i);
      i := i + 1;
    }
  }

  /** One turn of the loop. */
  method CopyKid(target: Node, source: Node, i: nat)
    requires target.Valid() && source.Valid() && target.repr !! source.repr
    requires i < |target.kids| && i < |source.kids| && Bare(target.kids[i].Plain()) == Bare(source.kids[i].Plain())
    modifies target.kids[i].repr
    ensures target.Valid() && target.kids[i].Plain() == source.kids[i].Plain() && unchanged(target)
    ensures forall j :: 0 <= j < |target.kids| && j != i ==> target.kids[j].Plain() == old(target.kids[j].Plain())
    decreases source.repr, 0
  {
    assert forall j :: 0 <= j < |target.kids| && j != i ==> target.kids[j].repr !! target.kids[i].repr;
    CopyProperties(target.kids[i], source.kids[i]);
  }

  /** cloneNode(true) and copyProperties: a fresh equal tree. */
  method CopyOf(source: Node) returns (c: Node)
    requires source.Valid()
    ensures c.Valid() && fresh(c.repr) && c.Plain() == source.Plain()
  {
    c := CloneNode(source);
    BareTwice(source.Plain());
    CopyProperties(c, source);
  }

  lemma {:induction false} BareTwice(t: Tree)
    ensures Bare(Bare(t)) == Bare(t)
  {
    if t.Element? {
      forall j | 0 <= j < |t.kids| ensures Bare(Bare(t.kids[j])) == Bare(t.kids[j]) {
        BareTwice(t.kids[j]);
      }
      assert Bare(Bare(t)).kids == Bare(t).kids;
    }
  }

  // ------------------------------------------------------------------ reconcile

  /** The same kind and name: the object stays. */
  predicate Fits(n: Node, t: Tree) {
    n.isText == t.Text? && (t.Element? ==> n.name == t.name)
  }

  /** At every position where kinds and names met, the same object stands as before. */
  predicate Kept(was: Shot, t: Tree, now: Shot)
    decreases t
  {
    now.node == was.node && (t.Element? ==> KeptKids(was.kids, t.kids, now.kids))
  }

  predicate KeptKids(was: seq<Shot>, ts: seq<Tree>, now: seq<Shot>)
    decreases ts
  {
    forall j :: 0 <= j < |was| && j < |ts| && Fits(was[j].node, ts[j]) ==> j < |now| && Kept(was[j], ts[j], now[j])
  }

  /** The objects stand as the tree's kinds and names ask for. */
  predicate Shaped(s: Shot, t: Tree)
    decreases t
  {
    Fits(s.node, t) &&
    match t
    case Text(_) => s.kids == []
    case Element(_, _, _, kids) => |s.kids| == |kids| && forall j :: 0 <= j < |kids| ==> Shaped(s.kids[j], kids[j])
  }

  /** Where only texts, attributes and copy texts changed, every object of the live tree survives. */
  lemma {:induction false} EverythingKept(was: Shot, t: Tree, now: Shot)
    requires Kept(was, t, now) && Shaped(was, t) && Shaped(now, t)
    ensures now == was
    decreases t
  {
    if t.Element? {
      forall j | 0 <= j < |t.kids| ensures now.kids[j] == was.kids[j] {
        EverythingKept(was.kids[j], t.kids[j], now.kids[j]);
      }
      assert now.kids == was.kids;
    }
  }

  /** The attributes that the source does not have go; the others are set. */
  method MatchAttributes(live: Node, next: Node)
    requires live.Valid() && live != next
    modifies live`attrs
    ensures live.attrs == next.attrs
  {
    var names := live.attrs.Keys;
    while names != {}
      invariant names <= live.attrs.Keys
      invariant forall k :: k in live.attrs && k !in names ==> k in next.attrs
      decreases |names|
    {
      var k :| k in names;
      if k !in next.attrs {
        live.attrs := live.attrs - {k};
      }
      names := names - {k};
    }
    names := next.attrs.Keys;
    while names != {}
      invariant names <= next.attrs.Keys && live.attrs.Keys <= next.attrs.Keys
      invariant forall k :: k in next.attrs && k !in names ==> k in live.attrs && live.attrs[k] == next.attrs[k]
      decreases |names|
    {
      var k :| k in names;
      if k !in live.attrs || live.attrs[k] != next.attrs[k] {
        live.attrs := live.attrs[k := next.attrs[k]];
      }
      names := names - {k};
    }
    assert live.attrs.Keys == next.attrs.Keys;
  }

  /** The text behind the common prefix is replaced. */
  method MatchText(live: Node, next: Node)
    requires live.Valid() && live != next
    modifies live`data
    ensures live.data == next.data
  {
    var prefix := 0;
    while prefix < |live.data| && prefix < |next.data| && live.data[prefix] == next.data[prefix]
      invariant prefix <= |live.data| && prefix <= |next.data| && live.data[..prefix] == next.data[..prefix]
    {
      prefix := prefix + 1;
    }
    live.data := live.data[..prefix] + next.data[prefix..];
  }

  /** What becomes of the child at `i`, and of nothing else. */
  twostate predicate KidDone(parent: Node, source: Node, i: nat)
    reads parent, parent.repr, source, source.repr
  {
    && old(parent.Valid()) && parent.Valid() && source.Valid()
    && i <= |old(parent.kids)| && i < |parent.kids| && i < |source.kids|
    && |parent.kids| == (if i < |old(parent.kids)| then |old(parent.kids)| else i + 1)
    && parent.copy == old(parent.copy) && parent.attrs == old(parent.attrs)
    && fresh(parent.repr - old(parent.repr))
    && (forall j :: 0 <= j < |old(parent.kids)| && j != i ==> parent.kids[j].Snap() == old(parent.kids[j].Snap()))
    && (forall j :: 0 <= j < |old(parent.kids)| && j != i ==> parent.kids[j].Plain() == old(parent.kids[j].Plain()))
    && parent.kids[i].Plain() == source.kids[i].Plain()
    && (i < |old(parent.kids)| && Fits(old(parent.kids[i]), source.kids[i].Plain()) ==>
          Kept(old(parent.kids[i].Snap()), source.kids[i].Plain(), parent.kids[i].Snap()))
  }

  /** The live tree is shorter than the source: a copy is appended. */
  method AddKid(parent: Node, source: Node, i: nat)
    requires parent.Valid() && source.Valid() && parent.repr !! source.repr && !parent.isText
    requires i < |source.kids| && i == |parent.kids|
    modifies parent
    ensures KidDone(parent, source, i)
  {
    var c := CopyOf(source.kids[i]);
    parent.Append(c);
  }

  /** Another kind or name: the child is replaced by a copy. */
  method SwapKid(parent: Node, source: Node, i: nat)
    requires parent.Valid() && source.Valid() && parent.repr !! source.repr && !parent.isText
    requires i < |source.kids| && i < |parent.kids| && !Fits(parent.kids[i], source.kids[i].Plain())
    modifies parent
    ensures KidDone(parent, source, i)
  {
    var c := CopyOf(source.kids[i]);
    parent.kids := parent.kids[i := c];
    parent.repr := parent.repr + c.repr;
  }

  /** The same kind and name: the child stays and is brought up to date. */
  method UpdateKid(parent: Node, source: Node, i: nat)
    requires parent.Valid() && source.Valid() && parent.repr !! source.repr && !parent.isText
    requires i < |source.kids| && i < |parent.kids| && Fits(parent.kids[i], source.kids[i].Plain())
    modifies parent, parent.kids[i].repr
    ensures KidDone(parent, source, i)
    decreases source.repr, 0
  {
    var live := parent.kids[i];
    assert forall j :: 0 <= j < |parent.kids| && j != i ==> parent.kids[j].repr !! live.repr;
    Update(live, source.kids[i]);
    parent.repr := parent.repr + live.repr;
  }

  /** The branch for a matching node. */
  method Update(live: Node, next: Node)
    requires live.Valid() && next.Valid() && live.repr !! next.repr && Fits(live, next.Plain())
    modifies live.repr
    ensures live.Valid() && fresh(live.repr - old(live.repr)) && live.Plain() == next.Plain()
    ensures Kept(old(live.Snap()), next.Plain(), live.Snap())
    decreases next.repr, 3
  {
    if next.isText {
      MatchText(live, next);
    } else {
      live.copy := next.copy;
      MatchAttributes(live, next);
      Reconcile(live, next);
      assert live.Plain().kids == next.Plain().kids;
    }
  }

  /**
   reconcile: the live children become deeply equal to the source's, the source stays as it is, and the same
   object stands wherever kinds and names met.
   */
  method Reconcile(parent: Node, source: Node)
    requires parent.Valid() && source.Valid() && parent.repr !! source.repr && !parent.isText && !source.isText
    modifies parent.repr
    ensures parent.Valid() && fresh(parent.repr - old(parent.repr))
    ensures parent.copy == old(parent.copy) && parent.attrs == old(parent.attrs)
    ensures parent.Plain().kids == source.Plain().kids
    ensures source.Valid() && source.Plain() == old(source.Plain())
    ensures KeptKids(old(parent.Snap()).kids, source.Plain().kids, parent.Snap().kids)
    decreases source.repr, 2
  {
    ghost var want, was := source.Plain(), parent.Snap();
    var i := 0;
    while i < |source.kids|
      invariant Going(parent, source, i, want, was) && fresh(parent.repr - old(parent.repr))
      invariant parent.repr !! source.repr && parent.copy == old(parent.copy) && parent.attrs == old(parent.attrs)
    {
      ReconcileKid(parent, source, i, want, was);
      i := i + 1;
    }
    Trim(parent, source, want, was);
    assert parent.Plain().kids == want.kids;
  }

  /** What the source does not have is removed from the end. */
  method Trim(parent: Node, source: Node, ghost want: Tree, ghost was: Shot)
    requires Going(parent, source, |source.kids|, want, was) && parent.repr !! source.repr
    modifies parent`kids
    ensures Going(parent, source, |source.kids|, want, was) && |parent.kids| == |source.kids|
  {
    while |parent.kids| > |source.kids|
      invariant Going(parent, source, |source.kids|, want, was) && parent.repr !! source.repr
    {
      parent.kids := parent.kids[..|parent.kids| - 1];
    }
  }

  /** The children below `i` are done, the others are as they were. */
  ghost predicate Going(parent: Node, source: Node, i: nat, want: Tree, was: Shot)
    reads parent, parent.repr, source, source.repr
  {
    && parent.Valid() && source.Valid() && !parent.isText && !source.isText && source.Plain() == want
    && i <= |source.kids| && i <= |parent.kids|
    && (forall j :: 0 <= j < i ==> parent.kids[j].Plain() == want.kids[j])
    && (forall j :: 0 <= j < i && j < |was.kids| && Fits(was.kids[j].node, want.kids[j]) ==>
          Kept(was.kids[j], want.kids[j], parent.kids[j].Snap()))
    && (i < |source.kids| ==> |was.kids| <= |parent.kids| && (|was.kids| < |parent.kids| ==> |parent.kids| == i))
    && (forall j :: i <= j < |was.kids| && j < |parent.kids| ==> parent.kids[j].Snap() == was.kids[j])
  }

  /** One turn of the loop over the source's children. */
  method ReconcileKid(parent: Node, source: Node, i: nat, ghost want: Tree, ghost was: Shot)
    requires Going(parent, source, i, want, was) && i < |source.kids| && parent.repr !! source.repr
    modifies parent.repr
    ensures Going(parent, source, i + 1, want, was)
    ensures fresh(parent.repr - old(parent.repr)) && parent.repr !! source.repr
    ensures parent.copy == old(parent.copy) && parent.attrs == old(parent.attrs)
    decreases source.repr, 1
  {
    if i == |parent.kids| {
      AddKid(parent, source, i);
      return;
    }
    assert parent.kids[i].Valid() && source.kids[i].Valid();
    if parent.kids[i].isText != source.kids[i].isText || parent.kids[i].name != source.kids[i].name {
      SwapKid(parent, source, i);
    } else {
      UpdateKid(parent, source, i);
    }
  }
}
