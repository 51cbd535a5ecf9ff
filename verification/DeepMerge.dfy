/** Merging one tree of preferences into another, in place. Maps are objects: a value of the merged
    tree may be shared with the source tree afterwards. */
module DeepMerge {
  import opened Domain

  // ---- Trees as values ----

  datatype Tree = Leaf(text: string) | Node(kids: map<string, Tree>)

  /** The right-biased merge: two maps merge key by key, in every other case the source wins. */
  function Merge(d: Tree, s: Tree): Tree
    decreases s
  {
    if d.Node? && s.Node? then
      Node(map k | k in d.kids.Keys + s.kids.Keys ::
             if k !in s.kids then d.kids[k] else if k in d.kids then Merge(d.kids[k], s.kids[k]) else s.kids[k])
    else s
  }

  /** Merging a tree into itself changes nothing. */
  lemma {:induction false} MergeSelf(t: Tree)
    ensures Merge(t, t) == t
  {
    if t.Node? {
      forall k | k in t.kids ensures Merge(t.kids[k], t.kids[k]) == t.kids[k] {
        MergeSelf(t.kids[k]);
      }
      assert Merge(t, t).kids == t.kids;
    }
  }

  /** Merging the same source twice is merging it once. */
  lemma {:induction false} MergeTwice(d: Tree, s: Tree)
    ensures Merge(Merge(d, s), s) == Merge(d, s)
    decreases s
  {
    if d.Node? && s.Node? {
      var m := Merge(d, s);
      forall k | k in s.kids ensures Merge(m.kids[k], s.kids[k]) == m.kids[k] {
        if k in d.kids {
          MergeTwice(d.kids[k], s.kids[k]);
        } else {
          MergeSelf(s.kids[k]);
        }
      }
      assert Merge(m, s).kids == m.kids;
    } else {
      MergeSelf(s);
    }
  }

  /** Two maps merge to the union of their keys, one level down again; anything else is the source. */
  lemma MergeKeys(d: Tree, s: Tree)
    ensures d.Node? && s.Node? ==>
              Merge(d, s).Node? && Merge(d, s).kids.Keys == d.kids.Keys + s.kids.Keys &&
              (forall k :: k in d.kids && k in s.kids ==> Merge(d, s).kids[k] == Merge(d.kids[k], s.kids[k])) &&
              (forall k :: k in d.kids && k !in s.kids ==> Merge(d, s).kids[k] == d.kids[k]) &&
              (forall k :: k !in d.kids && k in s.kids ==> Merge(d, s).kids[k] == s.kids[k])
    ensures d.Leaf? || s.Leaf? ==> Merge(d, s) == s
  {
  }

  function Lookup(t: Tree, path: seq<string>): Option<Tree>
    decreases |path|
  {
    if |path| == 0 then Some(t)
    else if t.Node? && path[0] in t.kids then Lookup(t.kids[path[0]], path[1..])
    else None
  }

  /** The source has nothing to say about the path: it stops naming keys before the path ends. */
  predicate Untouched(d: Tree, s: Tree, path: seq<string>)
    decreases |path|
  {
    |path| > 0 && d.Node? && s.Node? &&
    (path[0] !in s.kids || (path[0] in d.kids && Untouched(d.kids[path[0]], s.kids[path[0]], path[1..])))
  }

  /** Leaves of the source win, and paths it does not touch keep what they had. */
  lemma {:induction false} MergePaths(d: Tree, s: Tree, path: seq<string>)
    ensures Lookup(s, path).Some? && Lookup(s, path).value.Leaf? ==> Lookup(Merge(d, s), path) == Lookup(s, path)
    ensures Untouched(d, s, path) ==> Lookup(Merge(d, s), path) == Lookup(d, path)
    decreases |path|
  {
    if |path| > 0 && d.Node? && s.Node? && path[0] in d.kids && path[0] in s.kids {
      MergePaths(d.kids[path[0]], s.kids[path[0]], path[1..]);
    }
  }

  // ---- Trees of map objects ----

  datatype Value = Text(text: string) | Sub(node: Map)

  class Map {
    var fields: map<string, Value>
    /** The objects of this tree. */
    ghost var Repr: set<Map>

    constructor ()
      ensures Valid() && fields == map[] && Repr == {this}
    {
      fields, Repr := map[], {this};
    }

    ghost predicate Child(k: string)
      reads this
    {
      k in fields && fields[k].Sub?
    }

    /** A tree: children own disjoint sets of objects. */
    ghost predicate Valid()
      reads this, Repr
      decreases Repr
    {
      this in Repr &&
      (forall k :: Child(k) ==>
       fields[k].node in Repr && fields[k].node.Repr <= Repr - {this} && fields[k].node.Valid()) &&
      (forall k, l :: Child(k) && Child(l) && k != l ==> fields[k].node.Repr !! fields[l].node.Repr)
    }

    ghost function Contents(): Tree
      requires Valid()
      reads this, Repr
      decreases Repr
    {
      Node(map k | k in fields :: match fields[k] case Text(t) => Leaf(t) case Sub(c) => assert Child(k); c.Contents())
    }
  }

  ghost function TreeOf(v: Value): Tree
    requires v.Sub? ==> v.node.Valid()
    reads if v.Sub? then {v.node} + v.node.Repr else {}
  {
    match v
    case Text(t) => Leaf(t)
    case Sub(c) => c.Contents()
  }

  ghost function Owned(v: Value): set<Map>
    reads if v.Sub? then {v.node} else {}
  {
    if v.Sub? then v.node.Repr else {}
  }

  /** Key k of the map holds this tree, in objects it owns within the given ones. */
  ghost predicate Holds(m: Map, k: string, t: Tree, owned: set<Map>)
    reads m, if k in m.fields && m.fields[k].Sub? then {m.fields[k].node} + m.fields[k].node.Repr else {}
  {
    k in m.fields && Owned(m.fields[k]) <= owned &&
    (m.fields[k].Sub? ==> m.fields[k].node.Valid()) && TreeOf(m.fields[k]) == t
  }

  /** The value is the source's own, or both are maps and the source's is merged into it. */
  ghost predicate Took(v: Value, w: Value)
    reads if v.Sub? then {v.node} + v.node.Repr else {}
    reads if w.Sub? then {w.node} + w.node.Repr else {}
    decreases if w.Sub? then w.node.Repr else {}, 1
  {
    (v.Sub? ==> v.node.Valid()) && (w.Sub? ==> w.node.Valid()) &&
    (v == w || (v.Sub? && w.Sub? && Absorbed(v.node, w.node)))
  }

  /** The source is merged into the map already: at each of its keys the map took its value. */
  ghost predicate Absorbed(d: Map, s: Map)
    requires d.Valid() && s.Valid()
    reads d, d.Repr, s, s.Repr
    decreases s.Repr, 0
  {
    forall k :: k in s.fields ==>
      k in d.fields && (d.Child(k) ==> d.fields[k].node.Valid()) && (s.Child(k) ==> s.fields[k].node.Valid()) &&
      Took(d.fields[k], s.fields[k])
  }

  /** The map holds these trees in these disjoint sets of objects. */
  ghost predicate Shape(m: Map, kids: map<string, Tree>, owned: map<string, set<Map>>)
    reads m, set k, o | k in m.fields && m.fields[k].Sub? && o in {m.fields[k].node} + m.fields[k].node.Repr :: o
    reads set k | k in m.fields && m.fields[k].Sub? :: m.fields[k].node
  {
    m.fields.Keys == kids.Keys == owned.Keys &&
    (forall k :: k in kids ==> Holds(m, k, kids[k], owned[k])) &&
    (forall k :: k in owned ==> m !in owned[k]) &&
    (forall k, l :: k in owned && l in owned && k != l ==> owned[k] !! owned[l])
  }

  lemma ShapeOfValid(m: Map)
    requires m.Valid()
    ensures Shape(m, m.Contents().kids, map k | k in m.fields :: Owned(m.fields[k]))
    ensures forall k :: k in m.fields ==> Owned(m.fields[k]) <= m.Repr
  {
    var kids, owned := m.Contents().kids, map k | k in m.fields :: Owned(m.fields[k]);
    forall k | k in kids ensures Holds(m, k, kids[k], owned[k]) && m !in owned[k] && owned[k] <= m.Repr {
      assert m.fields[k].Sub? ==> m.Child(k);
    }
    forall k, l | k in owned && l in owned && k != l ensures owned[k] !! owned[l] {
      assert m.fields[k].Sub? ==> m.Child(k);
      assert m.fields[l].Sub? ==> m.Child(l);
    }
  }

  lemma ValidOfShape(m: Map, kids: map<string, Tree>, owned: map<string, set<Map>>)
    requires Shape(m, kids, owned) && m in m.Repr && forall k :: k in owned ==> owned[k] <= m.Repr
    ensures m.Valid() && m.Contents() == Node(kids)
  {
    forall k | m.Child(k)
      ensures m.fields[k].node in m.Repr && m.fields[k].node.Repr <= m.Repr - {m} && m.fields[k].node.Valid()
    {
      assert Holds(m, k, kids[k], owned[k]);
    }
    forall k, l | m.Child(k) && m.Child(l) && k != l ensures m.fields[k].node.Repr !! m.fields[l].node.Repr {
      assert Holds(m, k, kids[k], owned[k]) && Holds(m, l, kids[l], owned[l]);
    }
    forall k | k in m.fields ensures k in m.Contents().kids && m.Contents().kids[k] == kids[k] {
      assert Holds(m, k, kids[k], owned[k]);
    }
    assert m.Contents().kids == kids;
  }

  /** One key holds something else, in objects of its own, and the others what they held. */
  lemma ShapeWith(m: Map, k: string, kids: map<string, Tree>, owned: map<string, set<Map>>, t: Tree, own: set<Map>)
    requires m.fields.Keys == kids.Keys + {k} && kids.Keys == owned.Keys
    requires forall l :: l in kids && l != k ==> Holds(m, l, kids[l], owned[l])
    requires forall l :: l in owned && l != k ==> owned[l] !! own && m !in owned[l]
    requires forall i, j :: i in owned && j in owned && i != j ==> owned[i] !! owned[j]
    requires Holds(m, k, t, own) && m !in own
    ensures Shape(m, kids[k := t], owned[k := own])
  {
  }

  ghost function OwnedAt(m: map<string, set<Map>>, k: string): set<Map> {
    if k in m then m[k] else {}
  }

  /** The source wins at a key: its value is stored, shared with the source. */
  method Put(dst: Map, k: string, v: Value, ghost kids: map<string, Tree>, ghost owned: map<string, set<Map>>)
    requires Shape(dst, kids, owned) && (v.Sub? ==> v.node.Valid())
    requires dst !in Owned(v) && forall l :: l in owned ==> owned[l] !! Owned(v)
    modifies dst`fields
    ensures dst.fields == old(dst.fields)[k := v]
    ensures Shape(dst, kids[k := old(TreeOf(v))], owned[k := OwnedAt(owned, k) + Owned(v)])
  {
    ghost var t, own := TreeOf(v), OwnedAt(owned, k) + Owned(v);
    dst.fields := dst.fields[k := v];
    forall l | l in kids && l != k ensures Holds(dst, l, kids[l], owned[l]) {
      assert old(Holds(dst, l, kids[l], owned[l])) && dst !in owned[l];
    }
    assert Holds(dst, k, t, own);
    ShapeWith(dst, k, kids, owned, t, own);
  }

  /** Both sides hold a map at the key: they merge, and the other keys are not affected. */
  method MergeChild(dst: Map, k: string, v: Map, ghost kids: map<string, Tree>, ghost owned: map<string, set<Map>>)
    requires Shape(dst, kids, owned) && dst.Child(k) && v.Valid()
    requires dst !in v.Repr && forall l :: l in owned ==> owned[l] !! v.Repr
    modifies dst.fields[k].node.Repr
    ensures k in kids && k in owned &&
            Shape(dst, kids[k := Merge(kids[k], old(v.Contents()))], owned[k := owned[k] + v.Repr])
    ensures Took(dst.fields[k], Sub(v))
    decreases v.Repr, 2
  {
    var d := dst.fields[k].node;
    assert Holds(dst, k, kids[k], owned[k]);
    ghost var t := Merge(kids[k], v.Contents());
    Merging(d, v);
    forall l | l in kids && l != k ensures Holds(dst, l, kids[l], owned[l]) {
      assert old(Holds(dst, l, kids[l], owned[l])) && dst !in owned[l] && owned[l] !! owned[k];
    }
    assert Holds(dst, k, t, owned[k] + v.Repr);
    ShapeWith(dst, k, kids, owned, t, owned[k] + v.Repr);
  }

  /** What the merge makes of one key. */
  ghost function MergedAt(d: map<string, Tree>, k: string, t: Tree): Tree {
    if k in d then Merge(d[k], t) else t
  }

  /** One key of the source: descend when both sides hold a map, else the source's value wins. */
  method MergeKey(
    dst: Map,
    k: string,
    v: Value,
    ghost kids: map<string, Tree>,
    ghost owned: map<string, set<Map>>)
    requires Shape(dst, kids, owned) && (v.Sub? ==> v.node.Valid())
    requires dst !in Owned(v) && forall l :: l in owned ==> owned[l] !! Owned(v)
    modifies dst`fields, OwnedAt(owned, k)
    ensures Shape(dst, kids[k := MergedAt(kids, k, old(TreeOf(v)))], owned[k := OwnedAt(owned, k) + Owned(v)])
    ensures k in dst.fields && Took(dst.fields[k], v)
    ensures dst.fields == old(dst.fields)[k := dst.fields[k]]
    decreases Owned(v), 3
  {
    assert k in kids ==> Holds(dst, k, kids[k], owned[k]);
    if v.Sub? && k in dst.fields && dst.fields[k].Sub? {
      MergeChild(dst, k, v.node, kids, owned);
    } else {
      Put(dst, k, v, kids, owned);
    }
  }

  /** The trees and the objects of each key when the keys of `todo` are still to be merged. */
  ghost function TreesSoFar(d: map<string, Tree>, s: map<string, Tree>, todo: set<string>): map<string, Tree> {
    map k | k in d.Keys + (s.Keys - todo) :: if k in s && k !in todo then MergedAt(d, k, s[k]) else d[k]
  }

  ghost function OwnedSoFar(
    o: map<string, set<Map>>,
    q: map<string, set<Map>>,
    todo: set<string>): map<string, set<Map>>
  {
    map k | k in o.Keys + (q.Keys - todo) :: if k in q && k !in todo then OwnedAt(o, k) + q[k] else o[k]
  }

  lemma TreesStep(d: map<string, Tree>, s: map<string, Tree>, todo: set<string>, k: string)
    requires k in todo && todo <= s.Keys
    ensures TreesSoFar(d, s, todo - {k}) == var m := TreesSoFar(d, s, todo); m[k := MergedAt(m, k, s[k])]
  {
    assert s.Keys - (todo - {k}) == (s.Keys - todo) + {k};
  }

  lemma OwnedStep(o: map<string, set<Map>>, q: map<string, set<Map>>, todo: set<string>, k: string)
    requires k in todo && todo <= q.Keys
    ensures OwnedSoFar(o, q, todo - {k}) == var m := OwnedSoFar(o, q, todo); m[k := OwnedAt(m, k) + q[k]]
  {
    assert q.Keys - (todo - {k}) == (q.Keys - todo) + {k};
  }

  lemma SoFarApart(o: map<string, set<Map>>, q: map<string, set<Map>>, todo: set<string>, r0: set<Map>, k: string)
    requires k in todo && k in q && forall x :: x in o ==> o[x] <= r0
    requires forall x :: x in q ==> q[x] !! r0
    requires forall x, y :: x in q && y in q && x != y ==> q[x] !! q[y]
    ensures forall l :: l in OwnedSoFar(o, q, todo) ==> OwnedSoFar(o, q, todo)[l] !! q[k]
    ensures OwnedAt(OwnedSoFar(o, q, todo), k) <= r0
  {
  }

  ghost function OwnedMap(m: Map): map<string, set<Map>>
    reads m, set k | k in m.fields && m.fields[k].Sub? :: m.fields[k].node
  {
    map k | k in m.fields :: Owned(m.fields[k])
  }

  lemma SoFarStart(d: map<string, Tree>, s: map<string, Tree>, o: map<string, set<Map>>, q: map<string, set<Map>>)
    requires s.Keys == q.Keys
    ensures TreesSoFar(d, s, s.Keys) == d && OwnedSoFar(o, q, s.Keys) == o
  {
  }

  ghost predicate Within(owned: map<string, set<Map>>, repr: set<Map>) {
    forall k :: k in owned ==> owned[k] <= repr
  }

  lemma WithinSoFar(o: map<string, set<Map>>, q: map<string, set<Map>>, ro: set<Map>, rq: set<Map>)
    requires Within(o, ro) && Within(q, rq)
    ensures Within(OwnedSoFar(o, q, {}), ro + rq)
  {
  }

  /** Before the first key. */
  lemma Start(dst: Map, src: Map)
    requires dst.Valid() && src.Valid()
    ensures dst.Contents().Node? && src.Contents().Node? && src.Contents().kids.Keys == src.fields.Keys
    ensures var d, s, todo := dst.Contents().kids, src.Contents().kids, src.fields.Keys;
            Shape(dst, TreesSoFar(d, s, todo), OwnedSoFar(OwnedMap(dst), OwnedMap(src), todo)) &&
            d.Keys == OwnedMap(dst).Keys
    ensures Within(OwnedMap(dst), dst.Repr) && Within(OwnedMap(src), src.Repr)
  {
    ShapeOfValid(dst);
    ShapeOfValid(src);
    SoFarStart(dst.Contents().kids, src.Contents().kids, OwnedMap(dst), OwnedMap(src));
  }

  lemma SoFarEnd(d: map<string, Tree>, s: map<string, Tree>)
    ensures Node(TreesSoFar(d, s, {})) == Merge(Node(d), Node(s))
  {
    assert TreesSoFar(d, s, {}) == Merge(Node(d), Node(s)).kids;
  }

  /** The value and what it was taken from are out of reach of a write to these objects. */
  ghost predicate Apart(v: Value, w: Value, changed: set<Map>)
    reads if v.Sub? then {v.node} else {}
    reads if w.Sub? then {w.node} else {}
  {
    Owned(v) !! changed && Owned(w) !! changed
  }

  lemma TookApart(
    dst: Map,
    src: Map,
    l: string,
    kids: map<string, Tree>,
    owned: map<string, set<Map>>,
    changed: set<Map>)
    requires Shape(dst, kids, owned) && src.Valid() && l in src.fields && l in dst.fields
    requires owned[l] !! changed && src.Repr !! changed
    ensures Apart(dst.fields[l], src.fields[l], changed)
  {
    assert Holds(dst, l, kids[l], owned[l]);
    assert src.Child(l) ==> src.fields[l].node.Repr <= src.Repr;
  }

  ghost predicate AllApart(dst: Map, src: Map, todo: set<string>, changed: set<Map>)
    reads *
  {
    forall l :: l in src.fields && l !in todo && l in dst.fields ==> Apart(dst.fields[l], src.fields[l], changed)
  }

  lemma TookAllApart(
    dst: Map,
    src: Map,
    todo: set<string>,
    kids: map<string, Tree>,
    owned: map<string, set<Map>>,
    changed: set<Map>)
    requires Shape(dst, kids, owned) && src.Valid() && src.Repr !! changed
    requires forall l :: l in owned && l !in todo ==> owned[l] !! changed
    ensures AllApart(dst, src, todo, changed)
  {
    forall l | l in src.fields && l !in todo && l in dst.fields ensures Apart(dst.fields[l], src.fields[l], changed) {
      TookApart(dst, src, l, kids, owned, changed);
    }
  }

  lemma NextApart(
    dst: Map,
    src: Map,
    k: string,
    kids: map<string, Tree>,
    owned: map<string, set<Map>>,
    r0: set<Map>,
    todo: set<string>)
    requires Shape(dst, kids, owned) && src.Valid() && k in todo
    requires dst in r0 && OwnedAt(owned, k) <= r0 && src.Repr !! r0
    ensures AllApart(dst, src, todo, OwnedAt(owned, k) + {dst})
  {
    TookAllApart(dst, src, todo, kids, owned, OwnedAt(owned, k) + {dst});
  }

  /** Closes a merge: the tree is made of its objects and the source's. */
  ghost method Close(m: Map, src: Map, kids: map<string, Tree>, owned: map<string, set<Map>>, repr: set<Map>)
    requires Shape(m, kids, owned)
    requires src.Valid() && m !in src.Repr && AllTook(m, src, {}) && AllApart(m, src, {}, {m})
    modifies m`Repr
    ensures m.Repr == repr && Shape(m, kids, owned)
    ensures AllTook(m, src, {})
  {
    m.Repr := repr;
    forall l | l in kids ensures Holds(m, l, kids[l], owned[l]) {
      assert old(Holds(m, l, kids[l], owned[l])) && m !in owned[l];
    }
    forall l | l in src.fields ensures Took(m.fields[l], src.fields[l]) {
      assert old(Took(m.fields[l], src.fields[l])) && Apart(m.fields[l], src.fields[l], {m});
    }
  }

  lemma AbsorbedOfTook(m: Map, src: Map)
    requires m.Valid() && src.Valid() && AllTook(m, src, {})
    ensures Absorbed(m, src)
  {
    assert forall k :: m.Child(k) ==> m.fields[k].node.Valid();
    assert forall k :: src.Child(k) ==> src.fields[k].node.Valid();
  }

  ghost method Finish(m: Map, src: Map, kids: map<string, Tree>, owned: map<string, set<Map>>, repr: set<Map>)
    requires Shape(m, kids, owned) && m in repr && Within(owned, repr)
    requires src.Valid() && m !in src.Repr && AllTook(m, src, {})
    modifies m`Repr
    ensures m.Repr == repr && m.Valid() && m.Contents() == Node(kids)
    ensures src.Valid() && src.Contents() == old(src.Contents()) && Absorbed(m, src)
  {
    TookAllApart(m, src, {}, kids, owned, {m});
    Close(m, src, kids, owned, repr);
    ValidOfShape(m, kids, owned);
    AbsorbedOfTook(m, src);
  }

  /** The in-place merge is the functional one; the source keeps its contents, and the merged tree
      is made of objects of the two trees. */
  method Merging(dst: Map, src: Map)
    requires dst.Valid() && src.Valid() && dst.Repr !! src.Repr
    modifies dst.Repr
    ensures dst.Valid() && dst.Contents() == Merge(old(dst.Contents()), old(src.Contents()))
    ensures dst.Repr == old(dst.Repr) + src.Repr
    ensures src.Valid() && src.Contents() == old(src.Contents())
    ensures Absorbed(dst, src)
    decreases src.Repr, 1
  {
    ghost var r0, d0, s0, o0, q0 := dst.Repr, dst.Contents().kids, src.Contents().kids, OwnedMap(dst), OwnedMap(src);
    ghost var q := src.Repr;
    Start(dst, src);
    var todo := src.fields.Keys;
    while todo != {}
      invariant todo <= s0.Keys && dst.Repr == r0
      invariant Shape(dst, TreesSoFar(d0, s0, todo), OwnedSoFar(o0, q0, todo))
      invariant Reads(src, s0, q0, q) && AllTook(dst, src, todo)
      decreases todo
    {
      var k :| k in todo;
      MergeNext(dst, src, k, d0, s0, o0, q0, q, r0, todo);
      todo := todo - {k};
    }
    SoFarEnd(d0, s0);
    WithinSoFar(o0, q0, r0, q);
    Finish(dst, src, TreesSoFar(d0, s0, {}), OwnedSoFar(o0, q0, {}), r0 + q);
  }

  /** The keys that are no longer to do are taken. */
  ghost predicate AllTook(dst: Map, src: Map, todo: set<string>)
    reads *
  {
    forall l :: l in src.fields && l !in todo ==> l in dst.fields && Took(dst.fields[l], src.fields[l])
  }

  /** One key more of the merge of s0 into d0. */
  method MergeNext(
    dst: Map,
    src: Map,
    k: string,
    ghost d0: map<string, Tree>,
    ghost s0: map<string, Tree>,
    ghost o0: map<string, set<Map>>,
    ghost q0: map<string, set<Map>>,
    ghost q: set<Map>,
    ghost r0: set<Map>,
    ghost todo: set<string>)
    requires Shape(dst, TreesSoFar(d0, s0, todo), OwnedSoFar(o0, q0, todo)) && AllTook(dst, src, todo)
    requires Reads(src, s0, q0, q) && k in todo && todo <= s0.Keys && d0.Keys == o0.Keys
    requires dst in r0 && q !! r0 && Within(o0, r0)
    modifies r0
    ensures Shape(dst, TreesSoFar(d0, s0, todo - {k}), OwnedSoFar(o0, q0, todo - {k}))
    ensures Reads(src, s0, q0, q) && AllTook(dst, src, todo - {k}) && dst.Repr == old(dst.Repr)
    decreases q, 0
  {
    ghost var kids, owned := TreesSoFar(d0, s0, todo), OwnedSoFar(o0, q0, todo);
    NextKey(src, k, d0, s0, o0, q0, q, r0, todo);
    NextApart(dst, src, k, kids, owned, r0, todo);
    MergeTaking(dst, src, k, kids, owned, r0, todo);
  }

  /** One key more leaves the keys taken before it as they are. */
  method MergeTaking(
    dst: Map,
    src: Map,
    k: string,
    ghost kids: map<string, Tree>,
    ghost owned: map<string, set<Map>>,
    ghost r0: set<Map>,
    ghost todo: set<string>)
    requires Shape(dst, kids, owned) && k in src.fields && k in todo
    requires dst in r0 && OwnedAt(owned, k) <= r0 && src !in r0 && (src.fields[k].Sub? ==> src.fields[k].node.Valid())
    requires dst !in Owned(src.fields[k]) && forall l :: l in owned ==> owned[l] !! Owned(src.fields[k])
    requires AllTook(dst, src, todo) && AllApart(dst, src, todo, OwnedAt(owned, k) + {dst})
    modifies r0
    ensures Shape(dst, kids[k := MergedAt(kids, k, old(TreeOf(src.fields[k])))],
                  owned[k := OwnedAt(owned, k) + Owned(src.fields[k])])
    ensures AllTook(dst, src, todo - {k}) && dst.Repr == old(dst.Repr)
    decreases Owned(src.fields[k]), 4
  {
    ghost var was := dst.fields;
    MergeKey(dst, k, src.fields[k], kids, owned);
    forall l | l in src.fields && l !in todo ensures l in dst.fields && Took(dst.fields[l], src.fields[l]) {
      assert dst.fields[l] == was[l] && old(Took(was[l], src.fields[l]));
    }
  }

  /** What the merge sees of its source from the first key to the last. */
  ghost predicate Reads(src: Map, s0: map<string, Tree>, q0: map<string, set<Map>>, q: set<Map>)
    reads src, src.Repr
  {
    Seen(src) == Some((Node(s0), q0, q))
  }

  /** A tree with its keys' objects and its own, as one value. */
  ghost function Seen(m: Map): Option<(Tree, map<string, set<Map>>, set<Map>)>
    reads m, m.Repr
  {
    if m.Valid() then Some((m.Contents(), OwnedMap(m), m.Repr)) else None
  }

  /** The value of one key of the source. */
  lemma Turn(src: Map, k: string, s0: map<string, Tree>, q0: map<string, set<Map>>, q: set<Map>)
    requires Reads(src, s0, q0, q) && k in s0
    ensures k in src.fields && s0.Keys == q0.Keys
    ensures (src.fields[k].Sub? ==> src.fields[k].node.Valid()) && TreeOf(src.fields[k]) == s0[k] &&
            Owned(src.fields[k]) == q0[k]
    ensures q0[k] <= q - {src} && q == src.Repr
    ensures forall x :: x in q0 ==> q0[x] <= q
    ensures forall x, y :: x in q0 && y in q0 && x != y ==> q0[x] !! q0[y]
  {
    ShapeOfValid(src);
    assert Holds(src, k, s0[k], q0[k]);
  }

  /** All the merge needs to know to take one key more. */
  lemma NextKey(
    src: Map,
    k: string,
    d: map<string, Tree>,
    s: map<string, Tree>,
    o: map<string, set<Map>>,
    q: map<string, set<Map>>,
    repr: set<Map>,
    r0: set<Map>,
    todo: set<string>)
    requires Reads(src, s, q, repr) && k in todo && todo <= s.Keys && d.Keys == o.Keys
    requires repr !! r0 && forall x :: x in o ==> o[x] <= r0
    ensures k in src.fields && k in s && k in q && (src.fields[k].Sub? ==> src.fields[k].node.Valid())
    ensures TreeOf(src.fields[k]) == s[k] && Owned(src.fields[k]) == q[k] && q[k] <= repr - {src}
    ensures forall l :: l in OwnedSoFar(o, q, todo) ==> OwnedSoFar(o, q, todo)[l] !! q[k]
    ensures OwnedAt(OwnedSoFar(o, q, todo), k) <= r0
    ensures TreesSoFar(d, s, todo - {k}) == var m := TreesSoFar(d, s, todo); m[k := MergedAt(m, k, s[k])]
    ensures OwnedSoFar(o, q, todo - {k}) == var m := OwnedSoFar(o, q, todo); m[k := OwnedAt(m, k) + q[k]]
  {
    Turn(src, k, s, q, repr);
    SoFarApart(o, q, todo, r0, k);
    TreesStep(d, s, todo, k);
    OwnedStep(o, q, todo, k);
  }

  /** A map is merged into itself from the start. */
  lemma SelfAbsorbed(m: Map)
    requires m.Valid()
    ensures Absorbed(m, m)
  {
    assert forall k :: m.Child(k) ==> m.fields[k].node.Valid();
  }

  /** The same merge when the source, or the part of it at hand, is in the destination already: as a
      second call finds it, down to maps that both sides share. Nothing changes. */
  method MergingAgain(dst: Map, src: Map)
    requires dst.Valid() && src.Valid() && Absorbed(dst, src)
    modifies dst.Repr
    ensures unchanged(old(dst.Repr))
    decreases src.Repr
  {
    ghost var r := dst.Repr;
    var todo := src.fields.Keys;
    while todo != {}
      invariant unchanged(r) && todo <= src.fields.Keys
      decreases todo
    {
      var k :| k in todo;
      var v := src.fields[k];
      assert Took(dst.fields[k], v);
      if v.Sub? && k in dst.fields && dst.fields[k].Sub? {
        assert dst.Child(k) && src.Child(k);
        var d := dst.fields[k].node;
        if d == v.node {
          SelfAbsorbed(d);
        }
        MergingAgain(d, v.node);
      } else {
        assert dst.fields[k := v] == dst.fields;
        dst.fields := dst.fields[k := v];
      }
      todo := todo - {k};
    }
  }

  /** Merging the same source object twice is merging it once. */
  method MergingTwice(dst: Map, src: Map)
    requires dst.Valid() && src.Valid() && dst.Repr !! src.Repr
    modifies dst.Repr, src.Repr
    ensures dst.Valid() && dst.Contents() == Merge(old(dst.Contents()), old(src.Contents()))
    ensures src.Valid() && src.Contents() == old(src.Contents())
  {
    Merging(dst, src);
    MergingAgain(dst, src);
  }
}
