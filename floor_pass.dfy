/** The floor-material pass of the `Model` component: once the scene is decoded,
    every floor-like mesh that has a material gets the mid-grey, matte floor
    finish; nothing else is written. */
module FloorPass {
  import opened FloorNames
  import opened Materials
  import opened Scene

  /** The material slot the traverse callback rewrites when it visits `n`: the
      material of a mesh whose lower-cased name is floor-like, if it has one. */
  function FloorSlot(n: Node): (o: Option<nat>)
    ensures o.Some? <==> n.kind.Mesh? && n.kind.material.Some? && IsFloorLike(Lower(n.name))
    ensures o.Some? ==> n.kind == Mesh(o)
  {
    match n.kind
    case Mesh(material) => if IsFloorLike(Lower(n.name)) then material else None
    case _ => None
  }

  /** The store after the callback has visited `n`. */
  function Touch(mats: seq<Material>, n: Node): (r: seq<Material>)
    requires SlotOk(n, |mats|)
    ensures |r| == |mats|
    ensures forall i :: 0 <= i < |mats| ==> r[i] == if FloorSlot(n) == Some(i) then Retint(mats[i]) else mats[i]
  {
    match FloorSlot(n)
    case Some(i) => mats[i := Retint(mats[i])]
    case None => mats
  }

  /** The slot each visit of `vs` rewrites, in visiting order. */
  function SlotList(vs: seq<Node>): (os: seq<Option<nat>>)
    ensures |os| == |vs|
  {
    seq(|vs|, k requires 0 <= k < |vs| => FloorSlot(vs[k]))
  }

  /** The slot numbers that occur in `os`. */
  function Collect(os: seq<Option<nat>>): (slots: set<nat>)
    ensures forall k :: 0 <= k < |os| && os[k].Some? ==> os[k].value in slots
    ensures forall i :: i in slots ==> exists k :: 0 <= k < |os| && os[k] == Some(i)
  {
    set k | 0 <= k < |os| && os[k].Some? :: os[k].value
  }

  /** The slots a visit of `vs` rewrites: exactly those that some visited
      floor-like mesh refers to. */
  function FloorSlots(vs: seq<Node>): (slots: set<nat>)
    ensures forall i :: i in slots <==> exists k :: 0 <= k < |vs| && FloorSlot(vs[k]) == Some(i)
  {
    var os := SlotList(vs);
    assert forall k :: 0 <= k < |vs| ==> os[k] == FloorSlot(vs[k]);
    Collect(os)
  }

  /** The slot numbers of a list are those of all but its last entry plus those of the last. */
  lemma CollectSnoc(os: seq<Option<nat>>)
    requires os != []
    ensures Collect(os) == Collect(os[..|os| - 1]) + match os[|os| - 1] case Some(i) => {i} case None => {}
  {
    var init := os[..|os| - 1];
    forall i | i in Collect(os) ensures i in Collect(init) || os[|os| - 1] == Some(i) {
      var k :| 0 <= k < |os| && os[k] == Some(i);
      if k < |init| {
        assert init[k] == os[k];
      }
    }
    forall i | i in Collect(init) ensures i in Collect(os) {
      var k :| 0 <= k < |init| && init[k] == Some(i);
      assert os[k] == init[k];
    }
  }

  /** The slots of a concatenation are the slots of its parts. */
  lemma CollectAppend(a: seq<Option<nat>>, b: seq<Option<nat>>)
    ensures Collect(a + b) == Collect(a) + Collect(b)
  {
    forall i | i in Collect(a + b) ensures i in Collect(a) + Collect(b) {
      var k :| 0 <= k < |a + b| && (a + b)[k] == Some(i);
      if k >= |a| {
        assert (a + b)[k] == b[k - |a|];
      } else {
        assert (a + b)[k] == a[k];
      }
    }
    forall k | 0 <= k < |b| ensures (a + b)[|a| + k] == b[k] {
    }
    forall k | 0 <= k < |a| ensures (a + b)[k] == a[k] {
    }
  }

  /** The slot list of all but the last visit is the slot list without its last entry. */
  lemma SlotListInit(vs: seq<Node>)
    requires vs != []
    ensures SlotList(vs[..|vs| - 1]) == SlotList(vs)[..|vs| - 1]
  {
  }

  /** The slot list of a concatenation is the concatenation of the slot lists. */
  lemma SlotListAppend(a: seq<Node>, b: seq<Node>)
    ensures SlotList(a + b) == SlotList(a) + SlotList(b)
  {
  }

  /** The store after the callback has visited every node of `vs` in order. A
      slot that some visited floor-like mesh refers to holds the floor finish;
      every other slot is as it was. */
  function Rewrite(mats: seq<Material>, vs: seq<Node>): (r: seq<Material>)
    requires SlotsWithin(vs, |mats|)
    ensures |r| == |mats|
    ensures forall i :: 0 <= i < |mats| ==>
      r[i] == if i in FloorSlots(vs) then Retint(mats[i]) else mats[i]
    decreases |vs|
  {
    if vs == [] then mats
    else
      SlotListInit(vs);
      CollectSnoc(SlotList(vs));
      Touch(Rewrite(mats, vs[..|vs| - 1]), vs[|vs| - 1])
  }

  /** The visit sequence of the pass on `root` has no dangling material reference. */
  predicate WellFormed(root: Node, count: nat) {
    SlotsWithin(Visits(root), count)
  }

  /** Visiting `a` and then `b` is visiting `a + b`. */
  lemma RewriteAppend(mats: seq<Material>, a: seq<Node>, b: seq<Node>)
    requires SlotsWithin(a + b, |mats|)
    ensures SlotsWithin(a, |mats|) && SlotsWithin(b, |mats|)
    ensures Rewrite(mats, a + b) == Rewrite(Rewrite(mats, a), b)
  {
    assert forall x :: x in a ==> x in a + b;
    assert forall x :: x in b ==> x in a + b;
    SlotListAppend(a, b);
    CollectAppend(SlotList(a), SlotList(b));
  }

  /** Running the pass a second time changes nothing: every write is a constant. */
  lemma RewriteIdempotent(mats: seq<Material>, vs: seq<Node>)
    requires SlotsWithin(vs, |mats|)
    ensures Rewrite(Rewrite(mats, vs), vs) == Rewrite(mats, vs)
  {
    var once := Rewrite(mats, vs);
    assert forall i :: 0 <= i < |mats| ==> Rewrite(once, vs)[i] == once[i];
  }

  /** The order of the traversal does not matter: any permutation of the visits
      gives the same store. */
  lemma RewriteOrderIrrelevant(mats: seq<Material>, vs: seq<Node>, ws: seq<Node>)
    requires SlotsWithin(vs, |mats|) && multiset(vs) == multiset(ws)
    ensures SlotsWithin(ws, |mats|)
    ensures Rewrite(mats, vs) == Rewrite(mats, ws)
  {
    assert forall x :: x in vs <==> x in ws by {
      forall x ensures x in vs <==> x in ws {
        assert x in vs <==> x in multiset(vs);
        assert x in ws <==> x in multiset(ws);
      }
    }
    forall i ensures i in FloorSlots(vs) ==> i in FloorSlots(ws) {
      if i in FloorSlots(vs) {
        var k :| 0 <= k < |vs| && FloorSlot(vs[k]) == Some(i);
        assert vs[k] in ws;
        var k' :| 0 <= k' < |ws| && ws[k'] == vs[k];
      }
    }
    forall i ensures i in FloorSlots(ws) ==> i in FloorSlots(vs) {
      if i in FloorSlots(ws) {
        var k :| 0 <= k < |ws| && FloorSlot(ws[k]) == Some(i);
        assert ws[k] in vs;
        var k' :| 0 <= k' < |vs| && vs[k'] == ws[k];
      }
    }
    assert FloorSlots(vs) == FloorSlots(ws);
  }

  /** A floor-like mesh anywhere in the scene that has a material ends with the
      floor finish: colour `0x888888`, roughness 0.8, metalness 0.1,
      environment-map intensity 0.2 and the dirty flag set. */
  lemma FloorMeshRetinted(mats: seq<Material>, root: Node, m: Node, i: nat)
    requires WellFormed(root, |mats|)
    requires InTree(root, m) && m.kind == Mesh(Some(i)) && IsFloorLike(Lower(m.name))
    ensures i < |mats|
    ensures Rewrite(mats, Visits(root))[i] == Material(Rgb(0x88, 0x88, 0x88), 0.8, 0.1, 0.2, true)
  {
    var vs := Visits(root);
    InTreeIff(root, m);
    var k :| 0 <= k < |vs| && vs[k] == m;
    assert FloorSlot(vs[k]) == Some(i);
  }

  /** A material that no floor-like mesh of the scene refers to is left exactly as
      it was: the material of a mesh whose name does not match, of a mirror, or of
      a node that is not a mesh at all. */
  lemma UnmatchedSlotKept(mats: seq<Material>, root: Node, i: nat)
    requires WellFormed(root, |mats|) && i < |mats|
    requires forall x :: InTree(root, x) && x.kind == Mesh(Some(i)) ==> !IsFloorLike(Lower(x.name))
    ensures Rewrite(mats, Visits(root))[i] == mats[i]
  {
    var vs := Visits(root);
    forall k | 0 <= k < |vs| ensures FloorSlot(vs[k]) != Some(i) {
      InTreeIff(root, vs[k]);
    }
  }

  /** A material used only by meshes whose names contain "mirror", in any case,
      is left unchanged, even when those names also contain "floor". */
  lemma MirrorSlotKept(mats: seq<Material>, root: Node, i: nat)
    requires WellFormed(root, |mats|) && i < |mats|
    requires forall x :: InTree(root, x) && x.kind == Mesh(Some(i)) ==> HasCaseVariant(x.name, MirrorWord)
    ensures Rewrite(mats, Visits(root))[i] == mats[i]
  {
    forall x | InTree(root, x) && x.kind == Mesh(Some(i)) ensures !IsFloorLike(Lower(x.name)) {
      MirrorNeverFloorLike(x.name);
    }
    UnmatchedSlotKept(mats, root, i);
  }

  /** A mirror is protected only through its own name: when a mirror mesh shares
      its material with a floor mesh, the shared material is rewritten, so the
      mirror's material changes too. */
  lemma SharedMaterialRetinted(mats: seq<Material>, root: Node, floorName: string, mirrorName: string)
    requires |mats| > 0
    requires root == Node("Scene", Group, [Node(floorName, Mesh(Some(0)), []), Node(mirrorName, Mesh(Some(0)), [])])
    requires IsFloorLike(Lower(floorName)) && HasCaseVariant(mirrorName, MirrorWord)
    ensures WellFormed(root, |mats|)
    ensures Rewrite(mats, Visits(root))[0] == Retint(mats[0])
  {
    var floor, mirror := root.children[0], root.children[1];
    assert Visits(floor) == [floor] && Visits(mirror) == [mirror];
    assert VisitsAll([floor]) == [floor] by {
      assert [floor][..0] == [];
    }
    assert VisitsAll(root.children) == [floor, mirror] by {
      assert root.children[..1] == [floor];
    }
    var vs := Visits(root);
    assert vs == [root, floor, mirror];
    assert SlotsWithin(vs, |mats|);
    assert FloorSlot(vs[1]) == Some(0);
  }

  /** The callback handed to `traverse`: on a floor-like mesh that has a material,
      set the colour, roughness, metalness and environment-map intensity and
      mark the material for update. */
  method RetintIfFloor(n: Node, mats: array<Material>)
    requires SlotOk(n, mats.Length)
    modifies mats
    ensures mats[..] == Touch(old(mats[..]), n)
  {
    match n.kind {
      case Mesh(material) =>
        var name := Lower(n.name);
        if IsFloorLike(name) {
          if material.Some? {
            var i := material.value;
            mats[i] := mats[i].(color := FromHex(FloorHex));
            mats[i] := mats[i].(roughness := 0.8);
            mats[i] := mats[i].(metalness := 0.1);
            mats[i] := mats[i].(envMapIntensity := 0.2);
            mats[i] := mats[i].(needsUpdate := true);
          }
        }
      case _ =>
    }
  }

  /** `n.traverse(RetintIfFloor)`: the callback on `n`, then on every subtree of
      its children in order. */
  method Traverse(n: Node, mats: array<Material>)
    requires SlotsWithin(Visits(n), mats.Length)
    modifies mats
    ensures mats[..] == Rewrite(old(mats[..]), Visits(n))
    decreases n
  {
    assert n in Visits(n);
    RetintIfFloor(n, mats);
    assert mats[..] == Rewrite(old(mats[..]), [n]) by {
      assert [n][..0] == [];
    }
    var cs := n.children;
    var j := 0;
    assert [n] + VisitsAll(cs[..0]) == [n];
    while j < |cs|
      invariant 0 <= j <= |cs|
      invariant SlotsWithin([n] + VisitsAll(cs[..j]), mats.Length)
      invariant mats[..] == Rewrite(old(mats[..]), [n] + VisitsAll(cs[..j]))
    {
      ChildVisitsIncluded(cs, j);
      Traverse(cs[j], mats);
      ChildPrefixVisitsIncluded(cs, j + 1);
      VisitsAllSnoc(n, cs, j);
      RewriteAppend(old(mats[..]), [n] + VisitsAll(cs[..j]), Visits(cs[j]));
      j := j + 1;
    }
    assert cs[..|cs|] == cs;
  }

  /** One more child extends the visits by that child's subtree. */
  lemma VisitsAllSnoc(n: Node, cs: seq<Node>, j: nat)
    requires j < |cs|
    ensures [n] + VisitsAll(cs[..j + 1]) == ([n] + VisitsAll(cs[..j])) + Visits(cs[j])
  {
    assert cs[..j + 1][..j] == cs[..j];
  }

  /** The visits of a prefix of the children are visits of the parent. */
  lemma {:induction false} ChildPrefixVisitsIncluded(cs: seq<Node>, j: nat)
    requires j <= |cs|
    ensures forall x :: x in VisitsAll(cs[..j]) ==> x in VisitsAll(cs)
  {
    if j < |cs| {
      ChildPrefixVisitsIncluded(cs[..|cs| - 1], j);
      assert cs[..|cs| - 1][..j] == cs[..j];
    } else {
      assert cs[..j] == cs;
    }
  }

  /** The effect of the `Model` component on its decoded scene (`if (scene)`):
      without a scene nothing happens; with one, each material slot holds the
      floor finish when a floor-like mesh refers to it and is unchanged otherwise. */
  method ApplyFloorMaterials(scene: Option<Node>, mats: array<Material>)
    requires scene.Some? ==> WellFormed(scene.value, mats.Length)
    modifies mats
    ensures scene.None? ==> mats[..] == old(mats[..])
    ensures scene.Some? ==> mats[..] == Rewrite(old(mats[..]), Visits(scene.value))
    ensures forall i :: 0 <= i < mats.Length ==>
      mats[i] == if scene.Some? && i in FloorSlots(Visits(scene.value)) then Retint(old(mats[i])) else old(mats[i])
  {
    if scene.Some? {
      Traverse(scene.value, mats);
    }
  }
}
