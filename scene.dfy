/** The decoded scene graph as the floor-material pass sees it. Nodes are values:
    the pass reads a node's kind, name and children and never writes them. A mesh
    refers to its material by the index of a slot in the material store, so two
    meshes may share one material, as three.js meshes share material objects. */
module Scene {

  datatype Option<T> = None | Some(value: T)

  /** What a node is: a mesh with an optional material reference, a group, or
      anything else (cameras, lights, bones). */
  datatype Kind = Mesh(material: Option<nat>) | Group | Other

  datatype Node = Node(name: string, kind: Kind, children: seq<Node>)

  /** The nodes `Object3D.traverse` hands to its callback, in order: the node
      itself, then the subtree of each child in turn. */
  function Visits(n: Node): (vs: seq<Node>)
    ensures |vs| > 0 && vs[0] == n
    decreases n, 1
  {
    [n] + VisitsAll(n.children)
  }

  /** The visits of a list of sibling subtrees, one after the other. */
  function VisitsAll(cs: seq<Node>): seq<Node>
    decreases cs, 0
  {
    if cs == [] then [] else VisitsAll(cs[..|cs| - 1]) + Visits(cs[|cs| - 1])
  }

  /** Every node of the `j`th subtree is visited when the siblings are. */
  lemma {:induction false} ChildVisitsIncluded(cs: seq<Node>, j: nat)
    requires j < |cs|
    ensures forall x :: x in Visits(cs[j]) ==> x in VisitsAll(cs)
  {
    if j < |cs| - 1 {
      var init := cs[..|cs| - 1];
      ChildVisitsIncluded(init, j);
      assert init[j] == cs[j];
    }
  }

  /** `x` is a node of the tree rooted at `root`: the root itself, or a node of
      the subtree of one of its children. */
  ghost predicate InTree(root: Node, x: Node)
    decreases root
  {
    x == root || exists c :: c in root.children && InTree(c, x)
  }

  /** A node of the visits of some siblings is a node of one sibling's visits. */
  lemma {:induction false} VisitsAllMember(cs: seq<Node>, x: Node)
    requires x in VisitsAll(cs)
    ensures exists j :: 0 <= j < |cs| && x in Visits(cs[j])
    decreases |cs|
  {
    var init := cs[..|cs| - 1];
    if x in VisitsAll(init) {
      VisitsAllMember(init, x);
      var j :| 0 <= j < |init| && x in Visits(init[j]);
      assert init[j] == cs[j];
    } else {
      assert x in Visits(cs[|cs| - 1]);
    }
  }

  /** `Object3D.traverse` reaches every node of the tree and nothing else: a node
      is visited exactly when it lies in the tree. */
  lemma {:induction false} InTreeIff(root: Node, x: Node)
    ensures InTree(root, x) <==> x in Visits(root)
    decreases root
  {
    var cs := root.children;
    if x in Visits(root) && x != root {
      assert x in VisitsAll(cs);
      VisitsAllMember(cs, x);
      var j :| 0 <= j < |cs| && x in Visits(cs[j]);
      InTreeIff(cs[j], x);
      assert cs[j] in cs;
    }
    if InTree(root, x) && x != root {
      var c :| c in cs && InTree(c, x);
      var j :| 0 <= j < |cs| && cs[j] == c;
      InTreeIff(c, x);
      ChildVisitsIncluded(cs, j);
    }
  }

  /** The material reference of a mesh points into a store of `count` slots. */
  predicate SlotOk(n: Node, count: nat) {
    match n.kind
    case Mesh(Some(i)) => i < count
    case _ => true
  }

  /** Every visited node refers to an existing material slot. */
  predicate SlotsWithin(vs: seq<Node>, count: nat) {
    forall x :: x in vs ==> SlotOk(x, count)
  }
}
