/**
 * The skeleton loader: walks the "node" hierarchy of a loaded armature and
 * builds the joint tree, numbering each joint by its position in the bone
 * order and counting the joints it builds.
 *
 * A lookup that yields no node where the loader goes on to dereference it is
 * modelled as Err(NullChild(name)), name being the child that was looked up
 * ("Armature" for the armature node, which is looked up by attribute).
 */
module Skeleton {
  import opened Wrappers
  import opened Lookup
  import opened Files

  /**
   * A joint's transform, kept as the matrix text it is parsed from and whether
   * the root correction is applied to it; the parsed floating-point matrix is
   * not part of this model.
   */
  datatype Transform = Transform(matrixText: string, corrected: bool)

  datatype JointData = JointData(index: int, nameId: string, transform: Transform, children: seq<JointData>)

  datatype LoadError = NullChild(name: string)

  /** The number of joints in a joint tree. */
  function Size(j: JointData): (r: nat)
    ensures r >= 1
    decreases j, 1
  {
    1 + SizeAll(j.children)
  }

  /** The number of joints in a list of joint trees. */
  function SizeAll(js: seq<JointData>): (r: nat)
    ensures r >= |js|
    decreases js, 0
  {
    if js == [] then 0 else SizeAll(js[..|js| - 1]) + Size(js[|js| - 1])
  }

  /** Every joint of the tree carries the bone-order index of its own name. */
  predicate Indexed(j: JointData, boneOrder: seq<string>)
    decreases j
  {
    && j.index == FirstIndexOf(boneOrder, j.nameId)
    && forall i :: 0 <= i < |j.children| ==> Indexed(j.children[i], boneOrder)
  }

  /** No joint of the tree has the root correction applied. */
  predicate NoneCorrected(j: JointData)
    decreases j
  {
    && !j.transform.corrected
    && forall i :: 0 <= i < |j.children| ==> NoneCorrected(j.children[i])
  }

  /** The joint read from one node, before its children are attached. */
  function ExtractJoint(node: ValueTree, isRoot: bool, boneOrder: seq<string>): (r: Result<JointData, LoadError>)
    ensures r.Ok? <==>
      && node.GetChild("-id").Some?
      && node.GetChild("matrix").Some?
      && node.GetChild("matrix").value.GetChild("#text").Some?
    ensures r.Ok? ==>
      && r.value.nameId == node.GetChild("-id").value.GetString()
      && r.value.index == FirstIndexOf(boneOrder, r.value.nameId)
      && r.value.transform.corrected == isRoot
      && r.value.children == []
  {
    match node.GetChild("-id")
    case None => Err(NullChild("-id"))
    case Some(id) =>
      var nameId := id.GetString();
      var index := FirstIndexOf(boneOrder, nameId);
      match node.GetChild("matrix")
      case None => Err(NullChild("matrix"))
      case Some(matrix) =>
        match matrix.GetChild("#text")
        case None => Err(NullChild("#text"))
        case Some(text) => Ok(JointData(index, nameId, Transform(text.GetString(), isRoot), []))
  }

  /** The joint tree built from a node, as the loader builds it. */
  function LoadJoint(node: ValueTree, isRoot: bool, boneOrder: seq<string>): (r: Result<JointData, LoadError>)
    ensures ExtractJoint(node, isRoot, boneOrder).Err? ==> r == ExtractJoint(node, isRoot, boneOrder)
    ensures r.Ok? ==>
      && ExtractJoint(node, isRoot, boneOrder).Ok?
      && r.value == ExtractJoint(node, isRoot, boneOrder).value.(children := r.value.children)
    ensures r.Ok? && node.GetChild("node").None? ==> r.value.children == []
    decreases node, 1
  {
    match ExtractJoint(node, isRoot, boneOrder)
    case Err(e) => Err(e)
    case Ok(joint) =>
      match node.GetChild("node")
      case None => Ok(joint)
      case Some(child) =>
        if child.GetChild("-id").None? then
          match LoadJoints(child.children, boneOrder)
          case Err(e) => Err(e)
          case Ok(js) => Ok(joint.(children := js))
        else if |child.children| > 0 then
          match LoadJoint(child, false, boneOrder)
          case Err(e) => Err(e)
          case Ok(j) => Ok(joint.(children := [j]))
        else
          Ok(joint)
  }

  /** The joint trees built, in order, from a list of non-root nodes; the first failure wins. */
  function LoadJoints(nodes: seq<ValueTree>, boneOrder: seq<string>): (r: Result<seq<JointData>, LoadError>)
    ensures r.Ok? ==> |r.value| == |nodes|
    decreases nodes, 0
  {
    if nodes == [] then Ok([])
    else
      match LoadJoints(nodes[..|nodes| - 1], boneOrder)
      case Err(e) => Err(e)
      case Ok(js) =>
        match LoadJoint(nodes[|nodes| - 1], false, boneOrder)
        case Err(e) => Err(e)
        case Ok(j) => Ok(js + [j])
  }

  /** The head joint the loader's constructor builds from the library_controllers node. */
  function LoadSkeleton(libraryControllers: ValueTree, boneOrder: seq<string>): (r: Result<JointData, LoadError>)
    ensures r.Ok? ==> r.value.transform.corrected && r.value.index == FirstIndexOf(boneOrder, r.value.nameId)
    ensures libraryControllers.GetChild("visual_scene").None? ==> r == Err(NullChild("visual_scene"))
  {
    match libraryControllers.GetChild("visual_scene")
    case None => Err(NullChild("visual_scene"))
    case Some(scene) =>
      match scene.GetChildWithAttribute("node", "-id", "Armature")
      case None => Err(NullChild("Armature"))
      case Some(armature) =>
        match armature.GetChild("node")
        case None => Err(NullChild("node"))
        case Some(head) => LoadJoint(head, true, boneOrder)
  }

  /** A failure in a prefix of the list is the failure of the whole list. */
  lemma {:induction false} LoadJointsPrefixFails(nodes: seq<ValueTree>, i: nat, boneOrder: seq<string>, e: LoadError)
    requires i <= |nodes| && LoadJoints(nodes[..i], boneOrder) == Err(e)
    ensures LoadJoints(nodes, boneOrder) == Err(e)
    decreases |nodes|
  {
    if i < |nodes| {
      var front := nodes[..|nodes| - 1];
      assert front[..i] == nodes[..i];
      LoadJointsPrefixFails(front, i, boneOrder, e);
    } else {
      assert nodes[..i] == nodes;
    }
  }

  /** A successful list load yields exactly one joint per node, in the nodes' order. */
  lemma {:induction false} LoadJointsPerNode(nodes: seq<ValueTree>, boneOrder: seq<string>)
    requires LoadJoints(nodes, boneOrder).Ok?
    ensures var js := LoadJoints(nodes, boneOrder).value;
      |js| == |nodes| && forall i :: 0 <= i < |nodes| ==> LoadJoint(nodes[i], false, boneOrder) == Ok(js[i])
    decreases |nodes|
  {
    if nodes != [] {
      var front := nodes[..|nodes| - 1];
      LoadJointsPerNode(front, boneOrder);
      var js := LoadJoints(front, boneOrder).value;
      var last := LoadJoint(nodes[|nodes| - 1], false, boneOrder).value;
      assert LoadJoints(nodes, boneOrder).value == js + [last];
      forall i | 0 <= i < |nodes|
        ensures LoadJoint(nodes[i], false, boneOrder) == Ok((js + [last])[i])
      {
        if i < |front| {
          assert nodes[i] == front[i] && (js + [last])[i] == js[i];
        } else {
          assert (js + [last])[i] == last;
        }
      }
    }
  }

  /**
   * The joint built from a node is named by the node's "-id" text and indexed by
   * that name's bone-order position, and its children follow the node's "node" child:
   * none when there is no such child; one per grandchild, in order, when that child
   * has no "-id"; otherwise exactly one, built from that child itself.  A node
   * without "-id" cannot be loaded.
   */
  lemma LoadJointShape(node: ValueTree, isRoot: bool, boneOrder: seq<string>)
    ensures node.GetChild("-id").None? ==> LoadJoint(node, isRoot, boneOrder) == Err(NullChild("-id"))
    ensures LoadJoint(node, isRoot, boneOrder).Ok? ==>
      var j := LoadJoint(node, isRoot, boneOrder).value;
      && node.GetChild("-id").Some?
      && j.nameId == node.GetChild("-id").value.GetString()
      && j.index == FirstIndexOf(boneOrder, j.nameId)
      && j.transform.corrected == isRoot
      && (node.GetChild("node").None? ==> j.children == [])
      && (node.GetChild("node").Some? && node.GetChild("node").value.GetChild("-id").None? ==>
            Ok(j.children) == LoadJoints(node.GetChild("node").value.children, boneOrder))
      && (node.GetChild("node").Some? && node.GetChild("node").value.GetChild("-id").Some? ==>
            |j.children| == 1 && Ok(j.children[0]) == LoadJoint(node.GetChild("node").value, false, boneOrder))
  {
  }

  /** Every joint of a loaded tree carries the bone-order index of its own name. */
  lemma {:induction false} LoadJointIndexed(node: ValueTree, isRoot: bool, boneOrder: seq<string>)
    requires LoadJoint(node, isRoot, boneOrder).Ok?
    ensures Indexed(LoadJoint(node, isRoot, boneOrder).value, boneOrder)
    decreases node, 1
  {
    var j := LoadJoint(node, isRoot, boneOrder).value;
    var head := ExtractJoint(node, isRoot, boneOrder).value;
    assert head.index == FirstIndexOf(boneOrder, head.nameId);
    assert j == head.(children := j.children);
    var child := node.GetChild("node");
    if child.Some? {
      if child.value.GetChild("-id").None? {
        LoadJointsIndexed(child.value.children, boneOrder);
      } else if |child.value.children| > 0 {
        LoadJointIndexed(child.value, false, boneOrder);
      }
    }
    assert forall i :: 0 <= i < |j.children| ==> Indexed(j.children[i], boneOrder);
  }

  lemma {:induction false} LoadJointsIndexed(nodes: seq<ValueTree>, boneOrder: seq<string>)
    requires LoadJoints(nodes, boneOrder).Ok?
    ensures forall i :: 0 <= i < |LoadJoints(nodes, boneOrder).value| ==> Indexed(LoadJoints(nodes, boneOrder).value[i], boneOrder)
    decreases nodes, 0
  {
    if nodes != [] {
      LoadJointsIndexed(nodes[..|nodes| - 1], boneOrder);
      LoadJointIndexed(nodes[|nodes| - 1], false, boneOrder);
    }
  }

  /** Only the joint built with isRoot set is corrected: every joint below it is not. */
  lemma {:induction false} LoadJointRootOnly(node: ValueTree, isRoot: bool, boneOrder: seq<string>)
    requires LoadJoint(node, isRoot, boneOrder).Ok?
    ensures var j := LoadJoint(node, isRoot, boneOrder).value;
      j.transform.corrected == isRoot && forall i :: 0 <= i < |j.children| ==> NoneCorrected(j.children[i])
    decreases node, 1
  {
    var child := node.GetChild("node");
    if child.Some? {
      if child.value.GetChild("-id").None? {
        LoadJointsRootOnly(child.value.children, boneOrder);
      } else if |child.value.children| > 0 {
        LoadJointRootOnly(child.value, false, boneOrder);
      }
    }
  }

  lemma {:induction false} LoadJointsRootOnly(nodes: seq<ValueTree>, boneOrder: seq<string>)
    requires LoadJoints(nodes, boneOrder).Ok?
    ensures forall i :: 0 <= i < |LoadJoints(nodes, boneOrder).value| ==> NoneCorrected(LoadJoints(nodes, boneOrder).value[i])
    decreases nodes, 0
  {
    if nodes != [] {
      LoadJointsRootOnly(nodes[..|nodes| - 1], boneOrder);
      LoadJointRootOnly(nodes[|nodes| - 1], false, boneOrder);
    }
  }

  class SkeletonLoader {
    const boneOrder: seq<string>
    var armatureData: Option<ValueTree>
    var jointCount: nat
    var headJoint: Result<JointData, LoadError>

    /**
     * Finds the armature, loads the joint tree from its head node and leaves
     * the joint count equal to the size of that tree.
     */
    constructor (libraryControllers: ValueTree, boneOrder: seq<string>)
      ensures this.boneOrder == boneOrder
      ensures headJoint == LoadSkeleton(libraryControllers, boneOrder)
      ensures libraryControllers.GetChild("visual_scene").None? ==> armatureData.None?
      ensures libraryControllers.GetChild("visual_scene").Some? ==>
        armatureData == libraryControllers.GetChild("visual_scene").value.GetChildWithAttribute("node", "-id", "Armature")
      ensures headJoint.Ok? ==> jointCount == Size(headJoint.value)
    {
      this.boneOrder := boneOrder;
      armatureData := None;
      jointCount := 0;
      headJoint := Err(NullChild("visual_scene"));
      new;
      var scene := libraryControllers.GetChild("visual_scene");
      if scene.None? {
        return;
      }
      armatureData := scene.value.GetChildWithAttribute("node", "-id", "Armature");
      if armatureData.None? {
        headJoint := Err(NullChild("Armature"));
        return;
      }
      var headNode := armatureData.value.GetChild("node");
      if headNode.None? {
        headJoint := Err(NullChild("node"));
        return;
      }
      headJoint := LoadJointData(headNode.value, true);
    }

    /** The position of the first bone named `name` in the bone order, or -1 when there is none. */
    method GetBoneIndex(name: string) returns (r: int)
      ensures r == FirstIndexOf(boneOrder, name)
      ensures -1 <= r < |boneOrder|
      ensures r == -1 <==> name !in boneOrder
      ensures r >= 0 ==> boneOrder[r] == name && forall k :: 0 <= k < r ==> boneOrder[k] != name
    {
      var i := 0;
      while i < |boneOrder|
        invariant 0 <= i <= |boneOrder|
        invariant name !in boneOrder[..i]
      {
        if boneOrder[i] == name {
          assert boneOrder[..i + 1] == boneOrder[..i] + [name];
          return i;
        }
        assert boneOrder[..i + 1] == boneOrder[..i] + [boneOrder[i]];
        i := i + 1;
      }
      assert boneOrder[..i] == boneOrder;
      return -1;
    }

    /** Reads one joint's name, index and transform and counts it. */
    method ExtractMainJointData(node: ValueTree, isRoot: bool) returns (r: Result<JointData, LoadError>)
      modifies this`jointCount
      ensures r == ExtractJoint(node, isRoot, boneOrder)
      ensures jointCount == old(jointCount) + if r.Ok? then 1 else 0
    {
      var id := node.GetChild("-id");
      if id.None? {
        return Err(NullChild("-id"));
      }
      var nameId := id.value.GetString();
      var index := GetBoneIndex(nameId);
      var matrix := node.GetChild("matrix");
      if matrix.None? {
        return Err(NullChild("matrix"));
      }
      var text := matrix.value.GetChild("#text");
      if text.None? {
        return Err(NullChild("#text"));
      }
      jointCount := jointCount + 1;
      return Ok(JointData(index, nameId, Transform(text.value.GetString(), isRoot), []));
    }

    /** Builds the joint tree of a node, counting every joint it builds. */
    method LoadJointData(node: ValueTree, isRoot: bool) returns (r: Result<JointData, LoadError>)
      modifies this`jointCount
      decreases node, 1
      ensures r == LoadJoint(node, isRoot, boneOrder)
      ensures r.Ok? ==> jointCount == old(jointCount) + Size(r.value)
    {
      r := ExtractMainJointData(node, isRoot);
      if r.Err? {
        return;
      }
      var joint := r.value;
      assert Size(joint) == 1;
      var child := node.GetChild("node");
      if child.Some? {
        if child.value.GetChild("-id").None? {
          var subs := LoadJointList(child.value.children);
          if subs.Err? {
            return Err(subs.error);
          }
          joint := joint.(children := subs.value);
        } else if |child.value.children| > 0 {
          var sub := LoadJointData(child.value, false);
          if sub.Err? {
            return Err(sub.error);
          }
          assert [sub.value][..0] == [];
          assert SizeAll([sub.value]) == Size(sub.value);
          joint := joint.(children := [sub.value]);
        }
      }
      assert Size(joint) == 1 + SizeAll(joint.children);
      return Ok(joint);
    }

    /** The loop of LoadJointData that builds one child joint per node, in order. */
    method LoadJointList(nodes: seq<ValueTree>) returns (r: Result<seq<JointData>, LoadError>)
      modifies this`jointCount
      decreases nodes, 0
      ensures r == LoadJoints(nodes, boneOrder)
      ensures r.Ok? ==> jointCount == old(jointCount) + SizeAll(r.value)
    {
      var joints: seq<JointData> := [];
      var i := 0;
      while i < |nodes|
        invariant 0 <= i <= |nodes|
        invariant LoadJoints(nodes[..i], boneOrder) == Ok(joints)
        invariant jointCount == old(jointCount) + SizeAll(joints)
      {
        assert nodes[..i + 1][..i] == nodes[..i];
        var sub := LoadJointData(nodes[i], false);
        if sub.Err? {
          LoadJointsPrefixFails(nodes, i + 1, boneOrder, sub.error);
          return Err(sub.error);
        }
        var grown := joints + [sub.value];
        assert grown[..|grown| - 1] == joints;
        joints := grown;
        i := i + 1;
      }
      assert nodes[..i] == nodes;
      return Ok(joints);
    }
  }
}
