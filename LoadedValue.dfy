/**
 * The loaded-file value tree: a named node holding a string value, an
 * attribute map and an ordered list of children.  The class is the mutable
 * node the setters work on; ValueTree is an immutable snapshot of a subtree,
 * which is how the skeleton loader reads a parsed file.
 */
module Files {
  import opened Wrappers
  import opened Lookup

  /** The names of a list of nodes, in order. */
  function NamesOf(cs: seq<LoadedValue>): (r: seq<string>)
    reads set c | c in cs
    ensures |r| == |cs| && forall i :: 0 <= i < |cs| ==> r[i] == cs[i].name
  {
    if cs == [] then [] else [cs[0].name] + NamesOf(cs[1..])
  }

  class LoadedValue {
    var parent: LoadedValue?
    var children: seq<LoadedValue>
    var name: string
    var value: string
    var attributes: map<string, string>

    constructor (parent: LoadedValue?, name: string, value: string, attributes: map<string, string>)
      ensures this.parent == parent && this.name == name && this.value == value
      ensures this.attributes == attributes && children == []
    {
      this.parent := parent;
      this.name := name;
      this.value := value;
      this.attributes := attributes;
      children := [];
    }

    function GetName(): (r: string)
      reads this
      ensures r == name
    {
      name
    }

    function GetValue(): (r: string)
      reads this
      ensures r == value
    {
      value
    }

    function GetAttributes(): (r: map<string, string>)
      reads this
      ensures r == attributes
    {
      attributes
    }

    /** Stores the name; value, attributes, parent and children are untouched. */
    method SetName(n: string)
      modifies this`name
      ensures GetName() == n
    {
      name := n;
    }

    /** Stores the value; name, attributes, parent and children are untouched. */
    method SetValue(data: string)
      modifies this`value
      ensures GetValue() == data
    {
      value := data;
    }

    /** Stores the textual form of `data` as the value. */
    method Set<T>(data: T, toString: T -> string)
      modifies this`value
      ensures GetValue() == toString(data)
    {
      SetValue(toString(data));
    }

    /**
     * A child with the given name, or null exactly when no child has it.
     * Nothing more is promised about which child is returned.
     */
    function GetChild(n: string): (r: LoadedValue?)
      reads this, set c | c in children
      ensures r == null <==> forall c :: c in children ==> c.name != n
      ensures r != null ==> r in children && r.name == n
    {
      var i := FirstIndexOf(NamesOf(children), n);
      if i < 0 then null else children[i]
    }

    /** The child object an upsert of `n` may change: the one GetChild finds, if any. */
    function ChildFrame(n: string): (r: set<LoadedValue>)
      reads this, set c | c in children
      ensures forall c :: c in r ==> c in children && c.name == n
    {
      if GetChild(n) == null then {} else {GetChild(n)}
    }

    /**
     * Upsert: when a child has the name, only that child's value is replaced;
     * otherwise one new child with that name, the value's textual form and
     * this node as parent is appended.
     */
    method SetChild<T>(n: string, v: T, toString: T -> string)
      requires this !in children
      modifies this`children, ChildFrame(n)
      ensures |children| >= |old(children)| && children[..|old(children)|] == old(children)
      ensures old(GetChild(n)) == null ==>
        |children| == |old(children)| + 1 && fresh(children[|children| - 1])
      ensures old(GetChild(n)) == null ==>
        var c := children[|children| - 1];
        c.name == n && c.value == toString(v) && c.parent == this && c.children == [] && c.attributes == map[]
      ensures old(GetChild(n)) != null ==> children == old(children) && old(GetChild(n)).value == toString(v)
      ensures old(GetChild(n)) != null ==>
        var c := old(GetChild(n));
        c.name == n && c.parent == old(c.parent) && c.children == old(c.children) && c.attributes == old(c.attributes)
      ensures this !in children
      ensures GetChild(n) == if old(GetChild(n)) == null then children[|children| - 1] else old(GetChild(n))
      ensures GetChild(n) != null && GetChild(n).value == toString(v)
    {
      var strValue := toString(v);
      var child := GetChild(n);
      if child == null {
        child := new LoadedValue(this, n, strValue, map[]);
        children := children + [child];
        return;
      }
      ghost var names := NamesOf(children);
      child.value := strValue;
      assert NamesOf(children) == names;
    }
  }

  /** Setting the same child twice adds at most one child, and the second value is the one read back. */
  method SetChildTwice<T>(node: LoadedValue, n: string, first: T, second: T, toString: T -> string)
    requires node !in node.children
    modifies node`children, node.ChildFrame(n)
    ensures |old(node.children)| <= |node.children| <= |old(node.children)| + 1
    ensures node.GetChild(n) != null && node.GetChild(n).value == toString(second)
  {
    node.SetChild(n, first, toString);
    node.SetChild(n, second, toString);
  }

  /** An immutable snapshot of a loaded node and its subtree. */
  datatype ValueTree = ValueTree(name: string, value: string, attributes: map<string, string>, children: seq<ValueTree>)
  {
    /**
     * A child with the given name, or None exactly when no child has it: the
     * snapshot counterpart of LoadedValue.GetChild, by the same first match.
     */
    function GetChild(n: string): (r: Option<ValueTree>)
      ensures r.None? <==> forall c :: c in children ==> c.name != n
      ensures r.Some? ==> r.value in children && r.value.name == n
    {
      var i := FirstIndexOf(Names(children), n);
      if i < 0 then None else Some(children[i])
    }

    /**
     * A child named `childName` whose attribute `attribute` equals `v`, or None
     * exactly when no child qualifies.
     */
    function GetChildWithAttribute(childName: string, attribute: string, v: string): (r: Option<ValueTree>)
      ensures r.None? <==> forall c :: c in children ==> !HasAttribute(c, childName, attribute, v)
      ensures r.Some? ==> r.value in children && HasAttribute(r.value, childName, attribute, v)
    {
      FirstWithAttribute(children, childName, attribute, v)
    }

    /** The node's text: the snapshot counterpart of LoadedValue.GetValue. */
    function GetString(): (r: string)
      ensures r == value
    {
      value
    }
  }

  /** The names of a list of subtrees, in order. */
  function Names(ts: seq<ValueTree>): (r: seq<string>)
    ensures |r| == |ts| && forall i :: 0 <= i < |ts| ==> r[i] == ts[i].name
  {
    seq(|ts|, i requires 0 <= i < |ts| => ts[i].name)
  }

  /**
   * `t` is named `childName` and carries `attribute` with text `v`, either in
   * its attribute map or as a child of that name (the form in which the
   * skeleton loader reads a node's "-id").
   */
  predicate HasAttribute(t: ValueTree, childName: string, attribute: string, v: string)
  {
    && t.name == childName
    && ((attribute in t.attributes && t.attributes[attribute] == v)
        || (t.GetChild(attribute).Some? && t.GetChild(attribute).value.GetString() == v))
  }

  /**
   * Any scene with a "node" child whose "-id" is held as a child with text
   * "Armature", as the skeleton loader's nodes hold their ids, has an
   * Armature the lookup finds.
   */
  lemma ArmatureFound(scene: ValueTree, i: nat)
    requires i < |scene.children| && scene.children[i].name == "node"
    requires scene.children[i].GetChild("-id").Some? && scene.children[i].GetChild("-id").value.GetString() == "Armature"
    ensures scene.GetChildWithAttribute("node", "-id", "Armature").Some?
  {
    assert HasAttribute(scene.children[i], "node", "-id", "Armature");
  }

  function FirstWithAttribute(ts: seq<ValueTree>, childName: string, attribute: string, v: string): (r: Option<ValueTree>)
    ensures r.None? <==> forall c :: c in ts ==> !HasAttribute(c, childName, attribute, v)
    ensures r.Some? ==> r.value in ts && HasAttribute(r.value, childName, attribute, v)
  {
    if ts == [] then None
    else if HasAttribute(ts[0], childName, attribute, v) then Some(ts[0])
    else FirstWithAttribute(ts[1..], childName, attribute, v)
  }
}
