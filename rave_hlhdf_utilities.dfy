/**
 * How the toolkit lays its objects out in an HLHDF node list
 * (rave_hlhdf_utilities.c): node names built in 1024-character buffers,
 * attributes under the how/, what/ and where/ groups of an object, the
 * dataset "data" with its dimensions stored as [ysize, xsize], and the walk
 * that hands every node under an object's name back to the object.
 *
 * A node list is a sequence of nodes in insertion order; a node carries its
 * name, kind, format specifier, dimensions and a symbolic payload. Formatting
 * a name from a printf format and its arguments is not modelled: callers pass
 * the formatted name itself.
 */
module RaveHlhdf {
  import opened Wrappers
  import opened RaveHlhdfTypes

  /** The size of every name buffer; a formatted name must be shorter than this. */
  const NameLimit: nat := 1024

  /** ASCII lower case, the folding strncasecmp and strcasecmp apply. */
  function Lower(c: char): char {
    if 'A' <= c <= 'Z' then (c as int + 32) as char else c
  }

  /** s starts with p, ignoring ASCII case (strncasecmp(s, p, |p|) == 0). */
  predicate StartsWithCI(s: string, p: string) {
    |s| >= |p| && forall i :: 0 <= i < |p| ==> Lower(s[i]) == Lower(p[i])
  }

  /** s equals p, ignoring ASCII case (strcasecmp(s, p) == 0). */
  predicate EqualsCI(s: string, p: string) {
    |s| == |p| && StartsWithCI(s, p)
  }

  /** The attribute names an object may carry: under how/, what/ or where/, in any case. */
  predicate InAttributeGroup(attrname: string) {
    StartsWithCI(attrname, "how/") || StartsWithCI(attrname, "what/") || StartsWithCI(attrname, "where/")
  }

  /** Where p has a '/', every s that starts with p (ignoring case) has one too. */
  lemma SlashSurvivesFolding(s: string, p: string, k: nat)
    requires StartsWithCI(s, p) && k < |p| && p[k] == '/'
    ensures s[k] == '/'
  {
    assert Lower(s[k]) == '/';
  }

  /** An accepted attribute name contains a '/'. */
  lemma GroupedNameHasSlash(attrname: string)
    requires InAttributeGroup(attrname)
    ensures '/' in attrname
  {
    if StartsWithCI(attrname, "how/") {
      SlashSurvivesFolding(attrname, "how/", 3);
    } else if StartsWithCI(attrname, "what/") {
      SlashSurvivesFolding(attrname, "what/", 4);
    } else {
      SlashSurvivesFolding(attrname, "where/", 5);
    }
  }

  /** The value of a RaveAttribute, by its format. */
  datatype AttrValue =
    | LongValue(l: int)
    | DoubleValue(d: real)
    | StringValue(s: Option<string>)
    | OtherValue

  /** A RaveAttribute: an optional name and a value. */
  datatype RaveAttribute = RaveAttribute(name: Option<string>, value: AttrValue)

  /** The HLHDF node types the code distinguishes. */
  datatype NodeKind = GroupNode | AttributeNode | DatasetNode

  /** What a node holds: a scalar written by the toolkit, or an array payload identified by its buffer. */
  datatype NodeData = NoData | IntData(i: int) | RealData(r: real) | TextData(t: string) | ArrayData(buffer: nat)

  /** An HLHDF node. */
  datatype HlNode = HlNode(name: string, kind: NodeKind, format: HlFormat, dims: seq<nat>, data: NodeData)

  /** The names present in a node list. */
  function NamesOf(nodes: seq<HlNode>): (r: set<string>)
    ensures forall i :: 0 <= i < |nodes| ==> nodes[i].name in r
    ensures forall n :: n in r ==> exists i :: 0 <= i < |nodes| && nodes[i].name == n
  {
    set i | 0 <= i < |nodes| :: nodes[i].name
  }

  /** HLNodeList_getNodeByName: the first node with exactly this name. */
  function FindNode(nodes: seq<HlNode>, name: string): (r: Option<HlNode>)
    ensures r.Some? <==> name in NamesOf(nodes)
    ensures r.Some? ==> r.value in nodes && r.value.name == name
  {
    if nodes == [] then None
    else if nodes[0].name == name then Some(nodes[0])
    else
      var r := FindNode(nodes[1..], name);
      assert NamesOf(nodes) == {nodes[0].name} + NamesOf(nodes[1..]) by {
        forall n | n in NamesOf(nodes) ensures n in {nodes[0].name} + NamesOf(nodes[1..]) {
          var i :| 0 <= i < |nodes| && nodes[i].name == n;
          if i > 0 {
            assert nodes[1..][i - 1].name == n;
          }
        }
      }
      r
  }

  /** A node appended under a new name is the one a lookup of that name finds. */
  lemma {:induction false} FindAppended(nodes: seq<HlNode>, n: HlNode)
    requires n.name !in NamesOf(nodes)
    ensures FindNode(nodes + [n], n.name) == Some(n)
  {
    if nodes != [] {
      assert (nodes + [n])[1..] == nodes[1..] + [n];
      assert nodes[0].name != n.name;
      assert NamesOf(nodes[1..]) <= NamesOf(nodes) by {
        forall i | 0 <= i < |nodes[1..]| ensures nodes[1..][i].name in NamesOf(nodes) {
          assert nodes[1..][i] == nodes[i + 1];
        }
      }
      FindAppended(nodes[1..], n);
    }
  }

  /** A lookup of a name already present is not disturbed by appending another node. */
  lemma {:induction false} FindAfterAppend(nodes: seq<HlNode>, n: HlNode, name: string)
    requires name in NamesOf(nodes)
    ensures FindNode(nodes + [n], name) == FindNode(nodes, name)
  {
    assert (nodes + [n])[0] == nodes[0];
    if nodes[0].name != name {
      assert (nodes + [n])[1..] == nodes[1..] + [n];
      var i :| 0 <= i < |nodes| && nodes[i].name == name;
      assert nodes[1..][i - 1].name == name;
      FindAfterAppend(nodes[1..], n, name);
    }
  }

  /** How many nodes of a list carry a given name. */
  function CountNamed(nodes: seq<HlNode>, name: string): nat {
    if nodes == [] then 0
    else (if nodes[0].name == name then 1 else 0) + CountNamed(nodes[1..], name)
  }

  /** Counting names distributes over concatenation. */
  lemma {:induction false} CountNamedAppend(a: seq<HlNode>, b: seq<HlNode>, name: string)
    ensures CountNamed(a + b, name) == CountNamed(a, name) + CountNamed(b, name)
  {
    if a != [] {
      assert (a + b)[0] == a[0] && (a + b)[1..] == a[1..] + b;
      CountNamedAppend(a[1..], b, name);
    } else {
      assert a + b == b;
    }
  }

  /** RaveHL_createAttribute, integer branch: the stored integer (the byte reinterpretation is not modelled). */
  function IntOf(d: NodeData): int {
    if d.IntData? then d.i else 0
  }

  /** RaveHL_createAttribute, floating-point branch: the stored real. */
  function RealOf(d: NodeData): real {
    if d.RealData? then d.r else 0.0
  }

  /** RaveHL_createAttribute, string branch: the stored text. */
  function TextOf(d: NodeData): string {
    if d.TextData? then d.t else ""
  }

  /**
   * RaveHL_createAttribute: an unnamed attribute read from a node, a long for
   * the integer specifiers, a double for the floating-point ones, a string for
   * HLHDF_STRING, and none for every other specifier.
   */
  function CreateAttribute(node: HlNode): (r: Option<RaveAttribute>)
    ensures r.Some? <==> IsIntegerFormat(node.format) || IsRealFormat(node.format) || node.format == HlString
    ensures r.Some? ==> r.value.name == None
    ensures r.Some? && IsIntegerFormat(node.format) ==> r.value.value.LongValue?
    ensures r.Some? && IsRealFormat(node.format) ==> r.value.value.DoubleValue?
    ensures r.Some? && node.format == HlString ==> r.value.value == StringValue(Some(TextOf(node.data)))
  {
    if IsIntegerFormat(node.format) then Some(RaveAttribute(None, LongValue(IntOf(node.data))))
    else if IsRealFormat(node.format) then Some(RaveAttribute(None, DoubleValue(RealOf(node.data))))
    else if node.format == HlString then Some(RaveAttribute(None, StringValue(Some(TextOf(node.data)))))
    else None
  }

  /** RaveHL_getAttribute: the attribute stored under a name, named by that full name. */
  function GetAttribute(nodes: seq<HlNode>, name: string): (r: Option<RaveAttribute>)
    ensures r.Some? ==> |name| < NameLimit && name in NamesOf(nodes) && r.value.name == Some(name)
  {
    if |name| >= NameLimit then None
    else match FindNode(nodes, name)
      case None => None
      case Some(node) =>
        match CreateAttribute(node)
        case None => None
        case Some(a) => Some(a.(name := Some(name)))
  }

  /** RaveHL_hasNodeByName: a name too long for the buffer is never found. */
  function HasNodeByName(nodes: seq<HlNode>, name: string): (r: bool)
    ensures r <==> |name| < NameLimit && name in NamesOf(nodes)
  {
    |name| < NameLimit && FindNode(nodes, name).Some?
  }

  /** RaveHL_getStringValue: the text of the named node, only when it is a string node. */
  function GetStringValue(nodes: seq<HlNode>, name: string): (r: Option<string>)
    ensures r.Some? ==> |name| < NameLimit && name in NamesOf(nodes)
    ensures r.Some? ==> FindNode(nodes, name).value.format == HlString
  {
    if |name| >= NameLimit then None
    else match FindNode(nodes, name)
      case None => None
      case Some(node) => if node.format == HlString then Some(TextOf(node.data)) else None
  }

  /** The group node RaveHL_createGroup adds. */
  function GroupNamed(name: string): HlNode {
    HlNode(name, GroupNode, HlUndefined, [], NoData)
  }

  /** The string attribute node RaveHL_createStringValue adds. */
  function StringNode(name: string, value: string): HlNode {
    HlNode(name, AttributeNode, HlString, [], TextData(value))
  }

  /**
   * The dataset node RaveHL_createDataset adds: the rank-2 dimensions are
   * stored as [ysize, xsize], and the specifier translates back to the type.
   */
  function DatasetNodeFor(name: string, buffer: nat, xsize: nat, ysize: nat, t: RaveDataType): (r: HlNode)
    ensures r.name == name && r.kind == DatasetNode && r.data == ArrayData(buffer)
    ensures Dim(r, 0) == ysize && Dim(r, 1) == xsize
    ensures t != Undefined ==> HlhdfToRaveType(r.format) == t
  {
    HlNode(name, DatasetNode, RaveToHlhdfType(t), [ysize, xsize], ArrayData(buffer))
  }

  /** What RaveHL_addAttribute does to a node list: fail, succeed without a new node, or add one node. */
  datatype AddOutcome = Fail | Skip | AddNode(node: HlNode) {
    function Ok(): bool { !Fail? }
    function Apply(nodes: seq<HlNode>): seq<HlNode> {
      if AddNode? then nodes + [node] else nodes
    }
  }

  /**
   * The node that holds an attribute value, or what happens when the value is
   * not stored: a NULL string is skipped and a value of another format fails.
   */
  function AttributeOutcome(full: string, v: AttrValue): (r: AddOutcome)
    ensures r.Fail? <==> v.OtherValue?
    ensures r.Skip? <==> v == StringValue(None)
    ensures r.AddNode? ==> r.node.name == full && r.node.kind == AttributeNode
  {
    match v
    case LongValue(l) => AddNode(HlNode(full, AttributeNode, HlLong, [], IntData(l)))
    case DoubleValue(d) => AddNode(HlNode(full, AttributeNode, HlDouble, [], RealData(d)))
    case StringValue(s) => if s.Some? then AddNode(StringNode(full, s.value)) else Skip
    case OtherValue => Fail
  }

  /**
   * RaveHL_addAttribute as written: the node "<name>/<attrname>" is formatted
   * into a second 1024-character buffer with no length check.
   */
  function AddAttributeAsWritten(nodes: seq<HlNode>, attr: RaveAttribute, name: string): AddOutcome {
    if |name| >= NameLimit || attr.name.None? then Fail
    else
      var full := name + "/" + attr.name.value;
      if full in NamesOf(nodes) then Skip
      else AttributeOutcome(full, attr.value)
  }

  /**
   * RaveHL_addAttribute with the evidently intended bound: a full node name
   * that does not fit the 1024-character buffer fails like a long prefix does.
   */
  function AddAttributeOutcome(nodes: seq<HlNode>, attr: RaveAttribute, name: string): (r: AddOutcome)
    ensures r.Ok() ==> |name| < NameLimit && attr.name.Some?
    ensures r.AddNode? ==> r.node.name == name + "/" + attr.name.value && r.node.name !in NamesOf(nodes)
    ensures r.AddNode? ==> |r.node.name| < NameLimit && r.node.kind == AttributeNode
  {
    if |name| >= NameLimit || attr.name.None? then Fail
    else
      var full := name + "/" + attr.name.value;
      if |full| >= NameLimit then Fail
      else if full in NamesOf(nodes) then Skip
      else AttributeOutcome(full, attr.value)
  }

  /**
   * The two successes of RaveHL_addAttribute that add nothing: a node already
   * present under the full name, and a string attribute whose value is NULL.
   */
  lemma AddAttributeSkips(nodes: seq<HlNode>, attr: RaveAttribute, name: string)
    requires |name| < NameLimit && attr.name.Some? && |name + "/" + attr.name.value| < NameLimit
    ensures name + "/" + attr.name.value in NamesOf(nodes) ==> AddAttributeOutcome(nodes, attr, name) == Skip
    ensures attr.value == StringValue(None) ==> AddAttributeOutcome(nodes, attr, name) == Skip
    ensures AddAttributeOutcome(nodes, attr, name) == Skip ==> AddAttributeOutcome(nodes, attr, name).Apply(nodes) == nodes
  {
  }

  /** Applying an outcome keeps every node that was there, in front. */
  lemma ApplyKeeps(o: AddOutcome, nodes: seq<HlNode>)
    ensures |o.Apply(nodes)| >= |nodes| && o.Apply(nodes)[..|nodes|] == nodes
    ensures NamesOf(nodes) <= NamesOf(o.Apply(nodes))
  {
    if o.AddNode? {
      assert forall i :: 0 <= i < |nodes| ==> o.Apply(nodes)[i] == nodes[i];
    }
  }

  /** After a successful add of a valued attribute, its node name is present (added now or found before). */
  lemma StoredNamePresent(nodes: seq<HlNode>, attr: RaveAttribute, name: string)
    requires AddAttributeOutcome(nodes, attr, name).Ok() && attr.value != StringValue(None)
    ensures name + "/" + attr.name.value in NamesOf(AddAttributeOutcome(nodes, attr, name).Apply(nodes))
  {
    var o := AddAttributeOutcome(nodes, attr, name);
    if o.AddNode? {
      assert o.Apply(nodes)[|nodes|] == o.node;
    } else {
      ApplyKeeps(o, nodes);
    }
  }

  /** Within the buffer the corrected outcome is the written one. */
  lemma AddAttributeAgreesWhenItFits(nodes: seq<HlNode>, attr: RaveAttribute, name: string)
    requires attr.name.Some? && |name| + 1 + |attr.name.value| < NameLimit
    ensures AddAttributeOutcome(nodes, attr, name) == AddAttributeAsWritten(nodes, attr, name)
  {
  }

  /**
   * The written code builds names that do not fit its buffer: a 1000-character
   * object name and a 100-character attribute name give a 1105-character node
   * name written into 1024 characters.
   */
  lemma AddAttributeOverflows()
    ensures var attr := RaveAttribute(Some("how/" + seq(100, _ => 'x')), LongValue(1));
            var o := AddAttributeAsWritten([], attr, seq(1000, _ => 'a'));
            o.AddNode? && |o.node.name| >= NameLimit
  {
    var attr := RaveAttribute(Some("how/" + seq(100, _ => 'x')), LongValue(1));
    var name := seq(1000, _ => 'a');
    assert NamesOf([]) == {};
    assert |name + "/" + attr.name.value| == 1105;
  }

  /** The corrected outcome never adds a node whose name does not fit the buffer, whatever the input. */
  lemma AddedNamesFit(nodes: seq<HlNode>, attr: RaveAttribute, name: string)
    ensures AddAttributeOutcome(nodes, attr, name).AddNode? ==>
              |AddAttributeOutcome(nodes, attr, name).node.name| < NameLimit
  {
  }

  /**
   * Round trip: an attribute RaveHL_addAttribute stores as a new node is what
   * RaveHL_getAttribute reads back under "<name>/<attrname>", with that full name.
   */
  lemma AddThenGetAttribute(nodes: seq<HlNode>, attr: RaveAttribute, name: string)
    requires AddAttributeOutcome(nodes, attr, name).AddNode?
    ensures var full := name + "/" + attr.name.value;
            GetAttribute(AddAttributeOutcome(nodes, attr, name).Apply(nodes), full)
              == Some(RaveAttribute(Some(full), attr.value))
  {
    var full := name + "/" + attr.name.value;
    assert AddAttributeOutcome(nodes, attr, name) == AttributeOutcome(full, attr.value);
    StoredValueReadsBack(full, attr.value);
    FindAppended(nodes, AttributeOutcome(full, attr.value).node);
  }

  /** The node that holds an attribute value reads back as that value, still unnamed. */
  lemma StoredValueReadsBack(full: string, v: AttrValue)
    requires AttributeOutcome(full, v).AddNode?
    ensures CreateAttribute(AttributeOutcome(full, v).node) == Some(RaveAttribute(None, v))
  {
    match v
    case LongValue(l) =>
    case DoubleValue(d) =>
    case StringValue(s) =>
  }

  /** Round trip: a string stored by RaveHL_createStringValue is what RaveHL_getStringValue reads back. */
  lemma StringValueRoundTrip(nodes: seq<HlNode>, name: string, value: string)
    requires |name| < NameLimit && name !in NamesOf(nodes)
    ensures GetStringValue(nodes + [StringNode(name, value)], name) == Some(value)
  {
    FindAppended(nodes, StringNode(name, value));
  }

  /** The CLASS="IMAGE" attribute RaveHL_addData puts on an 8-bit unsigned dataset. */
  const ImageClass := RaveAttribute(Some("CLASS"), StringValue(Some("IMAGE")))

  /** The IMAGE_VERSION="1.2" attribute RaveHL_addData puts on an 8-bit unsigned dataset. */
  const ImageVersion := RaveAttribute(Some("IMAGE_VERSION"), StringValue(Some("1.2")))

  /**
   * The image attributes of RaveHL_addData on a dataset: CLASS is added
   * first; IMAGE_VERSION is added only when that succeeds. Returns the
   * success flag and the new node list.
   */
  function ImageAttributesSpec(nodes: seq<HlNode>, dataset: string): (bool, seq<HlNode>) {
    var o1 := AddAttributeOutcome(nodes, ImageClass, dataset);
    if !o1.Ok() then (false, nodes)
    else
      var o2 := AddAttributeOutcome(o1.Apply(nodes), ImageVersion, dataset);
      (o2.Ok(), o2.Apply(o1.Apply(nodes)))
  }

  /** A string attribute under a fresh name that fits is added as one string node. */
  lemma AddFreshString(nodes: seq<HlNode>, attrname: string, value: string, name: string)
    requires |name + "/" + attrname| < NameLimit && name + "/" + attrname !in NamesOf(nodes)
    ensures AddAttributeOutcome(nodes, RaveAttribute(Some(attrname), StringValue(Some(value))), name)
              == AddNode(StringNode(name + "/" + attrname, value))
  {
  }

  /** Appending a node adds exactly its name. */
  lemma NamesOfAppend(nodes: seq<HlNode>, n: HlNode)
    ensures NamesOf(nodes + [n]) == NamesOf(nodes) + {n.name}
  {
    forall x | x in NamesOf(nodes + [n]) ensures x in NamesOf(nodes) + {n.name} {
      var i :| 0 <= i < |nodes + [n]| && (nodes + [n])[i].name == x;
      if i < |nodes| {
        assert (nodes + [n])[i] == nodes[i];
      }
    }
    forall x | x in NamesOf(nodes) ensures x in NamesOf(nodes + [n]) {
      var i :| 0 <= i < |nodes| && nodes[i].name == x;
      assert (nodes + [n])[i] == nodes[i];
    }
    assert (nodes + [n])[|nodes|] == n;
  }

  /**
   * On a dataset whose name leaves room and that has neither attribute yet,
   * both attributes are added and read back as "IMAGE" and "1.2".
   */
  lemma ImageAttributesReadBack(nodes: seq<HlNode>, dataset: string)
    requires |dataset| + |"/IMAGE_VERSION"| < NameLimit
    requires dataset + "/CLASS" !in NamesOf(nodes) && dataset + "/IMAGE_VERSION" !in NamesOf(nodes)
    ensures ImageAttributesSpec(nodes, dataset).0
    ensures GetAttribute(ImageAttributesSpec(nodes, dataset).1, dataset + "/CLASS")
              == Some(RaveAttribute(Some(dataset + "/CLASS"), StringValue(Some("IMAGE"))))
    ensures GetAttribute(ImageAttributesSpec(nodes, dataset).1, dataset + "/IMAGE_VERSION")
              == Some(RaveAttribute(Some(dataset + "/IMAGE_VERSION"), StringValue(Some("1.2"))))
  {
    var classFull, versionFull := dataset + "/" + "CLASS", dataset + "/" + "IMAGE_VERSION";
    assert classFull == dataset + "/CLASS" && versionFull == dataset + "/IMAGE_VERSION";
    assert versionFull != classFull by {
      assert versionFull[|dataset| + 1] == 'I' && classFull[|dataset| + 1] == 'C';
    }
    AddFreshString(nodes, "CLASS", "IMAGE", dataset);
    var classNode := StringNode(classFull, "IMAGE");
    var withClass := nodes + [classNode];
    AddThenGetAttribute(nodes, ImageClass, dataset);
    NamesOfAppend(nodes, classNode);
    AddFreshString(withClass, "IMAGE_VERSION", "1.2", dataset);
    var versionNode := StringNode(versionFull, "1.2");
    AddThenGetAttribute(withClass, ImageVersion, dataset);
    assert ImageAttributesSpec(nodes, dataset) == (true, withClass + [versionNode]);
    FindAfterAppend(withClass, versionNode, classFull);
  }

  /** When the image attributes are reported added, both their names are present afterwards. */
  lemma ImageAttributesNamed(nodes: seq<HlNode>, dataset: string)
    requires ImageAttributesSpec(nodes, dataset).0
    ensures dataset + "/CLASS" in NamesOf(ImageAttributesSpec(nodes, dataset).1)
    ensures dataset + "/IMAGE_VERSION" in NamesOf(ImageAttributesSpec(nodes, dataset).1)
  {
    assert dataset + "/" + "CLASS" == dataset + "/CLASS";
    assert dataset + "/" + "IMAGE_VERSION" == dataset + "/IMAGE_VERSION";
    var o1 := AddAttributeOutcome(nodes, ImageClass, dataset);
    StoredNamePresent(nodes, ImageClass, dataset);
    var o2 := AddAttributeOutcome(o1.Apply(nodes), ImageVersion, dataset);
    StoredNamePresent(o1.Apply(nodes), ImageVersion, dataset);
    ApplyKeeps(o2, o1.Apply(nodes));
  }

  /** The group flags of RaveHL_addAttributes: whether name/how, name/what and name/where exist. */
  datatype Groups = Groups(hasHow: bool, hasWhat: bool, hasWhere: bool)

  /** The result of the group step of one RaveHL_addAttributes iteration. */
  datatype GroupStep = GroupStep(ok: bool, nodes: seq<HlNode>, groups: Groups)

  /**
   * The group step for one attribute name: creates the first missing group
   * that the name belongs to (what, then where, then how), or else checks that
   * the name belongs to one of them.
   */
  function GroupStepFor(nodes: seq<HlNode>, attrname: string, name: string, g: Groups): (r: GroupStep)
    ensures r.ok ==> InAttributeGroup(attrname)
  {
    if !g.hasWhat && StartsWithCI(attrname, "what/") then
      if |name + "/what"| < NameLimit then GroupStep(true, nodes + [GroupNamed(name + "/what")], g.(hasWhat := true))
      else GroupStep(false, nodes, g)
    else if !g.hasWhere && StartsWithCI(attrname, "where/") then
      if |name + "/where"| < NameLimit then GroupStep(true, nodes + [GroupNamed(name + "/where")], g.(hasWhere := true))
      else GroupStep(false, nodes, g)
    else if !g.hasHow && StartsWithCI(attrname, "how/") then
      if |name + "/how"| < NameLimit then GroupStep(true, nodes + [GroupNamed(name + "/how")], g.(hasHow := true))
      else GroupStep(false, nodes, g)
    else GroupStep(InAttributeGroup(attrname), nodes, g)
  }

  /** RaveHL_addAttributes from a given attribute on, with the name passed as an argument: the success flag and the node list it leaves. */
  function AddAttributesFrom(nodes: seq<HlNode>, attrs: seq<RaveAttribute>, name: string, g: Groups): (r: (bool, seq<HlNode>))
    ensures |r.1| >= |nodes| && r.1[..|nodes|] == nodes
    decreases |attrs|
  {
    if attrs == [] then (true, nodes)
    else if attrs[0].name.None? then (false, nodes)
    else
      var step := GroupStepFor(nodes, attrs[0].name.value, name, g);
      if !step.ok then (false, step.nodes)
      else
        var o := AddAttributeOutcome(step.nodes, attrs[0], name);
        if !o.Ok() then (false, step.nodes)
        else AddAttributesFrom(o.Apply(step.nodes), attrs[1..], name, step.groups)
  }

  /** The groups that exist before RaveHL_addAttributes starts: each flag is set exactly when its group node is present. */
  function InitialGroups(nodes: seq<HlNode>, name: string): (r: Groups)
    ensures r.hasHow <==> |name + "/how"| < NameLimit && name + "/how" in NamesOf(nodes)
    ensures r.hasWhat <==> |name + "/what"| < NameLimit && name + "/what" in NamesOf(nodes)
    ensures r.hasWhere <==> |name + "/where"| < NameLimit && name + "/where" in NamesOf(nodes)
  {
    Groups(HasNodeByName(nodes, name + "/how"), HasNodeByName(nodes, name + "/what"), HasNodeByName(nodes, name + "/where"))
  }

  /**
   * RaveHL_addAttributes: adds every attribute of attrs under name, stopping
   * at the first failure. It only appends, every node it appends lies under
   * "<name>/", and it succeeds only when every attribute is named under how/,
   * what/ or where/.
   */
  function AddAttributesSpec(nodes: seq<HlNode>, attrs: seq<RaveAttribute>, name: string): (r: (bool, seq<HlNode>))
    ensures |r.1| >= |nodes| && r.1[..|nodes|] == nodes
    ensures forall i :: |nodes| <= i < |r.1| ==> NamedUnder(r.1[i].name, name)
    ensures r.0 ==> forall i :: 0 <= i < |attrs| ==> attrs[i].name.Some? && InAttributeGroup(attrs[i].name.value)
  {
    var g := InitialGroups(nodes, name);
    AddedNodesUnderName(nodes, attrs, name, g);
    if AddAttributesFrom(nodes, attrs, name, g).0 then
      AddAttributesAcceptsOnlyGroups(nodes, attrs, name, g);
      AddAttributesFrom(nodes, attrs, name, g)
    else AddAttributesFrom(nodes, attrs, name, g)
  }

  /** The flag of a group, by its group. */
  function Flag(g: Groups, group: string): bool {
    if group == "how" then g.hasHow else if group == "what" then g.hasWhat else g.hasWhere
  }

  /** The three group labels. */
  predicate IsGroupLabel(group: string) {
    group == "how" || group == "what" || group == "where"
  }

  /** An attribute node name "<name>/<attrname>" with a '/' in attrname is never a group name "<name>/<group>". */
  lemma AttributeIsNotGroup(name: string, attrname: string, group: string)
    requires '/' in attrname && IsGroupLabel(group)
    ensures name + "/" + attrname != name + "/" + group
  {
    assert (name + "/" + attrname)[|name| + 1..] == attrname;
    assert (name + "/" + group)[|name| + 1..] == group;
  }

  /** A successful RaveHL_addAttributes accepted every attribute name: each is named and under how/, what/ or where/. */
  lemma {:induction false} AddAttributesAcceptsOnlyGroups(nodes: seq<HlNode>, attrs: seq<RaveAttribute>, name: string, g: Groups)
    requires AddAttributesFrom(nodes, attrs, name, g).0
    ensures forall i :: 0 <= i < |attrs| ==> attrs[i].name.Some? && InAttributeGroup(attrs[i].name.value)
    decreases |attrs|
  {
    if attrs != [] {
      var step := GroupStepFor(nodes, attrs[0].name.value, name, g);
      var o := AddAttributeOutcome(step.nodes, attrs[0], name);
      AddAttributesAcceptsOnlyGroups(o.Apply(step.nodes), attrs[1..], name, step.groups);
      forall i | 1 <= i < |attrs| ensures attrs[i].name.Some? && InAttributeGroup(attrs[i].name.value) {
        assert attrs[i] == attrs[1..][i - 1];
      }
    }
  }

  /** An attribute named outside the three groups makes RaveHL_addAttributes fail, wherever it is. */
  lemma RejectsUngroupedName(nodes: seq<HlNode>, attrs: seq<RaveAttribute>, name: string, k: nat)
    requires k < |attrs| && (attrs[k].name.None? || !InAttributeGroup(attrs[k].name.value))
    ensures !AddAttributesSpec(nodes, attrs, name).0
  {
    if AddAttributesSpec(nodes, attrs, name).0 {
      AddAttributesAcceptsOnlyGroups(nodes, attrs, name, InitialGroups(nodes, name));
    }
  }

  /**
   * Each group is created at most once, and not at all when its flag is set:
   * the nodes RaveHL_addAttributes appends hold at most one "<name>/<group>".
   */
  lemma {:induction false} GroupCreatedAtMostOnce(nodes: seq<HlNode>, attrs: seq<RaveAttribute>, name: string, g: Groups, group: string)
    requires IsGroupLabel(group)
    ensures CountNamed(AddAttributesFrom(nodes, attrs, name, g).1[|nodes|..], name + "/" + group) <= if Flag(g, group) then 0 else 1
    decreases |attrs|
  {
    var gname := name + "/" + group;
    var r := AddAttributesFrom(nodes, attrs, name, g).1;
    if attrs == [] || attrs[0].name.None? {
      assert r[|nodes|..] == [];
    } else {
      var an := attrs[0].name.value;
      var step := GroupStepFor(nodes, an, name, g);
      GroupStepCount(nodes, an, name, g, group);
      var o := AddAttributeOutcome(step.nodes, attrs[0], name);
      if !step.ok || !o.Ok() {
        assert r == step.nodes;
      } else {
        var next := o.Apply(step.nodes);
        OutcomeAddsNoGroup(step.nodes, attrs[0], name, group);
        GroupCreatedAtMostOnce(next, attrs[1..], name, step.groups, group);
        SplitCount(nodes, step.nodes, next, gname);
        SplitCount(nodes, next, r, gname);
      }
    }
  }

  /** Counting the names appended over two stages adds the counts of the stages. */
  lemma SplitCount(a: seq<HlNode>, b: seq<HlNode>, c: seq<HlNode>, name: string)
    requires |a| <= |b| <= |c| && b[..|a|] == a && c[..|b|] == b
    ensures CountNamed(c[|a|..], name) == CountNamed(b[|a|..], name) + CountNamed(c[|b|..], name)
  {
    assert c[|a|..] == b[|a|..] + c[|b|..];
    CountNamedAppend(b[|a|..], c[|b|..], name);
  }

  /** Adding an attribute of an accepted name never appends a group node "<name>/<group>". */
  lemma OutcomeAddsNoGroup(nodes: seq<HlNode>, attr: RaveAttribute, name: string, group: string)
    requires attr.name.Some? && InAttributeGroup(attr.name.value) && IsGroupLabel(group)
    ensures var after := AddAttributeOutcome(nodes, attr, name).Apply(nodes);
            |after| >= |nodes| && after[..|nodes|] == nodes && CountNamed(after[|nodes|..], name + "/" + group) == 0
  {
    var o := AddAttributeOutcome(nodes, attr, name);
    ApplyKeeps(o, nodes);
    if o.AddNode? {
      GroupedNameHasSlash(attr.name.value);
      AttributeIsNotGroup(name, attr.name.value, group);
      assert o.Apply(nodes)[|nodes|..] == [o.node];
    } else {
      assert o.Apply(nodes)[|nodes|..] == [];
    }
  }

  /** The group step appends at most the one group it creates, and sets that group's flag when it does. */
  lemma GroupStepCount(nodes: seq<HlNode>, attrname: string, name: string, g: Groups, group: string)
    requires IsGroupLabel(group)
    ensures var step := GroupStepFor(nodes, attrname, name, g);
            && |step.nodes| >= |nodes| && step.nodes[..|nodes|] == nodes
            && (Flag(g, group) ==> Flag(step.groups, group))
            && CountNamed(step.nodes[|nodes|..], name + "/" + group) + (if Flag(g, group) then 1 else 0)
                 <= (if Flag(step.groups, group) then 1 else 0)
  {
    var step := GroupStepFor(nodes, attrname, name, g);
    var added := step.nodes[|nodes|..];
    if |added| == 1 {
      assert added[1..] == [];
      assert added[0].name == name + "/how" || added[0].name == name + "/what" || added[0].name == name + "/where";
    } else {
      assert added == [];
    }
  }

  /** A node name lies under an object name: it starts with "<name>/". */
  predicate NamedUnder(nodeName: string, name: string) {
    |name| < |nodeName| && nodeName[..|name| + 1] == name + "/"
  }

  /** The nodes one group step appends lie under the object name. */
  lemma GroupStepUnderName(nodes: seq<HlNode>, attrname: string, name: string, g: Groups)
    ensures var step := GroupStepFor(nodes, attrname, name, g);
            forall i :: |nodes| <= i < |step.nodes| ==> NamedUnder(step.nodes[i].name, name)
  {
    var step := GroupStepFor(nodes, attrname, name, g);
    forall i | |nodes| <= i < |step.nodes| ensures NamedUnder(step.nodes[i].name, name) {
      var n := step.nodes[i].name;
      assert n == name + "/how" || n == name + "/what" || n == name + "/where";
      assert n[..|name| + 1] == name + "/";
    }
  }

  /**
   * Every node RaveHL_addAttributes appends, group or attribute, lies under
   * "<name>/": the groups are created as "<name>/<group>" and each attribute
   * node is "<name>/<attrname>".
   */
  lemma {:induction false} AddedNodesUnderName(nodes: seq<HlNode>, attrs: seq<RaveAttribute>, name: string, g: Groups)
    ensures var r := AddAttributesFrom(nodes, attrs, name, g).1;
            forall i :: |nodes| <= i < |r| ==> NamedUnder(r[i].name, name)
    decreases |attrs|
  {
    var r := AddAttributesFrom(nodes, attrs, name, g).1;
    if attrs != [] && attrs[0].name.Some? {
      var step := GroupStepFor(nodes, attrs[0].name.value, name, g);
      GroupStepUnderName(nodes, attrs[0].name.value, name, g);
      var o := AddAttributeOutcome(step.nodes, attrs[0], name);
      if step.ok && o.Ok() {
        var next := o.Apply(step.nodes);
        assert r == AddAttributesFrom(next, attrs[1..], name, step.groups).1;
        AddedNodesUnderName(next, attrs[1..], name, step.groups);
        ApplyKeeps(o, step.nodes);
        if o.AddNode? {
          var full := name + "/" + attrs[0].name.value;
          assert o.node.name == full && full[..|name| + 1] == name + "/";
        }
        forall i | |nodes| <= i < |r| ensures NamedUnder(r[i].name, name) {
          if i < |step.nodes| {
            assert r[i] == next[i] == step.nodes[i];
          } else if i < |next| {
            assert r[i] == next[i] == o.node;
          }
        }
      }
    }
  }

  /**
   * vsnprintf of a format with no arguments: "%%" writes one '%', other
   * characters are copied, and any other conversion would read an argument
   * that was never passed, which is undefined and taken here as no name.
   */
  function FormatNoArgs(fmt: string): (r: Option<string>)
    ensures '%' !in fmt ==> r == Some(fmt)
    decreases |fmt|
  {
    if fmt == [] then Some([])
    else if fmt[0] != '%' then
      assert '%' !in fmt ==> '%' !in fmt[1..] by {
        if '%' in fmt[1..] {
          var k :| 0 <= k < |fmt[1..]| && fmt[1..][k] == '%';
          assert fmt[k + 1] == '%';
        }
      }
      match FormatNoArgs(fmt[1..])
      case None => None
      case Some(t) => assert [fmt[0]] + fmt[1..] == fmt; Some([fmt[0]] + t)
    else if |fmt| >= 2 && fmt[1] == '%' then
      match FormatNoArgs(fmt[2..])
      case None => None
      case Some(t) => Some("%" + t)
    else None
  }

  /**
   * RaveHL_addAttributes as written: the groups are created under the name
   * as given, but each attribute is added with the name as its format, so
   * its node lies under the formatted name.
   */
  function AddAttributesAsWrittenFrom(nodes: seq<HlNode>, attrs: seq<RaveAttribute>, name: string, g: Groups): (bool, seq<HlNode>)
    decreases |attrs|
  {
    if attrs == [] then (true, nodes)
    else if attrs[0].name.None? then (false, nodes)
    else
      var step := GroupStepFor(nodes, attrs[0].name.value, name, g);
      if !step.ok then (false, step.nodes)
      else
        var o := match FormatNoArgs(name)
                 case None => Fail
                 case Some(prefix) => AddAttributeOutcome(step.nodes, attrs[0], prefix);
        if !o.Ok() then (false, step.nodes)
        else AddAttributesAsWrittenFrom(o.Apply(step.nodes), attrs[1..], name, step.groups)
  }

  /** For a name without '%' the written code and the corrected one agree. */
  lemma {:induction false} AddAttributesAgreeWithoutPercent(nodes: seq<HlNode>, attrs: seq<RaveAttribute>, name: string, g: Groups)
    requires '%' !in name
    ensures AddAttributesAsWrittenFrom(nodes, attrs, name, g) == AddAttributesFrom(nodes, attrs, name, g)
    decreases |attrs|
  {
    if attrs != [] && attrs[0].name.Some? {
      var step := GroupStepFor(nodes, attrs[0].name.value, name, g);
      var o := AddAttributeOutcome(step.nodes, attrs[0], name);
      AddAttributesAgreeWithoutPercent(o.Apply(step.nodes), attrs[1..], name, step.groups);
    }
  }

  /** vsnprintf with the format "a%%b" and no arguments writes "a%b". */
  lemma FormatEscapedPercent()
    ensures FormatNoArgs("a%%b") == Some("a%b")
  {
    assert "a%%b"[0] == 'a' && "a%%b"[1..] == "%%b";
    assert "%%b"[0] == '%' && "%%b"[1] == '%' && "%%b"[2..] == "b";
    assert FormatNoArgs("b") == Some("b");
    assert "%" + "b" == "%b" && ['a'] + "%b" == "a%b";
  }

  /** The first how/ attribute under "a%%b" creates the group "a%%b/how". */
  lemma HowGroupCreated()
    ensures GroupStepFor([], "how/x", "a%%b", Groups(false, false, false))
              == GroupStep(true, [GroupNamed("a%%b/how")], Groups(true, false, false))
  {
    assert StartsWithCI("how/x", "how/");
    assert Lower("how/x"[0]) != Lower("what/"[0]) && Lower("how/x"[0]) != Lower("where/"[0]);
    assert "a%%b" + "/how" == "a%%b/how";
  }

  /**
   * The written code puts an attribute outside its object: for the name
   * "a%%b" the how group is "a%%b/how" but the attribute lands at "a%b/how/x".
   */
  lemma AttributeLeavesItsObject()
    ensures var attrs := [RaveAttribute(Some("how/x"), LongValue(1))];
            var r := AddAttributesAsWrittenFrom([], attrs, "a%%b", Groups(false, false, false));
            && r == (true, [GroupNamed("a%%b/how"), HlNode("a%b/how/x", AttributeNode, HlLong, [], IntData(1))])
            && !NamedUnder(r.1[1].name, "a%%b")
  {
    var attrs := [RaveAttribute(Some("how/x"), LongValue(1))];
    FormatEscapedPercent();
    HowGroupCreated();
    var group := [GroupNamed("a%%b/how")];
    NamesOfAppend([], group[0]);
    assert [] + group == group;
    var full := "a%b" + "/" + "how/x";
    assert full == "a%b/how/x" && full != "a%%b/how";
    var node := HlNode("a%b/how/x", AttributeNode, HlLong, [], IntData(1));
    assert AddAttributeOutcome(group, attrs[0], "a%b") == AddNode(node);
    assert attrs[1..] == [];
    assert group + [node] == [GroupNamed("a%%b/how"), node];
    assert AddAttributesAsWrittenFrom([], attrs, "a%%b", Groups(false, false, false))
        == AddAttributesAsWrittenFrom(group + [node], [], "a%%b", Groups(true, false, false));
    assert "a%b/how/x"[2] != "a%%b/"[2];
  }

  /** A call RaveHL_loadAttributesAndData makes on the object it fills. */
  datatype Call =
    | AttrCall(attr: RaveAttribute)
    | DataCall(xsize: nat, ysize: nat, data: NodeData, dataType: RaveDataType)

  /** The outcome of one node of the load walk: whether to go on, and the call made, if any. */
  datatype StepResult = StepResult(ok: bool, call: Option<Call>)

  /** HLNode_getDimension: the extent along one axis, 0 past the node's rank. */
  function Dim(node: HlNode, axis: nat): nat {
    if axis < |node.dims| then node.dims[axis] else 0
  }

  /** The node lies under the object: longer than its name, starting with it (any case) and followed by '/'. */
  predicate UnderObject(nodeName: string, name: string) {
    |nodeName| > |name| && StartsWithCI(nodeName, name) && nodeName[|name|] == '/'
  }

  /**
   * One node of RaveHL_loadAttributesAndData: an attribute node under
   * how/, what/ or where/ goes to the attribute callback (when it can be read
   * and the callback is set); a dataset named "data" goes to the data callback
   * with its dimensions swapped back to (xsize, ysize), and fails when its
   * type is undefined or there is no data callback; every other node is passed over.
   */
  function LoadStep(node: HlNode, name: string,
                    attrf: Option<RaveAttribute -> bool>,
                    dataf: Option<(nat, nat, NodeData, RaveDataType) -> bool>): (r: StepResult)
    ensures r.call.Some? && r.call.value.AttrCall? ==>
              && UnderObject(node.name, name) && node.kind == AttributeNode
              && r.call.value.attr.name == Some(node.name[|name| + 1..])
              && InAttributeGroup(node.name[|name| + 1..])
    ensures r.call.Some? && r.call.value.DataCall? ==>
              && UnderObject(node.name, name) && node.kind == DatasetNode
              && EqualsCI(node.name[|name| + 1..], "data")
              && r.call.value.dataType != Undefined
    ensures !UnderObject(node.name, name) ==> r == StepResult(true, None)
  {
    if !UnderObject(node.name, name) then StepResult(true, None)
    else
      var rest := node.name[|name| + 1..];
      if node.kind == AttributeNode && InAttributeGroup(rest) then
        match CreateAttribute(node)
        case None => StepResult(true, None)
        case Some(a) =>
          var named := a.(name := Some(rest));
          if attrf.Some? then StepResult(attrf.value(named), Some(AttrCall(named)))
          else StepResult(true, None)
      else if node.kind == DatasetNode && EqualsCI(rest, "data") then
        var t := HlhdfToRaveType(node.format);
        if t != Undefined && dataf.Some? then
          var x, y := Dim(node, 1), Dim(node, 0);
          StepResult(dataf.value(x, y, node.data, t), Some(DataCall(x, y, node.data, t)))
        else StepResult(false, None)
      else StepResult(true, None)
  }

  /** The step RaveHL_loadAttributesAndData applies to each node, for a given object name and callbacks. */
  function StepOf(name: string,
                  attrf: Option<RaveAttribute -> bool>,
                  dataf: Option<(nat, nat, NodeData, RaveDataType) -> bool>): HlNode -> StepResult
  {
    node => LoadStep(node, name, attrf, dataf)
  }

  /** The load walk over the first k nodes: stops at the first node whose step fails. */
  function LoadPrefix(nodes: seq<HlNode>, k: nat, step: HlNode -> StepResult): (bool, seq<Call>)
    requires k <= |nodes|
  {
    if k == 0 then (true, [])
    else
      var before := LoadPrefix(nodes, k - 1, step);
      if !before.0 then before
      else
        var s := step(nodes[k - 1]);
        (s.ok, before.1 + if s.call.Some? then [s.call.value] else [])
  }

  /** One more node of a walk that has not failed: its step decides the flag and adds its call. */
  lemma LoadPrefixNext(nodes: seq<HlNode>, k: nat, step: HlNode -> StepResult)
    requires k < |nodes| && LoadPrefix(nodes, k, step).0
    ensures var s := step(nodes[k]);
            LoadPrefix(nodes, k + 1, step)
              == (s.ok, LoadPrefix(nodes, k, step).1 + if s.call.Some? then [s.call.value] else [])
  {
  }

  /** The loop of RaveHL_loadAttributesAndData: applies the step to each node in turn until one fails. */
  method LoadWalk(nodes: seq<HlNode>, step: HlNode -> StepResult) returns (ok: bool, calls: seq<Call>)
    ensures (ok, calls) == LoadPrefix(nodes, |nodes|, step)
  {
    ok, calls := true, [];
    var i := 0;
    while ok && i < |nodes|
      invariant 0 <= i <= |nodes|
      invariant (ok, calls) == LoadPrefix(nodes, i, step)
    {
      var s := step(nodes[i]);
      LoadPrefixNext(nodes, i, step);
      ok := s.ok;
      if s.call.Some? {
        calls := calls + [s.call.value];
      } else {
        assert calls + [] == calls;
      }
      i := i + 1;
    }
    if !ok {
      LoadStopsAtFailure(nodes, i, |nodes|, step);
    }
  }

  /**
   * RaveHL_loadAttributesAndData: fails outright on a name too long for the
   * buffer; otherwise succeeds exactly when every node's step succeeds. Every
   * call it makes comes from a node under the object: attribute calls carry a
   * name under how/, what/ or where/, data calls a defined type.
   */
  function LoadSpec(nodes: seq<HlNode>, name: string,
                    attrf: Option<RaveAttribute -> bool>,
                    dataf: Option<(nat, nat, NodeData, RaveDataType) -> bool>): (r: (bool, seq<Call>))
    ensures r.0 <==> |name| < NameLimit && forall i :: 0 <= i < |nodes| ==> LoadStep(nodes[i], name, attrf, dataf).ok
    ensures forall c :: c in r.1 ==>
              (c.AttrCall? ==> c.attr.name.Some? && InAttributeGroup(c.attr.name.value))
              && (c.DataCall? ==> c.dataType != Undefined)
  {
    if |name| >= NameLimit then (false, [])
    else
      LoadPrefixOkIff(nodes, |nodes|, StepOf(name, attrf, dataf));
      LoadPrefixRouted(nodes, |nodes|, name, attrf, dataf);
      LoadPrefix(nodes, |nodes|, StepOf(name, attrf, dataf))
  }

  /** Once the walk has failed, the nodes after the failure change nothing. */
  lemma {:induction false} LoadStopsAtFailure(nodes: seq<HlNode>, k: nat, j: nat, step: HlNode -> StepResult)
    requires k <= j <= |nodes| && !LoadPrefix(nodes, k, step).0
    ensures LoadPrefix(nodes, j, step) == LoadPrefix(nodes, k, step)
    decreases j - k
  {
    if k < j {
      LoadStopsAtFailure(nodes, k, j - 1, step);
    }
  }

  /** The walk over the first k nodes succeeds exactly when every one of their steps succeeds. */
  lemma {:induction false} LoadPrefixOkIff(nodes: seq<HlNode>, k: nat, step: HlNode -> StepResult)
    requires k <= |nodes|
    ensures LoadPrefix(nodes, k, step).0 <==> forall i :: 0 <= i < k ==> step(nodes[i]).ok
  {
    if k > 0 {
      LoadPrefixOkIff(nodes, k - 1, step);
    }
  }

  /** The routing of the calls, over the first k nodes. */
  lemma {:induction false} LoadPrefixRouted(nodes: seq<HlNode>, k: nat, name: string,
                                            attrf: Option<RaveAttribute -> bool>,
                                            dataf: Option<(nat, nat, NodeData, RaveDataType) -> bool>)
    requires k <= |nodes|
    ensures forall c :: c in LoadPrefix(nodes, k, StepOf(name, attrf, dataf)).1 ==>
              (c.AttrCall? ==> c.attr.name.Some? && InAttributeGroup(c.attr.name.value))
              && (c.DataCall? ==> c.dataType != Undefined)
  {
    if k > 0 {
      var step := StepOf(name, attrf, dataf);
      LoadPrefixRouted(nodes, k - 1, name, attrf, dataf);
      if LoadPrefix(nodes, k - 1, step).0 {
        LoadPrefixNext(nodes, k - 1, step);
      }
    }
  }

  /**
   * The stored dimension order round-trips: a dataset written by
   * RaveHL_createDataset under "<name>/data" with a defined type is handed to
   * the data callback with the xsize and ysize it was written with.
   */
  lemma DatasetRoundTrip(name: string, buffer: nat, xsize: nat, ysize: nat, t: RaveDataType,
                         attrf: Option<RaveAttribute -> bool>,
                         f: (nat, nat, NodeData, RaveDataType) -> bool)
    requires t != Undefined
    ensures LoadStep(DatasetNodeFor(name + "/data", buffer, xsize, ysize, t), name, attrf, Some(f))
              == StepResult(f(xsize, ysize, ArrayData(buffer), t), Some(DataCall(xsize, ysize, ArrayData(buffer), t)))
  {
    var full := name + "/data";
    assert full[..|name|] == name;
    assert full[|name| + 1..] == "data";
    RaveHlhdfRoundTrip(t);
  }

  /**
   * An attribute written by RaveHL_addAttribute under a how/, what/ or where/
   * name is handed back to the attribute callback under that name with the
   * value it was written with.
   */
  lemma AttributeRoundTrip(nodes: seq<HlNode>, attr: RaveAttribute, name: string,
                           f: RaveAttribute -> bool,
                           dataf: Option<(nat, nat, NodeData, RaveDataType) -> bool>)
    requires AddAttributeOutcome(nodes, attr, name).AddNode?
    requires InAttributeGroup(attr.name.value)
    ensures LoadStep(AddAttributeOutcome(nodes, attr, name).node, name, Some(f), dataf)
              == StepResult(f(attr), Some(AttrCall(attr)))
  {
    var full := name + "/" + attr.name.value;
    assert full[..|name|] == name;
    assert full[|name| + 1..] == attr.name.value;
  }

  /** An HLHDF node list, which the add operations extend in place. */
  class NodeList {
    var nodes: seq<HlNode>

    constructor ()
      ensures nodes == []
    {
      nodes := [];
    }

    /** RaveHL_createGroup: adds the group node, failing on a name too long for the buffer. */
    method CreateGroup(name: string) returns (ok: bool)
      modifies this
      ensures ok <==> |name| < NameLimit
      ensures nodes == if ok then old(nodes) + [GroupNamed(name)] else old(nodes)
    {
      ok := |name| < NameLimit;
      if ok {
        nodes := nodes + [GroupNamed(name)];
      }
    }

    /** RaveHL_createStringValue: adds a string attribute node, failing on a name too long for the buffer. */
    method CreateStringValue(value: string, name: string) returns (ok: bool)
      modifies this
      ensures ok <==> |name| < NameLimit
      ensures nodes == if ok then old(nodes) + [StringNode(name, value)] else old(nodes)
    {
      ok := |name| < NameLimit;
      if ok {
        nodes := nodes + [StringNode(name, value)];
      }
    }

    /**
     * RaveHL_addAttribute: stores the attribute as "<name>/<attrname>"; an
     * existing node of that name, or a string attribute without a value,
     * counts as success without adding anything.
     */
    method AddAttribute(attr: RaveAttribute, name: string) returns (ok: bool)
      modifies this
      ensures ok == AddAttributeOutcome(old(nodes), attr, name).Ok()
      ensures nodes == AddAttributeOutcome(old(nodes), attr, name).Apply(old(nodes))
    {
      ok := false;
      if |name| >= NameLimit || attr.name.None? {
        return;
      }
      var full := name + "/" + attr.name.value;
      if |full| >= NameLimit {
        return;
      }
      if FindNode(nodes, full).Some? {
        ok := true;
        return;
      }
      match attr.value {
        case LongValue(l) =>
          nodes := nodes + [HlNode(full, AttributeNode, HlLong, [], IntData(l))];
          ok := true;
        case DoubleValue(d) =>
          nodes := nodes + [HlNode(full, AttributeNode, HlDouble, [], RealData(d))];
          ok := true;
        case StringValue(s) =>
          if s.Some? {
            nodes := nodes + [StringNode(full, s.value)];
          }
          ok := true;
        case OtherValue =>
      }
    }

    /**
     * The group step of one RaveHL_addAttributes iteration: creates the group
     * the attribute name needs when its flag says it is missing.
     */
    method EnsureGroup(attrname: string, name: string, g: Groups) returns (ok: bool, g': Groups)
      modifies this
      ensures GroupStep(ok, nodes, g') == GroupStepFor(old(nodes), attrname, name, g)
    {
      ok, g' := true, g;
      if !g.hasWhat && StartsWithCI(attrname, "what/") {
        ok := CreateGroup(name + "/what");
        if ok {
          g' := g.(hasWhat := true);
        }
      } else if !g.hasWhere && StartsWithCI(attrname, "where/") {
        ok := CreateGroup(name + "/where");
        if ok {
          g' := g.(hasWhere := true);
        }
      } else if !g.hasHow && StartsWithCI(attrname, "how/") {
        ok := CreateGroup(name + "/how");
        if ok {
          g' := g.(hasHow := true);
        }
      } else {
        ok := InAttributeGroup(attrname);
      }
    }

    /**
     * RaveHL_addAttributes: adds each attribute in turn under name, creating
     * each of the how, what and where groups the first time an attribute needs
     * it; stops at the first failure, keeping what was added before it.
     */
    method AddAttributes(attrs: seq<RaveAttribute>, name: string) returns (ok: bool)
      modifies this
      ensures (ok, nodes) == AddAttributesSpec(old(nodes), attrs, name)
    {
      var g := Groups(HasNodeByName(nodes, name + "/how"), HasNodeByName(nodes, name + "/what"),
                      HasNodeByName(nodes, name + "/where"));
      var i := 0;
      while i < |attrs|
        invariant 0 <= i <= |attrs|
        invariant AddAttributesFrom(nodes, attrs[i..], name, g) == AddAttributesSpec(old(nodes), attrs, name)
      {
        assert attrs[i..][1..] == attrs[i + 1..];
        var attr := attrs[i];
        if attr.name.None? {
          return false;
        }
        var created;
        created, g := EnsureGroup(attr.name.value, name, g);
        if !created {
          return false;
        }
        var added := AddAttribute(attr, name);
        if !added {
          return false;
        }
        i := i + 1;
      }
      ok := true;
    }

    /**
     * RaveHL_createDataset: adds the dataset node with its dimensions stored
     * as [ysize, xsize], failing on a name too long for the buffer.
     */
    method CreateDataset(buffer: nat, xsize: nat, ysize: nat, t: RaveDataType, name: string) returns (ok: bool)
      modifies this
      ensures ok <==> |name| < NameLimit
      ensures nodes == if ok then old(nodes) + [DatasetNodeFor(name, buffer, xsize, ysize, t)] else old(nodes)
    {
      ok := |name| < NameLimit;
      if ok {
        nodes := nodes + [DatasetNodeFor(name, buffer, xsize, ysize, t)];
      }
    }

    /**
     * The two attributes RaveHL_addData puts on an 8-bit unsigned dataset so
     * that viewers show it as an image: CLASS="IMAGE", then IMAGE_VERSION="1.2".
     */
    method AddImageAttributes(dataset: string) returns (ok: bool)
      modifies this
      ensures (ok, nodes) == ImageAttributesSpec(old(nodes), dataset)
      ensures |nodes| >= |old(nodes)| && nodes[..|old(nodes)|] == old(nodes)
    {
      ghost var before := nodes;
      ok := AddAttribute(ImageClass, dataset);
      ApplyKeeps(AddAttributeOutcome(before, ImageClass, dataset), before);
      if ok {
        ghost var withClass := nodes;
        ok := AddAttribute(ImageVersion, dataset);
        ApplyKeeps(AddAttributeOutcome(withClass, ImageVersion, dataset), withClass);
        assert nodes[..|before|] == nodes[..|withClass|][..|before|];
      }
    }

    /**
     * RaveHL_addData: stores the data as the dataset "<name>/data"; an 8-bit
     * unsigned image also gets the CLASS and IMAGE_VERSION attributes.
     */
    method AddData(data: Option<nat>, xsize: nat, ysize: nat, t: RaveDataType, name: string) returns (ok: bool)
      modifies this
      ensures |nodes| >= |old(nodes)| && nodes[..|old(nodes)|] == old(nodes)
      ensures ok ==> |name + "/data"| < NameLimit && data.Some? && |nodes| > |old(nodes)|
      ensures ok ==> nodes[|old(nodes)|] == DatasetNodeFor(name + "/data", data.value, xsize, ysize, t)
      ensures t != UChar ==> (ok <==> |name + "/data"| < NameLimit && data.Some?)
      ensures t != UChar ==> nodes == if ok then old(nodes) + [DatasetNodeFor(name + "/data", data.value, xsize, ysize, t)] else old(nodes)
      ensures t == UChar ==> ((ok, nodes) ==
                if |name + "/data"| < NameLimit && data.Some?
                then ImageAttributesSpec(old(nodes) + [DatasetNodeFor(name + "/data", data.value, xsize, ysize, t)], name + "/data")
                else (false, old(nodes)))
    {
      ok := false;
      if |name| >= NameLimit || data.None? {
        return;
      }
      var dataset := name + "/data";
      ok := CreateDataset(data.value, xsize, ysize, t, dataset);
      if !ok || t != UChar {
        return;
      }
      ghost var withData := nodes;
      ok := AddImageAttributes(dataset);
      assert nodes[..|old(nodes)|] == nodes[..|withData|][..|old(nodes)|];
      assert nodes[|old(nodes)|] == withData[|old(nodes)|];
    }

    /**
     * RaveHL_loadAttributesAndData: walks the nodes in order, handing each
     * attribute and dataset under name to the callbacks, and stops at the
     * first failure. Returns the success flag and the calls made.
     */
    method LoadAttributesAndData(name: string,
                                 attrf: Option<RaveAttribute -> bool>,
                                 dataf: Option<(nat, nat, NodeData, RaveDataType) -> bool>)
      returns (ok: bool, calls: seq<Call>)
      ensures (ok, calls) == LoadSpec(nodes, name, attrf, dataf)
    {
      ok := |name| < NameLimit;
      calls := [];
      if !ok {
        return;
      }
      ok, calls := LoadWalk(nodes, StepOf(name, attrf, dataf));
    }
  }
}
