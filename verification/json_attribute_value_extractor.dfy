/**
 * `JsonAttributeValueExtractor`: validates and parses a JSON file, flattens the tree into
 * (key, text) pairs with dotted and indexed keys, and reads single fields with a default.
 *
 * Parsing is an oracle from a path to a tree. `printAttributes` prints one line per pair; here it
 * returns the pairs instead. Floating-point numbers are not part of this model.
 */
module JsonAttributeValueExtractor {
  import opened Results
  import opened Text
  import opened Platform

  /**
   * A Jackson `JsonNode`: object fields in document order, array elements, and scalar leaves.
   * The datatype itself admits repeated field names; the trees the parser yields do not (see
   * `ParsedTree`).
   */
  datatype JsonNode =
    | JObject(fields: seq<(string, JsonNode)>)
    | JArray(items: seq<JsonNode>)
    | JText(s: string)
    | JInt(i: int)
    | JBool(b: bool)
    | JNull
  {
    predicate IsContainer() {
      JObject? || JArray?
    }
  }

  /** No object anywhere in the tree has two fields with the same name, as in a Jackson `ObjectNode`. */
  predicate DistinctNames(node: JsonNode)
    decreases node
  {
    match node
    case JObject(fields) =>
      (forall i, j :: 0 <= i < j < |fields| ==> fields[i].0 != fields[j].0) && FieldsDistinctNames(fields)
    case JArray(items) => ItemsDistinctNames(items)
    case _ => true
  }

  predicate FieldsDistinctNames(fields: seq<(string, JsonNode)>)
    decreases fields
  {
    fields == [] || (var field := fields[0]; assert field.1 < field; DistinctNames(field.1) && FieldsDistinctNames(fields[1..]))
  }

  predicate ItemsDistinctNames(items: seq<JsonNode>)
    decreases items
  {
    items == [] || (DistinctNames(items[0]) && ItemsDistinctNames(items[1..]))
  }

  /** A tree as the parser yields it. */
  type ParsedTree = node: JsonNode | DistinctNames(node) witness JNull

  /** A tree built from objects and arrays alone, with no scalar anywhere in it. */
  predicate ContainersOnly(node: JsonNode)
    decreases node
  {
    match node
    case JObject(fields) => FieldsContainersOnly(fields)
    case JArray(items) => ItemsContainersOnly(items)
    case _ => false
  }

  predicate FieldsContainersOnly(fields: seq<(string, JsonNode)>)
    decreases fields
  {
    fields == [] || (var field := fields[0]; assert field.1 < field; ContainersOnly(field.1) && FieldsContainersOnly(fields[1..]))
  }

  predicate ItemsContainersOnly(items: seq<JsonNode>)
    decreases items
  {
    items == [] || (ContainersOnly(items[0]) && ItemsContainersOnly(items[1..]))
  }

  /** `asText`: a scalar's text; "null" for JSON null; the empty string for objects and arrays. */
  function AsText(node: JsonNode): (r: string)
    ensures node.JText? ==> r == node.s
    ensures node.IsContainer() ==> r == ""
    ensures node.JNull? ==> r == "null"
    ensures node.JInt? ==> r == IntToDecimal(node.i)
    ensures node.JBool? ==> r == if node.b then "true" else "false"
  {
    match node
    case JText(s) => s
    case JInt(i) => IntToDecimal(i)
    case JBool(b) => if b then "true" else "false"
    case JNull => "null"
    case _ => ""
  }

  // ---------------------------------------------------------------------------------------------
  // printAttributes as a function
  // ---------------------------------------------------------------------------------------------

  /** The key of a field: its bare name at the top level, else the parent key, ".", and the name. */
  function FieldKey(parentKey: string, name: string): string {
    if parentKey == "" then name else parentKey + "." + name
  }

  /** The key of an array element: the parent key and "[i]", with no special case at the top level. */
  function ElementKey(parentKey: string, index: nat): string {
    parentKey + "[" + NatToDecimal(index) + "]"
  }

  /** `printAttributes(node, parentKey)`: one (key, text) pair per leaf, in document order. */
  function Flatten(node: JsonNode, parentKey: string): seq<(string, string)>
    decreases node
  {
    match node
    case JObject(fields) => FlattenFields(fields, parentKey)
    case JArray(items) => FlattenItems(items, parentKey, 0)
    case _ => [(parentKey, AsText(node))]
  }

  function FlattenFields(fields: seq<(string, JsonNode)>, parentKey: string): seq<(string, string)>
    decreases fields
  {
    if fields == [] then []
    else
      var field := fields[0];
      assert field.1 < field;
      Flatten(field.1, FieldKey(parentKey, field.0)) + FlattenFields(fields[1..], parentKey)
  }

  function FlattenItems(items: seq<JsonNode>, parentKey: string, index: nat): seq<(string, string)>
    decreases items
  {
    if items == [] then []
    else Flatten(items[0], ElementKey(parentKey, index)) + FlattenItems(items[1..], parentKey, index + 1)
  }

  // ---------------------------------------------------------------------------------------------
  // Reference: the leaves of a tree with their paths, and how a path is spelled as a key
  // ---------------------------------------------------------------------------------------------

  /** One step down a tree: into the field with a name, or into the element at an index. */
  datatype PathStep = Member(name: string) | Element(index: nat)

  /** Each leaf (scalar node) of the tree with the steps that lead to it, in document order. */
  function Leaves(node: JsonNode): (r: seq<(seq<PathStep>, JsonNode)>)
    ensures forall i :: 0 <= i < |r| ==> !r[i].1.IsContainer()
    decreases node
  {
    match node
    case JObject(fields) => FieldLeaves(fields)
    case JArray(items) => ItemLeaves(items, 0)
    case _ => [([], node)]
  }

  function FieldLeaves(fields: seq<(string, JsonNode)>): (r: seq<(seq<PathStep>, JsonNode)>)
    ensures forall i :: 0 <= i < |r| ==> !r[i].1.IsContainer()
    decreases fields
  {
    if fields == [] then []
    else
      var field := fields[0];
      assert field.1 < field;
      Under(Member(field.0), Leaves(field.1)) + FieldLeaves(fields[1..])
  }

  function ItemLeaves(items: seq<JsonNode>, index: nat): (r: seq<(seq<PathStep>, JsonNode)>)
    ensures forall i :: 0 <= i < |r| ==> !r[i].1.IsContainer()
    decreases items
  {
    if items == [] then []
    else Under(Element(index), Leaves(items[0])) + ItemLeaves(items[1..], index + 1)
  }

  /** The same leaves seen from one level up. */
  function Under(step: PathStep, leaves: seq<(seq<PathStep>, JsonNode)>): (r: seq<(seq<PathStep>, JsonNode)>)
    ensures |r| == |leaves|
    ensures forall i :: 0 <= i < |r| ==> r[i] == ([step] + leaves[i].0, leaves[i].1)
  {
    seq(|leaves|, i requires 0 <= i < |leaves| => ([step] + leaves[i].0, leaves[i].1))
  }

  function StepKey(key: string, step: PathStep): string {
    match step
    case Member(name) => FieldKey(key, name)
    case Element(index) => ElementKey(key, index)
  }

  /** The key a path spells, starting from `key`. */
  function PathKey(key: string, path: seq<PathStep>): string
    decreases |path|
  {
    if path == [] then key else PathKey(StepKey(key, path[0]), path[1..])
  }

  /** Each leaf as the pair `printAttributes` prints for it. */
  function Render(parentKey: string, leaves: seq<(seq<PathStep>, JsonNode)>): (r: seq<(string, string)>)
    ensures |r| == |leaves|
  {
    seq(|leaves|, i requires 0 <= i < |leaves| => (PathKey(parentKey, leaves[i].0), AsText(leaves[i].1)))
  }

  lemma RenderConcat(parentKey: string, a: seq<(seq<PathStep>, JsonNode)>, b: seq<(seq<PathStep>, JsonNode)>)
    ensures Render(parentKey, a + b) == Render(parentKey, a) + Render(parentKey, b)
  {
    assert forall i :: 0 <= i < |a| ==> (a + b)[i] == a[i];
    assert forall i :: |a| <= i < |a| + |b| ==> (a + b)[i] == b[i - |a|];
  }

  lemma RenderUnder(parentKey: string, step: PathStep, leaves: seq<(seq<PathStep>, JsonNode)>)
    ensures Render(parentKey, Under(step, leaves)) == Render(StepKey(parentKey, step), leaves)
  {
    forall i | 0 <= i < |leaves|
      ensures PathKey(parentKey, [step] + leaves[i].0) == PathKey(StepKey(parentKey, step), leaves[i].0)
    {
      assert ([step] + leaves[i].0)[1..] == leaves[i].0;
    }
  }

  /** Flattening emits exactly one pair per leaf, in document order, keyed by the leaf's path. */
  lemma {:induction false} FlattenRendersLeaves(node: JsonNode, parentKey: string)
    ensures Flatten(node, parentKey) == Render(parentKey, Leaves(node))
    decreases node
  {
    match node
    case JObject(fields) => FlattenFieldsRendersLeaves(fields, parentKey);
    case JArray(items) => FlattenItemsRendersLeaves(items, parentKey, 0);
    case _ =>
  }

  lemma {:induction false} FlattenFieldsRendersLeaves(fields: seq<(string, JsonNode)>, parentKey: string)
    ensures FlattenFields(fields, parentKey) == Render(parentKey, FieldLeaves(fields))
    decreases fields
  {
    if fields != [] {
      var field := fields[0];
      assert field.1 < field;
      FlattenRendersLeaves(field.1, FieldKey(parentKey, field.0));
      FlattenFieldsRendersLeaves(fields[1..], parentKey);
      RenderUnder(parentKey, Member(field.0), Leaves(field.1));
      RenderConcat(parentKey, Under(Member(field.0), Leaves(field.1)), FieldLeaves(fields[1..]));
    }
  }

  lemma {:induction false} FlattenItemsRendersLeaves(items: seq<JsonNode>, parentKey: string, index: nat)
    ensures FlattenItems(items, parentKey, index) == Render(parentKey, ItemLeaves(items, index))
    decreases items
  {
    if items != [] {
      FlattenRendersLeaves(items[0], ElementKey(parentKey, index));
      FlattenItemsRendersLeaves(items[1..], parentKey, index + 1);
      RenderUnder(parentKey, Element(index), Leaves(items[0]));
      RenderConcat(parentKey, Under(Element(index), Leaves(items[0])), ItemLeaves(items[1..], index + 1));
    }
  }

  /** Below a non-empty parent key, every key spelled by a path extends that parent key. */
  lemma {:induction false} PathKeyExtends(key: string, path: seq<PathStep>)
    requires key != ""
    ensures IsPrefix(key, PathKey(key, path))
    decreases |path|
  {
    if path != [] {
      var next := StepKey(key, path[0]);
      assert IsPrefix(key, next) && next != "";
      PathKeyExtends(next, path[1..]);
    }
  }

  /**
   * Every pair flattening emits under a non-empty parent key has a key that starts with it, and
   * a value that is the text of a scalar leaf.
   */
  lemma FlattenKeysExtendParent(node: JsonNode, parentKey: string)
    requires parentKey != ""
    ensures forall i :: 0 <= i < |Flatten(node, parentKey)| ==> IsPrefix(parentKey, Flatten(node, parentKey)[i].0)
    ensures |Flatten(node, parentKey)| == |Leaves(node)|
    ensures forall i :: 0 <= i < |Flatten(node, parentKey)| ==>
      !Leaves(node)[i].1.IsContainer() && Flatten(node, parentKey)[i].1 == AsText(Leaves(node)[i].1)
  {
    FlattenRendersLeaves(node, parentKey);
    var leaves := Leaves(node);
    forall i | 0 <= i < |leaves| ensures IsPrefix(parentKey, PathKey(parentKey, leaves[i].0)) {
      PathKeyExtends(parentKey, leaves[i].0);
    }
  }

  /** A tree emits no pair exactly when it is made of objects and arrays alone, however deeply nested. */
  lemma EmptyContainersEmitNothing(node: JsonNode, parentKey: string)
    ensures Flatten(node, parentKey) == [] <==> ContainersOnly(node)
  {
    FlattenRendersLeaves(node, parentKey);
    NoLeavesIffContainersOnly(node);
  }

  lemma {:induction false} NoLeavesIffContainersOnly(node: JsonNode)
    ensures Leaves(node) == [] <==> ContainersOnly(node)
    decreases node
  {
    match node
    case JObject(fields) => NoFieldLeavesIffContainersOnly(fields);
    case JArray(items) => NoItemLeavesIffContainersOnly(items, 0);
    case _ =>
  }

  lemma {:induction false} NoFieldLeavesIffContainersOnly(fields: seq<(string, JsonNode)>)
    ensures FieldLeaves(fields) == [] <==> FieldsContainersOnly(fields)
    decreases fields
  {
    if fields != [] {
      var field := fields[0];
      assert field.1 < field;
      NoLeavesIffContainersOnly(field.1);
      NoFieldLeavesIffContainersOnly(fields[1..]);
    }
  }

  lemma {:induction false} NoItemLeavesIffContainersOnly(items: seq<JsonNode>, index: nat)
    ensures ItemLeaves(items, index) == [] <==> ItemsContainersOnly(items)
    decreases items
  {
    if items != [] {
      NoLeavesIffContainersOnly(items[0]);
      NoItemLeavesIffContainersOnly(items[1..], index + 1);
    }
  }

  /** At the top level a field key is the bare name, while an element key still starts with "[". */
  lemma TopLevelKeys(name: string, leaf: JsonNode)
    requires !leaf.IsContainer()
    ensures Flatten(JObject([(name, leaf)]), "") == [(name, AsText(leaf))]
    ensures Flatten(JArray([leaf]), "") == [("[0]", AsText(leaf))]
  {
    var fields := [(name, leaf)];
    assert fields[1..] == [];
    assert FlattenFields(fields, "") == Flatten(leaf, FieldKey("", name)) + FlattenFields([], "");
    var items := [leaf];
    assert items[1..] == [];
    assert NatToDecimal(0) == "0";
    assert ElementKey("", 0) == "[0]";
    assert FlattenItems(items, "", 0) == Flatten(leaf, ElementKey("", 0)) + FlattenItems([], "", 1);
  }

  // ---------------------------------------------------------------------------------------------
  // getSafeValue and validateFile
  // ---------------------------------------------------------------------------------------------

  /** The position of the first field with the given name, or the number of fields when there is none. */
  function FirstIndex(fields: seq<(string, JsonNode)>, key: string): (r: nat)
    ensures r <= |fields|
    ensures forall j :: 0 <= j < r ==> fields[j].0 != key
    ensures r < |fields| ==> fields[r].0 == key
    decreases |fields|
  {
    if fields == [] then 0
    else if fields[0].0 == key then 0
    else
      var rest := FirstIndex(fields[1..], key);
      assert forall j :: 1 <= j < rest + 1 ==> fields[j] == fields[1..][j - 1];
      rest + 1
  }

  /** `ObjectNode.get(key)`: the value of the first field with that name, `null` when there is none. */
  function Lookup(fields: seq<(string, JsonNode)>, key: string): (r: Option<JsonNode>)
    ensures r.None? <==> forall i :: 0 <= i < |fields| ==> fields[i].0 != key
    ensures r.Some? ==> fields[FirstIndex(fields, key)] == (key, r.value)
  {
    var i := FirstIndex(fields, key);
    if i < |fields| then Some(fields[i].1) else None
  }

  /**
   * `getSafeValue(node, key)`: the text of the named field, or "N/A" when the node has no such
   * field (which is always the case for a node that is not an object). A field holding JSON null
   * is present and reads "null".
   */
  function GetSafeValue(node: JsonNode, key: string): (r: string)
    ensures !node.JObject? ==> r == "N/A"
    ensures node.JObject? ==> Lookup(node.fields, key).None? ==> r == "N/A"
    ensures node.JObject? ==> Lookup(node.fields, key).Some? ==> r == AsText(Lookup(node.fields, key).value)
  {
    match node
    case JObject(fields) =>
      var value := Lookup(fields, key);
      if value.Some? then AsText(value.value) else "N/A"
    case _ => "N/A"
  }

  /** For the first field with a given name that holds a scalar, the safe read agrees with the flattened pairs. */
  lemma SafeValueAppearsInFlatten(fields: seq<(string, JsonNode)>, i: nat)
    requires i < |fields| && !fields[i].1.IsContainer()
    requires forall j :: 0 <= j < i ==> fields[j].0 != fields[i].0
    ensures (fields[i].0, GetSafeValue(JObject(fields), fields[i].0)) in Flatten(JObject(fields), "")
  {
    var k := FirstIndex(fields, fields[i].0);
    assert k == i;
    FieldPairInFlatten(fields, i);
  }

  /**
   * In a parsed tree every field name occurs once, so for each top-level scalar field the safe
   * read gives that field's text, and that pair is among the flattened pairs.
   */
  lemma ParsedSafeValueAppearsInFlatten(tree: ParsedTree, i: nat)
    requires tree.JObject? && i < |tree.fields| && !tree.fields[i].1.IsContainer()
    ensures GetSafeValue(tree, tree.fields[i].0) == AsText(tree.fields[i].1)
    ensures (tree.fields[i].0, AsText(tree.fields[i].1)) in Flatten(tree, "")
  {
    var fields := tree.fields;
    assert forall j :: 0 <= j < i ==> fields[j].0 != fields[i].0;
    assert FirstIndex(fields, fields[i].0) == i;
    SafeValueAppearsInFlatten(fields, i);
  }

  lemma {:induction false} FieldPairInFlatten(fields: seq<(string, JsonNode)>, i: nat)
    requires i < |fields| && !fields[i].1.IsContainer()
    ensures (fields[i].0, AsText(fields[i].1)) in FlattenFields(fields, "")
    decreases i
  {
    if i > 0 {
      FieldPairInFlatten(fields[1..], i - 1);
    }
  }

  const NotReadablePrefix: string := "File not found or not readable: "

  /** `validateFile`: fails exactly when the path does not exist or cannot be read; the message names the path. */
  function ValidateFile(fs: FileSystem, path: string): (r: Result<(), string>)
    ensures r.Err? <==> path !in fs.existing || path !in fs.readable
    ensures r.Err? ==> Contains(r.error, path)
  {
    if path !in fs.existing || path !in fs.readable then
      ContainsPart(NotReadablePrefix, path, "");
      assert NotReadablePrefix + path + "" == NotReadablePrefix + path;
      Err(NotReadablePrefix + path)
    else Ok(())
  }

  /** Why `parseJsonFile` failed: the file check, or the parser (with the parser's own message). */
  datatype ParseFailure = NotReadable(message: string) | Malformed

  /** `parseJsonFile`: validates the file, then parses it; the parser is an oracle. */
  function ParseJsonFile(fs: FileSystem, path: string, parse: string -> Option<ParsedTree>): (r: Result<ParsedTree, ParseFailure>)
    ensures ValidateFile(fs, path).Err? ==> r == Err(NotReadable(ValidateFile(fs, path).error))
    ensures ValidateFile(fs, path).Ok? ==> (r.Ok? <==> parse(path).Some?)
    ensures r.Ok? ==> r.value == parse(path).value && path in fs.existing && path in fs.readable
    ensures r.Ok? ==> DistinctNames(r.value)
  {
    match ValidateFile(fs, path)
    case Err(message) => Err(NotReadable(message))
    case Ok(_) =>
      match parse(path)
      case None => Err(Malformed)
      case Some(tree) => Ok(tree)
  }
}
