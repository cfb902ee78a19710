/** The hierarchy builder: joins the Hauptprozess map, the enhanced matrix,
    the process records and the component records into the three-level tree
    the mind map draws. */
module ProcessData {
  import opened Common
  import opened PyText
  import opened PyValue
  import opened CreateDataJson

  /** `rec[key]`, or the KeyError it raises. */
  function Field(rec: Record, key: string): (r: Result<Value, PyError>)
    ensures r.Success? <==> key in rec
    ensures r.Success? ==> r.value == rec[key]
  {
    if key in rec then Success(rec[key]) else Failure(KeyError)
  }

  /** The attribute names a process node carries, in output order. */
  const ProcessAttributeKeys: seq<string> := [
    "Prozessart", "Merkmalsklasse 1", "Merkmalsklasse 2", "Merkmalsklasse 3",
    "Randbedingung 1", "Randbedingung 2", "Ablageort konstruktiv",
    "Ablageort steuerungstechnisch", "Ablageort robotertechnisch"]

  /** The attribute names a component node carries, in output order. */
  const ComponentAttributeKeys: seq<string> := [
    "Bauteilkategorie", "Hersteller", "Typ", "Eigenschaft 1", "Wert 1",
    "Eigenschaft 2", "Wert 2", "Eigenschaft 3", "Wert 3", "Ablageort konstruktiv",
    "Ablageort steuerungstechnisch", "Ablageort robotertechnisch"]

  type Attributes = seq<(string, Value)>

  function AttrKeys(attrs: Attributes): (ks: seq<string>)
    ensures |ks| == |attrs| && forall i :: 0 <= i < |attrs| ==> ks[i] == attrs[i].0
  {
    seq(|attrs|, i requires 0 <= i < |attrs| => attrs[i].0)
  }

  /** `{key: rec[key] for key in keys}`, in order; the first missing key raises. */
  function Fields(rec: Record, keys: seq<string>): (r: Result<Attributes, PyError>)
    ensures r.Success? <==> forall i :: 0 <= i < |keys| ==> keys[i] in rec
    ensures r.Success? ==> AttrKeys(r.value) == keys && forall i :: 0 <= i < |keys| ==> r.value[i].1 == rec[keys[i]]
  {
    if keys == [] then Success([])
    else
      match Fields(rec, keys[..|keys| - 1])
      case Failure(e) => Failure(e)
      case Success(front) =>
        var k := keys[|keys| - 1];
        match Field(rec, k)
        case Failure(e) => Failure(e)
        case Success(v) => Success(front + [(k, v)])
  }

  /** What a lookup table holds for one id: its display name and attributes. */
  datatype Info = Info(name: Value, attributes: Attributes)

  /** The filler the hierarchy uses for an id missing from a table: the given
      name and an empty string under every attribute. */
  function DefaultInfo(name: string, keys: seq<string>): (info: Info)
    ensures info.name == Str(name) && info.attributes == BlankAttributes(keys)
  {
    Info(Str(name), BlankAttributes(keys))
  }

  /** An empty string under every attribute. */
  function BlankAttributes(keys: seq<string>): (attrs: Attributes)
    ensures AttrKeys(attrs) == keys
    ensures forall i :: 0 <= i < |keys| ==> attrs[i].1 == Str("")
  {
    seq(|keys|, i requires 0 <= i < |keys| => (keys[i], Str("")))
  }

  /** `table.get(key, default)` */
  function Get(table: OrderedMap<string, Info>, key: string, default: Info): Info {
    if key in table.entries then table.entries[key] else default
  }

  // ---------------------------------------------------------------------
  // The lookup tables (dict comprehensions over the records)

  /** Every info in the table has exactly the given attribute names. */
  ghost predicate TableHasKeys(table: OrderedMap<string, Info>, keys: seq<string>) {
    forall k :: k in table.entries ==> AttrKeys(table.entries[k].attributes) == keys
  }

  /** The (key, info) pair one process record contributes, or what it raises:
      `str(int(p['Prozessnummer']))` and the name and attribute fields. */
  function ProcessPair(rec: Record): (r: Result<(string, Info), PyError>)
    requires "Prozessnummer" in rec
    ensures r.Success? <==>
      PyInt(rec["Prozessnummer"]).Success? && "Prozessname" in rec && Fields(rec, ProcessAttributeKeys).Success?
    ensures r.Success? ==> r.value.0 == IntToString(PyInt(rec["Prozessnummer"]).value)
    ensures r.Success? ==> r.value.1 == Info(rec["Prozessname"], Fields(rec, ProcessAttributeKeys).value)
  {
    match PyInt(rec["Prozessnummer"])
    case Failure(e) => Failure(e)
    case Success(n) =>
      match Field(rec, "Prozessname")
      case Failure(e) => Failure(e)
      case Success(name) =>
        match Fields(rec, ProcessAttributeKeys)
        case Failure(e) => Failure(e)
        case Success(attrs) => Success((IntToString(n), Info(name, attrs)))
  }

  /** A record `process_lookup` keeps: its Prozessnummer is present and truthy. */
  predicate ProcessKept(rec: Record) {
    "Prozessnummer" in rec && Truthy(rec["Prozessnummer"])
  }

  /** A record the comprehension gets through without raising: it has a
      Prozessnummer, and when that is truthy its pair can be built. */
  predicate ProcessPairOk(rec: Record) {
    "Prozessnummer" in rec && (Truthy(rec["Prozessnummer"]) ==> ProcessPair(rec).Success?)
  }

  /** The `process_lookup` pairs, record by record; records whose
      Prozessnummer is falsy are skipped; the first error raises. */
  function ProcessPairs(records: seq<Record>): (r: Result<seq<(string, Info)>, PyError>)
    ensures r.Success? <==> forall i :: 0 <= i < |records| ==> ProcessPairOk(records[i])
    ensures r.Success? ==> forall i :: 0 <= i < |r.value| ==> AttrKeys(r.value[i].1.attributes) == ProcessAttributeKeys
  {
    if records == [] then Success([])
    else
      var rec := records[|records| - 1];
      match ProcessPairs(records[..|records| - 1])
      case Failure(e) => Failure(e)
      case Success(front) =>
        if "Prozessnummer" !in rec then Failure(KeyError)
        else if !Truthy(rec["Prozessnummer"]) then Success(front)
        else
          match ProcessPair(rec)
          case Failure(e) => Failure(e)
          case Success(pair) => Success(front + [pair])
  }

  /** `process_lookup` */
  function ProcessLookup(records: seq<Record>): (r: Result<OrderedMap<string, Info>, PyError>)
    ensures r.Success? ==> ValidMap(r.value) && TableHasKeys(r.value, ProcessAttributeKeys)
  {
    match ProcessPairs(records)
    case Failure(e) => Failure(e)
    case Success(pairs) =>
      TableValues(pairs);
      Success(BuildTable(pairs))
  }

  /** The (key, info) pair one component record contributes:
      `str(c['Lfd. Nummer'])` and the name and attribute fields. */
  function ComponentPair(rec: Record): (r: Result<(string, Info), PyError>)
    requires "Lfd. Nummer" in rec
    ensures r.Success? <==> "Bauteilnamen" in rec && Fields(rec, ComponentAttributeKeys).Success?
    ensures r.Success? ==> r.value.0 == PyStr(rec["Lfd. Nummer"])
    ensures r.Success? ==> r.value.1 == Info(rec["Bauteilnamen"], Fields(rec, ComponentAttributeKeys).value)
  {
    match Field(rec, "Bauteilnamen")
    case Failure(e) => Failure(e)
    case Success(name) =>
      match Fields(rec, ComponentAttributeKeys)
      case Failure(e) => Failure(e)
      case Success(attrs) => Success((PyStr(rec["Lfd. Nummer"]), Info(name, attrs)))
  }

  /** A record `component_lookup` keeps: its Lfd. Nummer is present and truthy. */
  predicate ComponentKept(rec: Record) {
    "Lfd. Nummer" in rec && Truthy(rec["Lfd. Nummer"])
  }

  predicate ComponentPairOk(rec: Record) {
    "Lfd. Nummer" in rec && (Truthy(rec["Lfd. Nummer"]) ==> ComponentPair(rec).Success?)
  }

  /** The `component_lookup` pairs, skipping records whose Lfd. Nummer is falsy. */
  function ComponentPairs(records: seq<Record>): (r: Result<seq<(string, Info)>, PyError>)
    ensures r.Success? <==> forall i :: 0 <= i < |records| ==> ComponentPairOk(records[i])
    ensures r.Success? ==> forall i :: 0 <= i < |r.value| ==> AttrKeys(r.value[i].1.attributes) == ComponentAttributeKeys
  {
    if records == [] then Success([])
    else
      var rec := records[|records| - 1];
      match ComponentPairs(records[..|records| - 1])
      case Failure(e) => Failure(e)
      case Success(front) =>
        if "Lfd. Nummer" !in rec then Failure(KeyError)
        else if !Truthy(rec["Lfd. Nummer"]) then Success(front)
        else
          match ComponentPair(rec)
          case Failure(e) => Failure(e)
          case Success(pair) => Success(front + [pair])
  }

  /** `component_lookup` */
  function ComponentLookup(records: seq<Record>): (r: Result<OrderedMap<string, Info>, PyError>)
    ensures r.Success? ==> ValidMap(r.value) && TableHasKeys(r.value, ComponentAttributeKeys)
  {
    match ComponentPairs(records)
    case Failure(e) => Failure(e)
    case Success(pairs) =>
      TableValues(pairs);
      Success(BuildTable(pairs))
  }

  /** A dict comprehension over (key, value) pairs: later pairs overwrite
      earlier ones, keys stay in order of first appearance. */
  function BuildTable<T>(pairs: seq<(string, T)>): (m: OrderedMap<string, T>)
    ensures ValidMap(m)
  {
    if pairs == [] then EmptyMap()
    else Put(BuildTable(pairs[..|pairs| - 1]), pairs[|pairs| - 1].0, pairs[|pairs| - 1].1)
  }

  /** The table's keys are the pairs' keys. */
  lemma {:induction false} TableKeys<T>(pairs: seq<(string, T)>)
    ensures forall k :: k in BuildTable(pairs).entries <==> exists i :: 0 <= i < |pairs| && pairs[i].0 == k
  {
    if pairs != [] {
      var init := pairs[..|pairs| - 1];
      TableKeys(init);
      forall k | k in BuildTable(pairs).entries ensures exists i :: 0 <= i < |pairs| && pairs[i].0 == k {
        if k in BuildTable(init).entries {
          var i :| 0 <= i < |init| && init[i].0 == k;
          assert pairs[i] == init[i];
        } else {
          assert pairs[|pairs| - 1].0 == k;
        }
      }
      forall k | exists i :: 0 <= i < |pairs| && pairs[i].0 == k ensures k in BuildTable(pairs).entries {
        var i :| 0 <= i < |pairs| && pairs[i].0 == k;
        if i < |init| {
          assert init[i] == pairs[i];
        }
      }
    }
  }

  /** Each key holds the value of the last pair with that key. */
  lemma {:induction false} TableLastWins<T>(pairs: seq<(string, T)>, i: nat)
    requires i < |pairs|
    requires forall j :: i < j < |pairs| ==> pairs[j].0 != pairs[i].0
    ensures pairs[i].0 in BuildTable(pairs).entries && BuildTable(pairs).entries[pairs[i].0] == pairs[i].1
  {
    if i < |pairs| - 1 {
      var init := pairs[..|pairs| - 1];
      assert init[i] == pairs[i];
      TableLastWins(init, i);
    }
  }

  /** Every value in the table is the value of some pair with its key. */
  lemma {:induction false} TableValues<T>(pairs: seq<(string, T)>)
    ensures forall k :: k in BuildTable(pairs).entries ==>
      exists i :: 0 <= i < |pairs| && pairs[i] == (k, BuildTable(pairs).entries[k])
  {
    if pairs != [] {
      var init := pairs[..|pairs| - 1];
      TableValues(init);
      forall k | k in BuildTable(pairs).entries
        ensures exists i :: 0 <= i < |pairs| && pairs[i] == (k, BuildTable(pairs).entries[k])
      {
        if k == pairs[|pairs| - 1].0 {
          assert pairs[|pairs| - 1] == (k, BuildTable(pairs).entries[k]);
        } else {
          assert k in BuildTable(init).entries && BuildTable(pairs).entries[k] == BuildTable(init).entries[k];
          var i :| 0 <= i < |init| && init[i] == (k, BuildTable(init).entries[k]);
          assert pairs[i] == init[i];
        }
      }
    }
  }

  // ---------------------------------------------------------------------
  // The output tree

  /** A node of the output JSON: its name, its attributes object and, for the
      first two levels, its children list (a component node has no
      "children" key). */
  datatype MapNode = MapNode(name: string, attributes: Attributes, children: Option<seq<MapNode>>)

  /** A top-level output entry: "id", "title" and "data". */
  datatype Entry = Entry(id: string, title: Value, data: MapNode)

  /** Level 3: one building block. */
  function ComponentNode(components: OrderedMap<string, Info>, bb: Value): (node: MapNode)
    requires TableHasKeys(components, ComponentAttributeKeys)
    ensures node.children.None?
    ensures AttrKeys(node.attributes) == ComponentAttributeKeys
    ensures PyStr(bb) in components.entries ==>
      node.name == PyStr(bb) + " - " + PyStr(components.entries[PyStr(bb)].name)
    ensures PyStr(bb) !in components.entries ==> node.name == PyStr(bb) + " - Component " + PyStr(bb)
    ensures PyStr(bb) in components.entries ==> node.attributes == components.entries[PyStr(bb)].attributes
    ensures PyStr(bb) !in components.entries ==> node.attributes == BlankAttributes(ComponentAttributeKeys)
  {
    var key := PyStr(bb);
    if key in components.entries then
      var info := components.entries[key];
      MapNode(key + " - " + PyStr(info.name), info.attributes, None)
    else
      // `components.get(key, default)` with the default entry
      var info := DefaultInfo("Component " + key, ComponentAttributeKeys);
      DefaultComponentName(key);
      MapNode(key + " - " + PyStr(info.name), info.attributes, None)
  }

  /** The name of a component without a row: "<key> - Component <key>". */
  lemma DefaultComponentName(key: string)
    ensures key + " - " + PyStr(Str("Component " + key)) == key + " - Component " + key
  {
    assert " - " + "Component " == " - Component ";
    calc {
      key + " - " + PyStr(Str("Component " + key));
      key + " - " + ("Component " + key);
      key + (" - " + "Component ") + key;
    }
  }

  /** `enhanced_matrix.get(key, [])` */
  function BuildingBlocks(matrix: OrderedMap<string, seq<Value>>, key: string): seq<Value> {
    if key in matrix.entries then matrix.entries[key] else []
  }

  /** The component nodes for a list of building blocks, in order. */
  function ComponentNodes(components: OrderedMap<string, Info>, bbs: seq<Value>): (nodes: seq<MapNode>)
    requires TableHasKeys(components, ComponentAttributeKeys)
    ensures |nodes| == |bbs| && forall k :: 0 <= k < |bbs| ==> nodes[k] == ComponentNode(components, bbs[k])
  {
    seq(|bbs|, k requires 0 <= k < |bbs| => ComponentNode(components, bbs[k]))
  }

  /** Level 2: one partial solution with its building blocks. */
  function PartialSolutionNode(processes: OrderedMap<string, Info>, components: OrderedMap<string, Info>,
                               matrix: OrderedMap<string, seq<Value>>, psId: string): (node: MapNode)
    requires TableHasKeys(processes, ProcessAttributeKeys) && TableHasKeys(components, ComponentAttributeKeys)
    ensures node.name == "ID: " + psId
    ensures AttrKeys(node.attributes) == ProcessAttributeKeys
    ensures psId in processes.entries ==> node.attributes == processes.entries[psId].attributes
    ensures psId !in processes.entries ==> node.attributes == BlankAttributes(ProcessAttributeKeys)
    ensures node.children == Some(ComponentNodes(components, BuildingBlocks(matrix, psId)))
  {
    var info := Get(processes, psId, DefaultInfo("Partial Solution " + psId, ProcessAttributeKeys));
    MapNode("ID: " + psId, info.attributes, Some(ComponentNodes(components, BuildingBlocks(matrix, psId))))
  }

  /** Whether a process with no partial solutions gets the extra
      "Direct Components" child. */
  predicate HasDirectComponents(matrix: OrderedMap<string, seq<Value>>, processId: string, psIds: seq<string>) {
    psIds == [] && processId in matrix.entries && matrix.entries[processId] != []
  }

  /** The level-2 children of a process. */
  function ProcessChildren(processes: OrderedMap<string, Info>, components: OrderedMap<string, Info>,
                           matrix: OrderedMap<string, seq<Value>>, processId: string, psIds: seq<string>): (cs: seq<MapNode>)
    requires TableHasKeys(processes, ProcessAttributeKeys) && TableHasKeys(components, ComponentAttributeKeys)
    ensures |cs| == |psIds| + if HasDirectComponents(matrix, processId, psIds) then 1 else 0
    ensures forall k :: 0 <= k < |psIds| ==> cs[k] == PartialSolutionNode(processes, components, matrix, psIds[k])
    ensures HasDirectComponents(matrix, processId, psIds) ==>
      cs[0] == MapNode("Direct Components for " + processId, [], Some(ComponentNodes(components, matrix.entries[processId])))
  {
    var partial := seq(|psIds|, k requires 0 <= k < |psIds| => PartialSolutionNode(processes, components, matrix, psIds[k]));
    if HasDirectComponents(matrix, processId, psIds) then
      partial + [MapNode("Direct Components for " + processId, [], Some(ComponentNodes(components, matrix.entries[processId])))]
    else
      partial
  }

  /** Level 1: one Hauptprozess entry. */
  function ProcessEntry(processes: OrderedMap<string, Info>, components: OrderedMap<string, Info>,
                        matrix: OrderedMap<string, seq<Value>>, processId: string, psIds: seq<string>): (e: Entry)
    requires TableHasKeys(processes, ProcessAttributeKeys) && TableHasKeys(components, ComponentAttributeKeys)
    ensures e.id == "Process_" + processId && e.data.name == processId
    ensures processId in processes.entries ==> e.title == processes.entries[processId].name
    ensures processId !in processes.entries ==> e.title == Str("Process " + processId)
    ensures AttrKeys(e.data.attributes) == ProcessAttributeKeys
    ensures processId in processes.entries ==> e.data.attributes == processes.entries[processId].attributes
    ensures processId !in processes.entries ==> e.data.attributes == BlankAttributes(ProcessAttributeKeys)
    ensures e.data.children == Some(ProcessChildren(processes, components, matrix, processId, psIds))
  {
    var info := Get(processes, processId, DefaultInfo("Process " + processId, ProcessAttributeKeys));
    Entry("Process_" + processId, info.name,
          MapNode(processId, info.attributes, Some(ProcessChildren(processes, components, matrix, processId, psIds))))
  }

  /** The whole output: one entry per Hauptprozess, in the map's order. */
  function Hierarchy(haupt: OrderedMap<string, seq<string>>, processes: OrderedMap<string, Info>,
                     components: OrderedMap<string, Info>, matrix: OrderedMap<string, seq<Value>>): (out: seq<Entry>)
    requires ValidMap(haupt)
    requires TableHasKeys(processes, ProcessAttributeKeys) && TableHasKeys(components, ComponentAttributeKeys)
    ensures |out| == |haupt.keys|
    ensures forall i :: 0 <= i < |out| ==>
      out[i] == ProcessEntry(processes, components, matrix, haupt.keys[i], haupt.entries[haupt.keys[i]])
  {
    seq(|haupt.keys|, i requires 0 <= i < |haupt.keys| =>
      ProcessEntry(processes, components, matrix, haupt.keys[i], haupt.entries[haupt.keys[i]]))
  }

  /** The building-block loop: append one component node per block. */
  method AppendComponents(components: OrderedMap<string, Info>, bbs: seq<Value>) returns (children: seq<MapNode>)
    requires TableHasKeys(components, ComponentAttributeKeys)
    ensures children == ComponentNodes(components, bbs)
  {
    children := [];
    for k := 0 to |bbs|
      invariant children == ComponentNodes(components, bbs[..k])
    {
      var node := MakeComponentNode(components, bbs[k]);
      ComponentNodesSnoc(components, bbs, k);
      children := children + [node];
    }
    assert bbs[..|bbs|] == bbs;
  }

  /** One more building block adds its node at the end. */
  lemma ComponentNodesSnoc(components: OrderedMap<string, Info>, bbs: seq<Value>, k: nat)
    requires TableHasKeys(components, ComponentAttributeKeys) && k < |bbs|
    ensures ComponentNodes(components, bbs[..k + 1]) == ComponentNodes(components, bbs[..k]) + [ComponentNode(components, bbs[k])]
  {
    var a := ComponentNodes(components, bbs[..k + 1]);
    var b := ComponentNodes(components, bbs[..k]) + [ComponentNode(components, bbs[k])];
    forall j | 0 <= j < |a| ensures a[j] == b[j] {
      assert bbs[..k + 1][j] == bbs[j];
      if j < k {
        assert bbs[..k][j] == bbs[j];
      }
    }
  }

  /** The body of the building-block loop: look the block up, falling back
      to a default entry, and build its node. */
  method MakeComponentNode(components: OrderedMap<string, Info>, bbValue: Value) returns (node: MapNode)
    requires TableHasKeys(components, ComponentAttributeKeys)
    ensures node == ComponentNode(components, bbValue)
  {
    var bb := PyStr(bbValue);
    var bbInfo := Get(components, bb, DefaultInfo("Component " + bb, ComponentAttributeKeys));
    node := MapNode(bb + " - " + PyStr(bbInfo.name), bbInfo.attributes, None);
    DefaultComponentName(bb);
  }

  /** The body of the main loop for one process: one node per partial
      solution, then the direct-components node when there are none. */
  method BuildChildren(processes: OrderedMap<string, Info>, components: OrderedMap<string, Info>,
                       matrix: OrderedMap<string, seq<Value>>, processId: string, psIds: seq<string>)
    returns (children: seq<MapNode>)
    requires TableHasKeys(processes, ProcessAttributeKeys) && TableHasKeys(components, ComponentAttributeKeys)
    ensures children == ProcessChildren(processes, components, matrix, processId, psIds)
  {
    children := [];
    for k := 0 to |psIds|
      invariant |children| == k
      invariant forall j :: 0 <= j < k ==> children[j] == PartialSolutionNode(processes, components, matrix, psIds[j])
    {
      var psId := psIds[k];
      var psInfo := Get(processes, psId, DefaultInfo("Partial Solution " + psId, ProcessAttributeKeys));
      var blocks := AppendComponents(components, BuildingBlocks(matrix, psId));
      children := children + [MapNode("ID: " + psId, psInfo.attributes, Some(blocks))];
    }
    if psIds == [] && processId in matrix.entries && matrix.entries[processId] != [] {
      var blocks := AppendComponents(components, matrix.entries[processId]);
      children := children + [MapNode("Direct Components for " + processId, [], Some(blocks))];
    }
  }

  /** The main loop of the script: walk the Hauptprozess map and append one
      entry per process. */
  method BuildHierarchy(haupt: OrderedMap<string, seq<string>>, processes: OrderedMap<string, Info>,
                        components: OrderedMap<string, Info>, matrix: OrderedMap<string, seq<Value>>)
    returns (output: seq<Entry>)
    requires ValidMap(haupt)
    requires TableHasKeys(processes, ProcessAttributeKeys) && TableHasKeys(components, ComponentAttributeKeys)
    ensures output == Hierarchy(haupt, processes, components, matrix)
  {
    ghost var all := Hierarchy(haupt, processes, components, matrix);
    output := [];
    for i := 0 to |haupt.keys|
      invariant output == all[..i]
    {
      var processId := haupt.keys[i];
      var entry := BuildEntry(processes, components, matrix, processId, haupt.entries[processId]);
      assert all[..i + 1] == all[..i] + [entry];
      output := output + [entry];
    }
    assert all[..|haupt.keys|] == all;
  }

  /** The body of the main loop: one process and its children. */
  method BuildEntry(processes: OrderedMap<string, Info>, components: OrderedMap<string, Info>,
                    matrix: OrderedMap<string, seq<Value>>, processId: string, psIds: seq<string>)
    returns (entry: Entry)
    requires TableHasKeys(processes, ProcessAttributeKeys) && TableHasKeys(components, ComponentAttributeKeys)
    ensures entry == ProcessEntry(processes, components, matrix, processId, psIds)
  {
    var processInfo := Get(processes, processId, DefaultInfo("Process " + processId, ProcessAttributeKeys));
    var children := BuildChildren(processes, components, matrix, processId, psIds);
    entry := Entry("Process_" + processId, processInfo.name, MapNode(processId, processInfo.attributes, Some(children)));
  }

  // ---------------------------------------------------------------------
  // Properties of the tables and the tree

  /** A process record with a truthy number is found under the text of that
      number. */
  lemma ProcessLookupFinds(records: seq<Record>, i: nat)
    requires ProcessLookup(records).Success? && i < |records|
    requires "Prozessnummer" in records[i] && Truthy(records[i]["Prozessnummer"])
    ensures PyInt(records[i]["Prozessnummer"]).Success?
    ensures IntToString(PyInt(records[i]["Prozessnummer"]).value) in ProcessLookup(records).value.entries
  {
    ProcessPairsCover(records, i);
    var pairs := ProcessPairs(records).value;
    TableKeys(pairs);
  }

  /** One more record: a kept record's pair is written into the table, a
      skipped record leaves it as it was. */
  lemma ProcessLookupStep(records: seq<Record>)
    requires records != [] && ProcessLookup(records).Success?
    ensures ProcessLookup(records[..|records| - 1]).Success?
    ensures ProcessKept(records[|records| - 1]) ==>
      var p := ProcessPair(records[|records| - 1]).value;
      ProcessLookup(records).value == Put(ProcessLookup(records[..|records| - 1]).value, p.0, p.1)
    ensures !ProcessKept(records[|records| - 1]) ==>
      ProcessLookup(records).value == ProcessLookup(records[..|records| - 1]).value
  {
    var front := ProcessPairs(records[..|records| - 1]).value;
    if ProcessKept(records[|records| - 1]) {
      var p := ProcessPair(records[|records| - 1]).value;
      assert (front + [p])[..|front|] == front;
    }
  }

  /** Record `rec` is kept and its key is `k`. */
  predicate ProcessKeyed(rec: Record, k: string) {
    ProcessKept(rec) && PyInt(rec["Prozessnummer"]).Success? && IntToString(PyInt(rec["Prozessnummer"]).value) == k
  }

  /** Every key of `process_lookup` is the key of a kept record. */
  lemma {:induction false} ProcessKeySource(records: seq<Record>, k: string)
    requires ProcessLookup(records).Success? && k in ProcessLookup(records).value.entries
    ensures exists i :: 0 <= i < |records| && ProcessKeyed(records[i], k)
  {
    var n := |records| - 1;
    var init := records[..n];
    ProcessLookupStep(records);
    if k in ProcessLookup(init).value.entries {
      ProcessKeySource(init, k);
      var i :| 0 <= i < |init| && ProcessKeyed(init[i], k);
      assert init[i] == records[i];
    } else {
      assert ProcessKeyed(records[n], k);
    }
  }

  /** `process_lookup` holds exactly the keys `str(int(Prozessnummer))` of the
      records with a truthy Prozessnummer; records with a falsy one add nothing. */
  lemma ProcessLookupKeys(records: seq<Record>)
    requires ProcessLookup(records).Success?
    ensures forall k :: k in ProcessLookup(records).value.entries <==>
      exists i :: 0 <= i < |records| && ProcessKeyed(records[i], k)
  {
    forall k ensures k in ProcessLookup(records).value.entries <==>
      exists i :: 0 <= i < |records| && ProcessKeyed(records[i], k)
    {
      if k in ProcessLookup(records).value.entries {
        ProcessKeySource(records, k);
      }
      if exists i :: 0 <= i < |records| && ProcessKeyed(records[i], k) {
        var i :| 0 <= i < |records| && ProcessKeyed(records[i], k);
        ProcessLookupFinds(records, i);
      }
    }
  }

  /** A last record that does not have key `k` leaves the entry under `k` alone. */
  lemma ProcessLookupKeeps(records: seq<Record>, k: string)
    requires records != [] && ProcessLookup(records).Success?
    requires !ProcessKeyed(records[|records| - 1], k)
    ensures ProcessLookup(records[..|records| - 1]).Success?
    ensures k in ProcessLookup(records).value.entries <==> k in ProcessLookup(records[..|records| - 1]).value.entries
    ensures k in ProcessLookup(records).value.entries ==>
      ProcessLookup(records).value.entries[k] == ProcessLookup(records[..|records| - 1]).value.entries[k]
  {
    ProcessLookupStep(records);
    if ProcessKept(records[|records| - 1]) {
      assert ProcessPairOk(records[|records| - 1]);
    }
  }

  /** A last record with key `k` writes its info under `k`. */
  lemma ProcessLookupWrites(records: seq<Record>, k: string)
    requires records != [] && ProcessLookup(records).Success?
    requires ProcessKeyed(records[|records| - 1], k)
    ensures ProcessPair(records[|records| - 1]).Success?
    ensures k in ProcessLookup(records).value.entries
    ensures ProcessLookup(records).value.entries[k] == ProcessPair(records[|records| - 1]).value.1
  {
    ProcessLookupStep(records);
    assert ProcessPairOk(records[|records| - 1]);
  }

  /** Under each key, `process_lookup` holds the name and attributes of the
      last kept record with that key. */
  lemma {:induction false} ProcessLookupLast(records: seq<Record>, i: nat, k: string)
    requires ProcessLookup(records).Success? && i < |records| && ProcessKeyed(records[i], k)
    requires forall j :: i < j < |records| ==> !ProcessKeyed(records[j], k)
    ensures ProcessPair(records[i]).Success?
    ensures k in ProcessLookup(records).value.entries
    ensures ProcessLookup(records).value.entries[k] == ProcessPair(records[i]).value.1
  {
    var n := |records| - 1;
    if i == n {
      ProcessLookupWrites(records, k);
    } else {
      var init := records[..n];
      ProcessLookupKeeps(records, k);
      assert init[i] == records[i];
      forall j | i < j < |init| ensures !ProcessKeyed(init[j], k) {
        assert init[j] == records[j];
      }
      ProcessLookupLast(init, i, k);
    }
  }

  /** Every record with a truthy number contributes its pair. */
  lemma {:induction false} ProcessPairsCover(records: seq<Record>, i: nat)
    requires ProcessPairs(records).Success? && i < |records|
    requires "Prozessnummer" in records[i] && Truthy(records[i]["Prozessnummer"])
    ensures ProcessPair(records[i]).Success? && ProcessPair(records[i]).value in ProcessPairs(records).value
    ensures PyInt(records[i]["Prozessnummer"]).Success?
    ensures ProcessPair(records[i]).value.0 == IntToString(PyInt(records[i]["Prozessnummer"]).value)
  {
    var init := records[..|records| - 1];
    var rec := records[|records| - 1];
    assert ProcessPairs(init).Success?;
    var front := ProcessPairs(init).value;
    if i < |init| {
      assert init[i] == records[i];
      ProcessPairsCover(init, i);
      assert front <= ProcessPairs(records).value;
    } else {
      assert rec == records[i] && ProcessKept(rec);
      assert ProcessPairOk(rec);
      assert ProcessPairs(records).value == front + [ProcessPair(rec).value];
    }
  }

  /** One more record for `component_lookup`, as for `process_lookup`. */
  lemma ComponentLookupStep(records: seq<Record>)
    requires records != [] && ComponentLookup(records).Success?
    ensures ComponentLookup(records[..|records| - 1]).Success?
    ensures ComponentKept(records[|records| - 1]) ==>
      var p := ComponentPair(records[|records| - 1]).value;
      ComponentLookup(records).value == Put(ComponentLookup(records[..|records| - 1]).value, p.0, p.1)
    ensures !ComponentKept(records[|records| - 1]) ==>
      ComponentLookup(records).value == ComponentLookup(records[..|records| - 1]).value
  {
    var front := ComponentPairs(records[..|records| - 1]).value;
    if ComponentKept(records[|records| - 1]) {
      var p := ComponentPair(records[|records| - 1]).value;
      assert (front + [p])[..|front|] == front;
    }
  }

  /** Record `rec` is kept by `component_lookup` and its key `str(Lfd. Nummer)` is `k`. */
  predicate ComponentKeyed(rec: Record, k: string) {
    ComponentKept(rec) && PyStr(rec["Lfd. Nummer"]) == k
  }

  /** A last record that does not have key `k` leaves the entry under `k` alone. */
  lemma ComponentLookupKeeps(records: seq<Record>, k: string)
    requires records != [] && ComponentLookup(records).Success?
    requires !ComponentKeyed(records[|records| - 1], k)
    ensures ComponentLookup(records[..|records| - 1]).Success?
    ensures k in ComponentLookup(records).value.entries <==> k in ComponentLookup(records[..|records| - 1]).value.entries
    ensures k in ComponentLookup(records).value.entries ==>
      ComponentLookup(records).value.entries[k] == ComponentLookup(records[..|records| - 1]).value.entries[k]
  {
    ComponentLookupStep(records);
    if ComponentKept(records[|records| - 1]) {
      assert ComponentPairOk(records[|records| - 1]);
    }
  }

  /** A last record with key `k` writes its info under `k`. */
  lemma ComponentLookupWrites(records: seq<Record>, k: string)
    requires records != [] && ComponentLookup(records).Success?
    requires ComponentKeyed(records[|records| - 1], k)
    ensures ComponentPair(records[|records| - 1]).Success?
    ensures k in ComponentLookup(records).value.entries
    ensures ComponentLookup(records).value.entries[k] == ComponentPair(records[|records| - 1]).value.1
  {
    ComponentLookupStep(records);
    assert ComponentPairOk(records[|records| - 1]);
  }

  /** Every key of `component_lookup` is the key of a kept record. */
  lemma {:induction false} ComponentKeySource(records: seq<Record>, k: string)
    requires ComponentLookup(records).Success? && k in ComponentLookup(records).value.entries
    ensures exists i :: 0 <= i < |records| && ComponentKeyed(records[i], k)
  {
    var n := |records| - 1;
    var init := records[..n];
    ComponentLookupStep(records);
    if k in ComponentLookup(init).value.entries {
      ComponentKeySource(init, k);
      var i :| 0 <= i < |init| && ComponentKeyed(init[i], k);
      assert init[i] == records[i];
    } else {
      assert ComponentKeyed(records[n], k);
    }
  }

  /** Under each key, `component_lookup` holds the name and attributes of the
      last kept record with that key. */
  lemma {:induction false} ComponentLookupLast(records: seq<Record>, i: nat, k: string)
    requires ComponentLookup(records).Success? && i < |records| && ComponentKeyed(records[i], k)
    requires forall j :: i < j < |records| ==> !ComponentKeyed(records[j], k)
    ensures ComponentPair(records[i]).Success?
    ensures k in ComponentLookup(records).value.entries
    ensures ComponentLookup(records).value.entries[k] == ComponentPair(records[i]).value.1
  {
    var n := |records| - 1;
    if i == n {
      ComponentLookupWrites(records, k);
    } else {
      var init := records[..n];
      ComponentLookupKeeps(records, k);
      assert init[i] == records[i];
      forall j | i < j < |init| ensures !ComponentKeyed(init[j], k) {
        assert init[j] == records[j];
      }
      ComponentLookupLast(init, i, k);
    }
  }

  /** `component_lookup` holds exactly the keys `str(Lfd. Nummer)` of the
      records with a truthy Lfd. Nummer; records with a falsy one add nothing. */
  lemma ComponentLookupKeys(records: seq<Record>)
    requires ComponentLookup(records).Success?
    ensures forall k :: k in ComponentLookup(records).value.entries <==>
      exists i :: 0 <= i < |records| && ComponentKeyed(records[i], k)
  {
    forall k ensures k in ComponentLookup(records).value.entries <==>
      exists i :: 0 <= i < |records| && ComponentKeyed(records[i], k)
    {
      if k in ComponentLookup(records).value.entries {
        ComponentKeySource(records, k);
      }
      if exists i :: 0 <= i < |records| && ComponentKeyed(records[i], k) {
        var i :| 0 <= i < |records| && ComponentKeyed(records[i], k);
        ComponentLookupFinds(records, i, k);
      }
    }
  }

  /** A kept component record's key is in the table. */
  lemma {:induction false} ComponentLookupFinds(records: seq<Record>, i: nat, k: string)
    requires ComponentLookup(records).Success? && i < |records| && ComponentKeyed(records[i], k)
    ensures k in ComponentLookup(records).value.entries
  {
    var n := |records| - 1;
    if ComponentKeyed(records[n], k) {
      ComponentLookupWrites(records, k);
    } else {
      var init := records[..n];
      ComponentLookupKeeps(records, k);
      assert init[i] == records[i];
      ComponentLookupFinds(init, i, k);
    }
  }

  /** `int()` of an integral float gives the integer back. */
  lemma TruncateIntegral(n: int)
    ensures Truncate(n as real) == n
  {
    if n < 0 {
      assert (-(n as real)).Floor == -n;
    }
  }

  /** A Prozessnummer that Excel turned into a float is stored under the same
      key that the Hauptprozess map gives that number. */
  lemma FloatKeysAgree(n: int)
    ensures PyInt(Float(n as real, IntToString(n) + ".0")) == Success(n)
    ensures NormalizeId(Float(n as real, IntToString(n) + ".0")) == IntToString(n)
  {
    TruncateIntegral(n);
    NormalizeIntegralFloat(n);
  }

  /** Nodes of the component level: no children, the component attributes. */
  ghost predicate ComponentLevel(nodes: seq<MapNode>) {
    forall b :: 0 <= b < |nodes| ==> nodes[b].children.None? && AttrKeys(nodes[b].attributes) == ComponentAttributeKeys
  }

  /** Nodes of the partial-solution level: each has a children list, all of
      the component level. */
  ghost predicate PartialLevel(nodes: seq<MapNode>) {
    forall k :: 0 <= k < |nodes| ==> nodes[k].children.Some? && ComponentLevel(nodes[k].children.value)
  }

  /** Below every process come partial solutions, then components, which
      have no children. */
  lemma ProcessChildrenShape(processes: OrderedMap<string, Info>, components: OrderedMap<string, Info>,
                             matrix: OrderedMap<string, seq<Value>>, processId: string, psIds: seq<string>)
    requires TableHasKeys(processes, ProcessAttributeKeys) && TableHasKeys(components, ComponentAttributeKeys)
    ensures PartialLevel(ProcessChildren(processes, components, matrix, processId, psIds))
  {
    var cs := ProcessChildren(processes, components, matrix, processId, psIds);
    forall k | 0 <= k < |cs| ensures cs[k].children.Some? && ComponentLevel(cs[k].children.value) {
      var bbs := if k < |psIds| then BuildingBlocks(matrix, psIds[k]) else matrix.entries[processId];
      assert cs[k].children == Some(ComponentNodes(components, bbs));
    }
  }

  /** The tree has three levels below each entry: partial solutions, then
      components, and components have no children. */
  lemma HierarchyShape(haupt: OrderedMap<string, seq<string>>, processes: OrderedMap<string, Info>,
                       components: OrderedMap<string, Info>, matrix: OrderedMap<string, seq<Value>>)
    requires ValidMap(haupt)
    requires TableHasKeys(processes, ProcessAttributeKeys) && TableHasKeys(components, ComponentAttributeKeys)
    ensures forall i :: 0 <= i < |haupt.keys| ==>
      var e := Hierarchy(haupt, processes, components, matrix)[i];
      e.data.children.Some? && PartialLevel(e.data.children.value)
  {
    forall i | 0 <= i < |haupt.keys|
      ensures Hierarchy(haupt, processes, components, matrix)[i].data.children.Some?
      ensures PartialLevel(Hierarchy(haupt, processes, components, matrix)[i].data.children.value)
    {
      ProcessChildrenShape(processes, components, matrix, haupt.keys[i], haupt.entries[haupt.keys[i]]);
    }
  }
}
