/** The records of the ComfyUI panel and the decisions it takes on plain
    values: choice lists read out of a ComfyUI `object_info` response, the
    workflow placeholder check, the workflow the dropdown selects, the LoRA
    preview, LoRA slot padding, and which preset or workflow a selection
    change links to. */
module ComfyUI {
  import opened Common
  import opened Registry
  import opened ApiPresets

  // ---------------------------------------------------------------- records

  /** One LoRA slot of a preset; the strength is an opaque number. */
  datatype LoraSlot = LoraSlot(name: string, strength: real)

  /** The `{ name: 'None', strength: 1.0 }` slot used for padding. */
  const EmptySlot := LoraSlot("None", 1.0)

  /** Number of LoRA slots a preset is edited with. */
  const SlotCount := 8

  /** A LoRA preset's fields besides its name; a missing `loras` array
      behaves as an empty one everywhere it is read. */
  datatype LoraBody = LoraBody(loras: seq<LoraSlot>, status: int, boundWorkflow: string, createdAt: int)

  type LoraPreset = Named<LoraBody>

  /** A workflow's content: JSON text, or a parsed value (as an imported file
      may carry) given with the text `JSON.stringify` would make of it. */
  datatype Content = Text(text: string) | Structured(serialized: string)

  /** `typeof c === 'string' ? c : JSON.stringify(c)`. */
  function AsText(c: Content): (r: string)
  {
    match c
    case Text(t) => t
    case Structured(j) => j
  }

  datatype WorkflowBody = WorkflowBody(content: Content, status: int, createdAt: int)

  type Workflow = Named<WorkflowBody>

  /** The connection fields of a ComfyUI API preset. */
  datatype ComfyConn = ComfyConn(url: string, apiMode: string)

  /** The preset `_saveApiPreset` builds from the form: the URL trimmed, the
      mode defaulting to `'direct'`. */
  function ConnFromForm(urlInput: string, modeInput: string): (r: ComfyConn)
    ensures r.url == Trim(urlInput)
    ensures r.apiMode == (if modeInput == "" then "direct" else modeInput)
  {
    ComfyConn(Trim(urlInput), OrElse(modeInput, "direct"))
  }

  /** `collectSettings`: the selected preset's connection when the selection
      names one, the form's URL as typed and its mode (defaulting to
      `'direct'`) otherwise. */
  function CollectConnection(presets: seq<Named<ComfyConn>>, selected: string, urlInput: string, modeInput: string): (r: ComfyConn)
    ensures !HasName(presets, selected) ==> r == ComfyConn(urlInput, OrElse(modeInput, "direct"))
    ensures HasName(presets, selected) ==> exists i :: 0 <= i < |presets| && presets[i].name == selected && r == presets[i].body
  {
    ResolveConnection(presets, selected, ComfyConn(urlInput, OrElse(modeInput, "direct")))
  }

  /** The default ComfyUI address: `refreshOptions` requests
      `NormalizeUrl(url, DefaultUrl)`, whose shape `NormalizeUrlWithDefault`
      states. */
  const DefaultUrl := "http://127.0.0.1:8188"

  // ------------------------------------------------------------ object_info

  /** The first element of `node.input.required[inputName]`: a list of
      choices, or something else. */
  datatype InputEntry = Choices(values: seq<string>) | Other

  /** A node of `object_info`; a node without `input` or `input.required`
      behaves as one with an empty `required` map. */
  datatype NodeInfo = NodeInfo(required: map<string, seq<InputEntry>>)

  /** `object_info`: node types in the object's key order. */
  type ObjectInfo = seq<Named<NodeInfo>>

  /** The choices one node offers for an input: `required[inputName][0]` when
      it is an array, `[]` otherwise. */
  function NodeChoices(node: NodeInfo, inputName: string): (r: seq<string>)
    ensures inputName !in node.required ==> r == []
    ensures inputName in node.required && r != [] ==>
      |node.required[inputName]| > 0 && node.required[inputName][0] == Choices(r)
  {
    if inputName !in node.required then []
    else
      var spec := node.required[inputName];
      if |spec| > 0 && spec[0].Choices? then spec[0].values else []
  }

  /** `_extractOptions`: the choices of one named node type. */
  function ExtractOptions(info: ObjectInfo, nodeType: string, inputName: string): (r: seq<string>)
    ensures !HasName(info, nodeType) ==> r == []
    ensures r != [] ==> exists i :: 0 <= i < |info| && info[i].name == nodeType && r == NodeChoices(info[i].body, inputName)
  {
    match Find(info, nodeType)
    case None => []
    case Some(node) => NodeChoices(node.body, inputName)
  }

  /** `_extractOptions` yields `[]` when the input is missing on the node, or
      its first element is not an array. */
  lemma ExtractOptionsEmpty(info: ObjectInfo, i: nat, inputName: string)
    requires NamesUnique(info) && i < |info|
    requires var req := info[i].body.required;
      inputName !in req || req[inputName] == [] || !req[inputName][0].Choices?
    ensures ExtractOptions(info, info[i].name, inputName) == []
  {
    FindIndexUnique(info, i);
  }

  /** `s` without repetitions, each value kept at its first occurrence: what
      adding the values to a `Set` one by one and reading it back with
      `Array.from` gives. */
  function Dedup(s: seq<string>): (r: seq<string>)
  {
    if s == [] then []
    else
      var d := Dedup(s[..|s| - 1]);
      if s[|s| - 1] in d then d else d + [s[|s| - 1]]
  }

  predicate NoDuplicates(s: seq<string>)
  {
    forall i, j :: 0 <= i < j < |s| ==> s[i] != s[j]
  }

  /** Deduplication keeps exactly the values of `s`, each once, and is empty
      only for the empty list. */
  lemma {:induction false} DedupSpec(s: seq<string>)
    ensures NoDuplicates(Dedup(s))
    ensures forall v :: v in Dedup(s) <==> v in s
    ensures Dedup(s) == [] <==> s == []
  {
    if s != [] {
      var init := s[..|s| - 1];
      DedupSpec(init);
      assert s == init + [s[|s| - 1]];
    }
  }

  /** Adding more values to the set extends what it already holds. */
  lemma DedupAppend(s: seq<string>, v: string)
    ensures Dedup(s + [v]) == if v in Dedup(s) then Dedup(s) else Dedup(s) + [v]
  {
    assert (s + [v])[..|s + [v]| - 1] == s;
  }

  /** The choices of the preferred node types, concatenated in order. */
  function PreferredChoices(info: ObjectInfo, inputName: string, preferred: seq<string>): seq<string>
  {
    if preferred == [] then []
    else PreferredChoices(info, inputName, preferred[..|preferred| - 1])
         + ExtractOptions(info, preferred[|preferred| - 1], inputName)
  }

  /** The choices of every node, concatenated in key order. */
  function AllChoices(nodes: ObjectInfo, inputName: string): seq<string>
  {
    if nodes == [] then []
    else AllChoices(nodes[..|nodes| - 1], inputName) + NodeChoices(nodes[|nodes| - 1].body, inputName)
  }

  /** `values.forEach(v => resultSet.add(v))`. */
  method AddEach(acc: seq<string>, ghost seen: seq<string>, values: seq<string>) returns (r: seq<string>)
    requires acc == Dedup(seen)
    ensures r == Dedup(seen + values)
  {
    r := acc;
    assert seen + values[..0] == seen;
    for i := 0 to |values|
      invariant r == Dedup(seen + values[..i])
    {
      DedupAppend(seen + values[..i], values[i]);
      assert seen + values[..i + 1] == seen + values[..i] + [values[i]];
      if values[i] !in r {
        r := r + [values[i]];
      }
    }
    assert values[..|values|] == values;
  }

  /** `_extractAllOptions`: the distinct choices of the preferred node types;
      only when they yield none, the distinct choices of all nodes. */
  method ExtractAllOptions(info: ObjectInfo, inputName: string, preferred: seq<string>) returns (r: seq<string>)
    ensures var pref := PreferredChoices(info, inputName, preferred);
      r == if pref == [] then Dedup(AllChoices(info, inputName)) else Dedup(pref)
  {
    r := [];
    for i := 0 to |preferred|
      invariant r == Dedup(PreferredChoices(info, inputName, preferred[..i]))
    {
      assert preferred[..i + 1][..i] == preferred[..i];
      r := AddEach(r, PreferredChoices(info, inputName, preferred[..i]), ExtractOptions(info, preferred[i], inputName));
    }
    assert preferred[..|preferred|] == preferred;
    DedupSpec(PreferredChoices(info, inputName, preferred));
    if |r| == 0 {
      for j := 0 to |info|
        invariant r == Dedup(AllChoices(info[..j], inputName))
      {
        assert info[..j + 1][..j] == info[..j];
        r := AddEach(r, AllChoices(info[..j], inputName), NodeChoices(info[j].body, inputName));
      }
      assert info[..|info|] == info;
    }
  }

  /** A value is offered by the preferred scan exactly when some preferred
      node type offers it. */
  lemma {:induction false} PreferredChoicesMembers(info: ObjectInfo, inputName: string, preferred: seq<string>, v: string)
    ensures v in PreferredChoices(info, inputName, preferred) <==>
      exists k :: 0 <= k < |preferred| && v in ExtractOptions(info, preferred[k], inputName)
  {
    var lists := seq(|preferred|, k requires 0 <= k < |preferred| => ExtractOptions(info, preferred[k], inputName));
    PreferredChoicesFlatten(info, inputName, preferred);
    FlattenMembers(lists, v);
    assert forall k :: 0 <= k < |preferred| ==> lists[k] == ExtractOptions(info, preferred[k], inputName);
  }

  /** The lists, concatenated in order. */
  function Flatten(lists: seq<seq<string>>): seq<string>
  {
    if lists == [] then [] else Flatten(lists[..|lists| - 1]) + lists[|lists| - 1]
  }

  lemma {:induction false} FlattenMembers(lists: seq<seq<string>>, v: string)
    ensures v in Flatten(lists) <==> exists k :: 0 <= k < |lists| && v in lists[k]
  {
    if lists != [] {
      var n := |lists| - 1;
      var init := lists[..n];
      FlattenMembers(init, v);
      if v in Flatten(init) {
        var k :| 0 <= k < |init| && v in init[k];
        assert lists[k] == init[k];
      }
      if exists k :: 0 <= k < |lists| && v in lists[k] {
        var k :| 0 <= k < |lists| && v in lists[k];
        if k < n {
          assert init[k] == lists[k];
        }
      }
    }
  }

  /** The preferred scan concatenates the choices of each preferred type. */
  lemma {:induction false} PreferredChoicesFlatten(info: ObjectInfo, inputName: string, preferred: seq<string>)
    ensures PreferredChoices(info, inputName, preferred)
      == Flatten(seq(|preferred|, k requires 0 <= k < |preferred| => ExtractOptions(info, preferred[k], inputName)))
  {
    if preferred != [] {
      var n := |preferred| - 1;
      PreferredChoicesFlatten(info, inputName, preferred[..n]);
      var lists := seq(|preferred|, k requires 0 <= k < |preferred| => ExtractOptions(info, preferred[k], inputName));
      var front := seq(n, k requires 0 <= k < n => ExtractOptions(info, preferred[..n][k], inputName));
      assert lists[..n] == front;
    }
  }

  /** The list `_extractAllOptions` returns is free of duplicates; when some
      preferred node type offers a value, its members are exactly the values
      such nodes offer, and the other nodes are not looked at. */
  lemma ExtractAllOptionsResult(info: ObjectInfo, inputName: string, preferred: seq<string>, v: string)
    requires exists k :: 0 <= k < |preferred| && ExtractOptions(info, preferred[k], inputName) != []
    ensures var pref := PreferredChoices(info, inputName, preferred);
      pref != [] && NoDuplicates(Dedup(pref))
      && (v in Dedup(pref) <==> exists k :: 0 <= k < |preferred| && v in ExtractOptions(info, preferred[k], inputName))
  {
    var k :| 0 <= k < |preferred| && ExtractOptions(info, preferred[k], inputName) != [];
    var w := ExtractOptions(info, preferred[k], inputName)[0];
    PreferredChoicesMembers(info, inputName, preferred, w);
    PreferredChoicesMembers(info, inputName, preferred, v);
    DedupSpec(PreferredChoices(info, inputName, preferred));
  }

  // --------------------------------------------------------- param checker

  /** One row of the workflow parameter checker: a title and the placeholder
      names that count as that parameter. */
  datatype ParamCheck = ParamCheck(title: string, placeholders: seq<string>)

  const ParamsToCheck: seq<ParamCheck> := [
      ParamCheck("正向提示词", ["正面提示词", "正向提示词"]),
      ParamCheck("反向提示词", ["负面提示词", "负向提示词", "反向提示词"]),
      ParamCheck("主模型", ["主模型"]),
      ParamCheck("采样器", ["采样器"]),
      ParamCheck("调度器", ["调度器"]),
      ParamCheck("宽度/高度", ["宽度", "高度"]),
      ParamCheck("步数", ["步数"]),
      ParamCheck("种子", ["种子"]),
      ParamCheck("CFG", ["CFG"])
    ]

  /** A placeholder appears in the workflow text as a JSON string literal. */
  function Quoted(p: string): string
  {
    "\"" + p + "\""
  }

  /** `placeholders.some(p => text.includes(`"${p}"`))`. */
  predicate AnyQuoted(text: string, placeholders: seq<string>)
  {
    placeholders != [] && (Contains(text, Quoted(placeholders[0])) || AnyQuoted(text, placeholders[1..]))
  }

  /** `_updateParamChecker`'s detection: one flag per row, in order. */
  function CheckParams(text: string): (r: seq<bool>)
    ensures |r| == |ParamsToCheck|
  {
    seq(|ParamsToCheck|, i requires 0 <= i < |ParamsToCheck| => AnyQuoted(text, ParamsToCheck[i].placeholders))
  }

  /** A row is ticked exactly when one of its placeholders occurs, in double
      quotes, somewhere in the text. */
  lemma {:induction false} AnyQuotedIffOccurs(text: string, placeholders: seq<string>)
    ensures AnyQuoted(text, placeholders) <==>
      exists k, i :: 0 <= k < |placeholders| && OccursAt(text, Quoted(placeholders[k]), i)
  {
    if placeholders != [] {
      ContainsIffOccurs(text, Quoted(placeholders[0]));
      AnyQuotedIffOccurs(text, placeholders[1..]);
      if exists k, i :: 0 <= k < |placeholders| && OccursAt(text, Quoted(placeholders[k]), i) {
        var k, i :| 0 <= k < |placeholders| && OccursAt(text, Quoted(placeholders[k]), i);
        if k > 0 {
          assert placeholders[1..][k - 1] == placeholders[k];
        }
      }
      if AnyQuoted(text, placeholders[1..]) {
        var k, i :| 0 <= k < |placeholders[1..]| && OccursAt(text, Quoted(placeholders[1..][k]), i);
        assert placeholders[k + 1] == placeholders[1..][k];
      }
    }
  }

  /** The checker's row `i` is ticked exactly when one of that row's
      placeholders occurs quoted in the workflow text. */
  lemma CheckParamsRow(text: string, row: nat)
    requires row < |ParamsToCheck|
    ensures var ph := ParamsToCheck[row].placeholders;
      CheckParams(text)[row] <==> exists k, i :: 0 <= k < |ph| && OccursAt(text, Quoted(ph[k]), i)
  {
    AnyQuotedIffOccurs(text, ParamsToCheck[row].placeholders);
  }

  // ------------------------------------------------------ workflow target

  /** Workflow statuses that mark a default workflow. */
  predicate IsDefaultStatus(status: int)
  {
    status == 1 || status == 3
  }

  /** `workflows.find(w => w.status === 1 || w.status === 3)`, as a position. */
  function FirstDefault(ws: seq<Workflow>): (r: Option<nat>)
    ensures r.None? <==> forall k :: 0 <= k < |ws| ==> !IsDefaultStatus(ws[k].body.status)
    ensures r.Some? ==> r.value < |ws| && IsDefaultStatus(ws[r.value].body.status)
    ensures r.Some? ==> forall k :: 0 <= k < r.value ==> !IsDefaultStatus(ws[k].body.status)
  {
    if ws == [] then None
    else if IsDefaultStatus(ws[0].body.status) then Some(0)
    else match FirstDefault(ws[1..])
      case None => None
      case Some(k) => Some(k + 1)
  }

  /** The workflow `_renderWorkflowSelect` selects: the one named by the saved
      `activeWorkflow`, else the first default workflow, else none (`''`). */
  function WorkflowTarget(ws: seq<Workflow>, savedActive: string): (r: string)
    ensures r == "" || HasName(ws, r)
  {
    if HasName(ws, savedActive) then savedActive
    else match FirstDefault(ws)
      case Some(i) => ws[i].name
      case None => ""
  }

  /** The selection follows the stated priority. */
  lemma WorkflowTargetPriority(ws: seq<Workflow>, savedActive: string)
    ensures HasName(ws, savedActive) ==> WorkflowTarget(ws, savedActive) == savedActive
    ensures !HasName(ws, savedActive) && FirstDefault(ws).Some? ==>
      WorkflowTarget(ws, savedActive) == ws[FirstDefault(ws).value].name
    ensures !HasName(ws, savedActive) && (forall k :: 0 <= k < |ws| ==> !IsDefaultStatus(ws[k].body.status)) ==>
      WorkflowTarget(ws, savedActive) == ""
  {
  }

  // ------------------------------------------------------------ LoRA list

  /** A slot the preview lists: it has a name and the name is not `'None'`. */
  predicate IsUsedSlot(l: LoraSlot)
  {
    l.name != "" && l.name != "None"
  }

  /** `loras.filter(l => l.name && l.name !== 'None')`. */
  function UsedSlots(s: seq<LoraSlot>): (r: seq<LoraSlot>)
    ensures |r| <= |s|
    ensures forall i :: 0 <= i < |r| ==> IsUsedSlot(r[i]) && r[i] in s
    ensures forall i :: 0 <= i < |s| && IsUsedSlot(s[i]) ==> s[i] in r
  {
    if s == [] then []
    else (if IsUsedSlot(s[0]) then [s[0]] else []) + UsedSlots(s[1..])
  }

  /** `_updateLoraPreview`: the slots listed, or `None` when the preview is
      hidden (no preset, or no used slot). */
  function LoraPreview(preset: Option<LoraPreset>): (r: Option<seq<LoraSlot>>)
    ensures r.Some? <==> preset.Some? && exists i :: 0 <= i < |preset.value.body.loras| && IsUsedSlot(preset.value.body.loras[i])
    ensures r.Some? ==> r.value == UsedSlots(preset.value.body.loras) && r.value != []
  {
    match preset
    case None => None
    case Some(p) =>
      var used := UsedSlots(p.body.loras);
      if used == [] then None
      else
        assert used[0] in p.body.loras;
        Some(used)
  }

  /** `Array(8).fill(null).map((_, i) => loras?.[i] || EmptySlot)`. */
  function PadSlots(loras: seq<LoraSlot>): (r: seq<LoraSlot>)
    ensures |r| == SlotCount
  {
    seq(SlotCount, i requires 0 <= i < SlotCount => if i < |loras| then loras[i] else EmptySlot)
  }

  /** Padding a list of at most 8 slots keeps it as a prefix and fills the
      rest with empty slots; padding again changes nothing. */
  lemma PadSlotsSpec(loras: seq<LoraSlot>)
    requires |loras| <= SlotCount
    ensures PadSlots(loras)[..|loras|] == loras
    ensures forall i :: |loras| <= i < SlotCount ==> PadSlots(loras)[i] == EmptySlot
    ensures PadSlots(PadSlots(loras)) == PadSlots(loras)
  {
  }

  /** The slots of a new preset: eight empty ones. */
  lemma PadSlotsOfNothing()
    ensures PadSlots([]) == [EmptySlot, EmptySlot, EmptySlot, EmptySlot, EmptySlot, EmptySlot, EmptySlot, EmptySlot]
  {
  }

  /** Name of the unsaved preset the LoRA dialog shows when none is chosen. */
  const TemporaryPresetName := "未保存 (临时)"

  // ---------------------------------------------------- selection linking

  /** `loraPresets.find(p => p.boundWorkflow === wf)`, as a position. */
  function FindBoundTo(presets: seq<LoraPreset>, wf: string): (r: Option<nat>)
    ensures r.None? <==> forall k :: 0 <= k < |presets| ==> presets[k].body.boundWorkflow != wf
    ensures r.Some? ==> r.value < |presets| && presets[r.value].body.boundWorkflow == wf
    ensures r.Some? ==> forall k :: 0 <= k < r.value ==> presets[k].body.boundWorkflow != wf
  {
    if presets == [] then None
    else if presets[0].body.boundWorkflow == wf then Some(0)
    else match FindBoundTo(presets[1..], wf)
      case None => None
      case Some(k) => Some(k + 1)
  }

  /** The workflow `_handleLoraPresetChange` switches to, if any: only on a
      manual choice (`fromWorkflow` false), when the chosen preset is bound to
      a workflow that exists and is not the one already selected. */
  function LinkedWorkflow(presets: seq<LoraPreset>, name: string, fromWorkflow: bool,
                          ws: seq<Workflow>, selectedWorkflow: string): (r: Option<string>)
    ensures r.Some? ==> HasName(ws, r.value) && r.value != selectedWorkflow && r.value != "" && !fromWorkflow
    ensures r.Some? ==> exists i :: 0 <= i < |presets| && presets[i].name == name && presets[i].body.boundWorkflow == r.value
  {
    if fromWorkflow then None
    else match Find(presets, name)
      case None => None
      case Some(p) =>
        var target := p.body.boundWorkflow;
        if target == "" || target == selectedWorkflow || !HasName(ws, target) then None
        else Some(target)
  }

  /** With unique preset names, the chosen preset's bound workflow is switched
      to exactly when it exists and is not yet selected. */
  lemma LinkedWorkflowWhen(presets: seq<LoraPreset>, i: nat, ws: seq<Workflow>, selectedWorkflow: string)
    requires NamesUnique(presets) && i < |presets|
    ensures var t := presets[i].body.boundWorkflow;
      LinkedWorkflow(presets, presets[i].name, false, ws, selectedWorkflow).Some? <==>
        t != "" && t != selectedWorkflow && HasName(ws, t)
  {
    FindIndexUnique(presets, i);
  }

  // ------------------------------------------------------ single active

  /** The status `_handleLoraPresetChange(name)` leaves on one preset: the
      chosen one becomes active (1), a previously active other one becomes
      inactive (0), every other status stays. */
  function Activated(p: LoraPreset, name: string): LoraPreset
  {
    if p.name == name then p.(body := p.body.(status := 1))
    else if p.body.status == 1 then p.(body := p.body.(status := 0))
    else p
  }

  /** The preset's status actually changes, so it is written to the store. */
  predicate StatusChanges(p: LoraPreset, name: string)
  {
    if p.name == name then p.body.status != 1 else p.body.status == 1
  }

  /** The list after the `forEach`. */
  function ActivateAll(s: seq<LoraPreset>, name: string): (r: seq<LoraPreset>)
    ensures |r| == |s|
  {
    seq(|s|, i requires 0 <= i < |s| => Activated(s[i], name))
  }

  /** The records written by the `forEach`, in list order. */
  function ChangedRecords(s: seq<LoraPreset>, name: string): seq<LoraPreset>
  {
    if s == [] then []
    else
      var last := s[|s| - 1];
      ChangedRecords(s[..|s| - 1], name) + (if StatusChanges(last, name) then [Activated(last, name)] else [])
  }

  /** After the change exactly the presets named `name` are active: a status is
      1 afterwards iff the name is the chosen one, so no two differently named
      presets are both active. Only statuses change; a previously active other
      preset becomes 0, and an inactive other preset keeps its status. */
  lemma ActivateAllSpec(s: seq<LoraPreset>, name: string)
    ensures forall i :: 0 <= i < |s| ==>
      && ActivateAll(s, name)[i].name == s[i].name
      && ActivateAll(s, name)[i].body == s[i].body.(status := ActivateAll(s, name)[i].body.status)
      && (ActivateAll(s, name)[i].body.status == 1 <==> s[i].name == name)
      && (s[i].name != name && s[i].body.status != 1 ==> ActivateAll(s, name)[i] == s[i])
      && (s[i].name != name && s[i].body.status == 1 ==> ActivateAll(s, name)[i].body.status == 0)
    ensures forall i, j ::
      0 <= i < |s| && 0 <= j < |s| && ActivateAll(s, name)[i].body.status == 1 && ActivateAll(s, name)[j].body.status == 1
      ==> s[i].name == s[j].name
  {
  }

  /** A record is written exactly when its status changes, and what is written
      is its new value. */
  lemma {:induction false} ChangedRecordsSpec(s: seq<LoraPreset>, name: string, x: LoraPreset)
    ensures x in ChangedRecords(s, name) <==>
      exists i :: 0 <= i < |s| && StatusChanges(s[i], name) && x == Activated(s[i], name)
  {
    if s != [] {
      var init := s[..|s| - 1];
      ChangedRecordsSpec(init, name, x);
      if exists i :: 0 <= i < |init| && StatusChanges(init[i], name) && x == Activated(init[i], name) {
        var i :| 0 <= i < |init| && StatusChanges(init[i], name) && x == Activated(init[i], name);
        assert s[i] == init[i];
      }
      if exists i :: 0 <= i < |s| && StatusChanges(s[i], name) && x == Activated(s[i], name) {
        var i :| 0 <= i < |s| && StatusChanges(s[i], name) && x == Activated(s[i], name);
        if i < |init| {
          assert init[i] == s[i];
        }
      }
    }
  }

  /** The list part-way through the `forEach`: the first `k` presets updated. */
  function ActivatedUpTo(s: seq<LoraPreset>, name: string, k: nat): (r: seq<LoraPreset>)
    requires k <= |s|
    ensures |r| == |s|
  {
    seq(|s|, i requires 0 <= i < |s| => if i < k then Activated(s[i], name) else s[i])
  }

  /** One more step of the `forEach`. */
  lemma ChangedRecordsStep(s: seq<LoraPreset>, name: string, k: nat)
    requires 0 < k <= |s|
    ensures ChangedRecords(s[..k], name) == ChangedRecords(s[..k - 1], name)
      + (if StatusChanges(s[k - 1], name) then [Activated(s[k - 1], name)] else [])
  {
    assert s[..k][..k - 1] == s[..k - 1];
  }

  /** Updating position `k - 1` of the part-way list gives the next one;
      names are untouched throughout. */
  lemma ActivatedUpToStep(s: seq<LoraPreset>, name: string, k: nat)
    requires NamesUnique(s) && 0 < k <= |s|
    ensures NamesUnique(ActivatedUpTo(s, name, k - 1))
    ensures ActivatedUpTo(s, name, k - 1)[k - 1 := Activated(s[k - 1], name)] == ActivatedUpTo(s, name, k)
    ensures !StatusChanges(s[k - 1], name) ==> ActivatedUpTo(s, name, k - 1) == ActivatedUpTo(s, name, k)
  {
    var mid := ActivatedUpTo(s, name, k - 1);
    forall i | 0 <= i < |mid| ensures mid[i].name == s[i].name { }
  }

  /** Writing only the changed records into a store that held the list brings
      the store up to date with the whole new list. */
  lemma {:induction false} PutChangedUpTo(s: seq<LoraPreset>, name: string, k: nat)
    requires NamesUnique(s) && k <= |s|
    ensures PutAll(s, ChangedRecords(s[..k], name)) == ActivatedUpTo(s, name, k)
  {
    if k == 0 {
      assert s[..0] == [];
      assert ActivatedUpTo(s, name, 0) == s;
    } else {
      PutChangedUpTo(s, name, k - 1);
      ChangedRecordsStep(s, name, k);
      ActivatedUpToStep(s, name, k);
      var cr := ChangedRecords(s[..k - 1], name);
      var x := Activated(s[k - 1], name);
      var mid := ActivatedUpTo(s, name, k - 1);
      if StatusChanges(s[k - 1], name) {
        PutAllSnoc(s, cr, x);
        PutAt(mid, k - 1, x);
        assert PutAll(s, ChangedRecords(s[..k], name)) == mid[k - 1 := x];
      } else {
        assert cr + [] == cr;
        assert ChangedRecords(s[..k], name) == cr;
      }
    }
  }

  /** With the store holding the list, the writes leave it equal to the new list. */
  lemma PutChangedSyncs(s: seq<LoraPreset>, name: string)
    requires NamesUnique(s)
    ensures PutAll(s, ChangedRecords(s, name)) == ActivateAll(s, name)
  {
    PutChangedUpTo(s, name, |s|);
    assert s[..|s|] == s;
  }
}
