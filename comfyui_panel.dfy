/** The ComfyUI panel's state: the LoRA presets and workflows it holds in
    memory, and the two IndexedDB stores behind them. The store is modelled as
    a list keyed by name (`put` is an upsert); the panel may run without a
    database (`hasDb` false), in which case no store is touched. */
module ComfyUIPanel {
  import opened Common
  import opened Registry
  import opened ComfyUI

  // ------------------------------------------------------ loading workflows

  /** The workflows seeded into an empty store: one per default template, in
      order, active (status 1) exactly when its name contains `默认`. */
  function SeedWorkflows(defaults: seq<Named<string>>, now: int): (r: seq<Workflow>)
    ensures |r| == |defaults|
    ensures forall i :: 0 <= i < |r| ==> r[i].name == defaults[i].name && r[i].body.content == Text(defaults[i].body)
    ensures forall i :: 0 <= i < |r| ==> (r[i].body.status == 1 <==> Contains(defaults[i].name, "默认")) && r[i].body.status in {0, 1}
  {
    seq(|defaults|, i requires 0 <= i < |defaults| =>
      Named(defaults[i].name, WorkflowBody(Text(defaults[i].body), if Contains(defaults[i].name, "默认") then 1 else 0, now)))
  }

  /** `_loadWorkflows`: the in-memory list and the store afterwards. With a
      database the list is the store's content, seeded with the defaults
      when the store is empty; without one the list is empty. */
  function LoadWorkflows(hasDb: bool, store: seq<Workflow>, defaults: seq<Named<string>>, now: int): (r: (seq<Workflow>, seq<Workflow>))
  {
    if !hasDb then ([], store)
    else if store == [] then (SeedWorkflows(defaults, now), SeedWorkflows(defaults, now))
    else (store, store)
  }

  /** After loading, the list and the store agree (with a database), names
      stay unique, and a non-empty store is taken as it is. */
  lemma LoadWorkflowsSpec(hasDb: bool, store: seq<Workflow>, defaults: seq<Named<string>>, now: int)
    requires NamesUnique(store) && NamesUnique(defaults)
    ensures var (ws, st) := LoadWorkflows(hasDb, store, defaults, now);
      && NamesUnique(ws) && NamesUnique(st)
      && (hasDb ==> ws == st)
      && (!hasDb ==> ws == [] && st == store)
      && (hasDb && store != [] ==> ws == store)
      && (hasDb && store == [] ==> ws == SeedWorkflows(defaults, now))
  {
  }

  // ----------------------------------------------------- importing workflows

  /** `wf.status || 0`: a missing status becomes 0, a given one is kept. */
  function ImportedStatus(status: Option<int>): (r: int)
    ensures status.None? ==> r == 0
    ensures status.Some? ==> r == status.value
  {
    match status
    case None => 0
    case Some(v) => v
  }

  /** `_importSingleWorkflow` as written: a workflow already in the list gets
      the imported content exactly as given, also when it is a parsed object,
      and is written back; a new one is written (content as text) to the
      store only. */
  function ImportAsWritten(ws: seq<Workflow>, store: seq<Workflow>, hasDb: bool,
                           name: string, content: Content, status: Option<int>, now: int): (r: (seq<Workflow>, seq<Workflow>))
  {
    match FindIndex(ws, name)
    case Some(i) =>
      var e := Named(name, ws[i].body.(content := content));
      (ws[i := e], if hasDb then Put(store, e) else store)
    case None =>
      var n := Named(name, WorkflowBody(Text(AsText(content)), ImportedStatus(status), now));
      (ws, if hasDb then Put(store, n) else store)
  }

  /** Every stored workflow holds its content as text, as the editor needs. */
  predicate AllText(ws: seq<Workflow>)
  {
    forall i :: 0 <= i < |ws| ==> ws[i].body.content.Text?
  }

  /** As written, re-importing a file whose `content` is a JSON object over an
      existing workflow stores the object itself, so the store no longer
      holds text only. */
  lemma ImportAsWrittenStoresObject()
    ensures var ws := [Named("wf", WorkflowBody(Text("{}"), 1, 0))];
      var (ws2, st2) := ImportAsWritten(ws, ws, true, "wf", Structured("{\"1\":{}}"), None, 5);
      AllText(ws) && !AllText(st2) && !AllText(ws2)
  {
    var ws := [Named("wf", WorkflowBody(Text("{}"), 1, 0))];
    assert FindIndex(ws, "wf") == Some(0);
    var e := Named("wf", WorkflowBody(Structured("{\"1\":{}}"), 1, 0));
    PutAt(ws, 0, e);
  }

  /** `_importSingleWorkflow` with both branches converting the content to
      text, as the new-workflow branch does. */
  function Import(ws: seq<Workflow>, store: seq<Workflow>, hasDb: bool,
                  name: string, content: Content, status: Option<int>, now: int): (r: (seq<Workflow>, seq<Workflow>))
  {
    match FindIndex(ws, name)
    case Some(i) =>
      var e := Named(name, ws[i].body.(content := Text(AsText(content))));
      (ws[i := e], if hasDb then Put(store, e) else store)
    case None =>
      var n := Named(name, WorkflowBody(Text(AsText(content)), ImportedStatus(status), now));
      (ws, if hasDb then Put(store, n) else store)
  }

  /** Import is an upsert by name. An existing workflow keeps its status and
      creation time and only its content changes; a new one gets status
      `wf.status || 0` and goes to the store only. Names stay unique, no other
      record changes, and stored contents remain text. */
  lemma ImportSpec(ws: seq<Workflow>, store: seq<Workflow>, hasDb: bool,
                   name: string, content: Content, status: Option<int>, now: int, other: string)
    requires NamesUnique(ws) && NamesUnique(store) && other != name
    ensures var (ws2, st2) := Import(ws, store, hasDb, name, content, status, now);
      && NamesUnique(ws2) && NamesUnique(st2)
      && (AllText(ws) ==> AllText(ws2))
      && (AllText(store) ==> AllText(st2))
      && (!hasDb ==> st2 == store)
      && (hasDb ==> Find(st2, other) == Find(store, other))
      && Find(ws2, other) == Find(ws, other)
      && (!HasName(ws, name) ==> ws2 == ws)
      && (hasDb && !HasName(ws, name) ==>
            Find(st2, name) == Some(Named(name, WorkflowBody(Text(AsText(content)), ImportedStatus(status), now))))
      && (HasName(ws, name) ==>
            exists i :: 0 <= i < |ws| && ws[i].name == name
              && ws2 == ws[i := Named(name, ws[i].body.(content := Text(AsText(content))))]
              && (hasDb ==> Find(st2, name) == Some(ws2[i])))
  {
    var (ws2, st2) := Import(ws, store, hasDb, name, content, status, now);
    match FindIndex(ws, name)
    case Some(i) =>
      var e := Named(name, ws[i].body.(content := Text(AsText(content))));
      PutAt(ws, i, e);
      PutKeepsUnique(ws, e);
      PutOthers(ws, e, other);
      PutKeepsUnique(store, e);
      PutOthers(store, e, other);
    case None =>
      var n := Named(name, WorkflowBody(Text(AsText(content)), ImportedStatus(status), now));
      PutKeepsUnique(store, n);
      PutOthers(store, n, other);
  }

  /** One step of the `forEach` keeps the loop's invariant. */
  lemma ActivateStep(s0: seq<LoraPreset>, store: seq<LoraPreset>, hasDb: bool, name: string,
                     i: nat, writes: seq<LoraPreset>, st: seq<LoraPreset>)
    requires NamesUnique(s0) && i < |s0|
    requires writes == ChangedRecords(s0[..i], name)
    requires st == if hasDb then PutAll(store, writes) else store
    requires NamesUnique(st)
    ensures var q := Activated(s0[i], name);
      var changes := StatusChanges(s0[i], name);
      var writes2 := if changes then writes + [q] else writes;
      var st2 := if changes && hasDb then Put(st, q) else st;
      && writes2 == ChangedRecords(s0[..i + 1], name)
      && st2 == (if hasDb then PutAll(store, writes2) else store)
      && NamesUnique(st2)
    ensures ActivatedUpTo(s0, name, i)[i := Activated(s0[i], name)] == ActivatedUpTo(s0, name, i + 1)
    ensures !StatusChanges(s0[i], name) ==> ActivatedUpTo(s0, name, i) == ActivatedUpTo(s0, name, i + 1)
  {
    ChangedRecordsStep(s0, name, i + 1);
    ActivatedUpToStep(s0, name, i + 1);
    var q := Activated(s0[i], name);
    if StatusChanges(s0[i], name) && hasDb {
      PutAllSnoc(store, writes, q);
      PutKeepsUnique(st, q);
    }
  }

  /** The `forEach` of `_handleLoraPresetChange` over the list `s0` and the
      store `store`: each preset's status is updated in turn, and a record
      whose status changes is written (with a database). */
  method ActivatePresets(s0: seq<LoraPreset>, store: seq<LoraPreset>, hasDb: bool, name: string)
    returns (ps: seq<LoraPreset>, st: seq<LoraPreset>, writes: seq<LoraPreset>)
    requires NamesUnique(s0) && NamesUnique(store)
    ensures ps == ActivateAll(s0, name) && NamesUnique(ps)
    ensures writes == ChangedRecords(s0, name)
    ensures st == if hasDb then PutAll(store, writes) else store
    ensures NamesUnique(st)
  {
    ps, st, writes := s0, store, [];
    var i := 0;
    while i < |s0|
      invariant 0 <= i <= |s0|
      invariant ps == ActivatedUpTo(s0, name, i)
      invariant writes == ChangedRecords(s0[..i], name)
      invariant st == if hasDb then PutAll(store, writes) else store
      invariant NamesUnique(st)
    {
      ActivateStep(s0, store, hasDb, name, i, writes, st);
      if StatusChanges(s0[i], name) {
        var q := Activated(s0[i], name);
        ps := ps[i := q];
        if hasDb {
          st := Put(st, q);
        }
        writes := writes + [q];
      }
      i := i + 1;
    }
    assert s0[..|s0|] == s0;
    ActivatedUpToAll(s0, name);
  }

  /** The list after the whole `forEach` is the activated list, with the
      same names. */
  lemma ActivatedUpToAll(s0: seq<LoraPreset>, name: string)
    requires NamesUnique(s0)
    ensures ActivatedUpTo(s0, name, |s0|) == ActivateAll(s0, name)
    ensures NamesUnique(ActivateAll(s0, name))
  {
    var ps := ActivateAll(s0, name);
    forall k | 0 <= k < |ps| ensures ps[k].name == s0[k].name { }
  }

  // ------------------------------------------------------------- the panel

  class Panel {
    /** Whether `ctx.db` is present. */
    const hasDb: bool
    /** `this.loraPresets`. */
    var loraPresets: seq<LoraPreset>
    /** The `LORA_PRESETS` store. */
    var loraStore: seq<LoraPreset>
    /** `this.workflows`. */
    var workflows: seq<Workflow>
    /** The `WORKFLOWS` store. */
    var workflowStore: seq<Workflow>

    /** Names are unique in both lists and both stores. */
    ghost predicate Valid()
      reads this
    {
      NamesUnique(loraPresets) && NamesUnique(loraStore) && NamesUnique(workflows) && NamesUnique(workflowStore)
    }

    /** The panel as `render` leaves it: both lists loaded from their stores,
        the workflow store seeded when empty. */
    constructor (db: bool, loras: seq<LoraPreset>, wfs: seq<Workflow>, defaults: seq<Named<string>>, now: int)
      requires NamesUnique(loras) && NamesUnique(wfs) && NamesUnique(defaults)
      ensures Valid() && hasDb == db
      ensures loraStore == loras && loraPresets == (if db then loras else [])
      ensures (workflows, workflowStore) == LoadWorkflows(db, wfs, defaults, now)
    {
      LoadWorkflowsSpec(db, wfs, defaults, now);
      hasDb := db;
      loraStore := loras;
      loraPresets := if db then loras else [];
      var (ws, st) := LoadWorkflows(db, wfs, defaults, now);
      workflows := ws;
      workflowStore := st;
    }

    /** `_handleLoraPresetChange(name, fromWorkflow)` given the workflow
        dropdown's value: every preset's status is updated by `Activated`,
        exactly the changed records are written (with a database), and the
        bound workflow to switch to is returned. */
    method HandleLoraPresetChange(name: string, fromWorkflow: bool, selectedWorkflow: string)
      returns (writes: seq<LoraPreset>, switchTo: Option<string>)
      requires Valid()
      modifies this
      ensures Valid()
      ensures loraPresets == ActivateAll(old(loraPresets), name)
      ensures writes == ChangedRecords(old(loraPresets), name)
      ensures loraStore == if hasDb then PutAll(old(loraStore), writes) else old(loraStore)
      ensures switchTo == LinkedWorkflow(loraPresets, name, fromWorkflow, workflows, selectedWorkflow)
      ensures workflows == old(workflows) && workflowStore == old(workflowStore)
    {
      var ps, st;
      ps, st, writes := ActivatePresets(loraPresets, loraStore, hasDb, name);
      loraPresets := ps;
      loraStore := st;
      switchTo := LinkedWorkflow(ps, name, fromWorkflow, workflows, selectedWorkflow);
    }

    /** `_handleWorkflowChange(newName)` given the LoRA dropdown's value: the
        first preset bound to the new workflow is activated (without linking
        back) unless it is already the selected one. */
    method HandleWorkflowChange(newName: string, loraSelection: string, selectedWorkflow: string)
      returns (loraSwitch: Option<string>)
      requires Valid()
      modifies this
      ensures Valid()
      ensures workflows == old(workflows) && workflowStore == old(workflowStore)
      ensures var b := FindBoundTo(old(loraPresets), newName);
        loraSwitch == if newName != "" && b.Some? && old(loraPresets)[b.value].name != loraSelection
                      then Some(old(loraPresets)[b.value].name) else None
      ensures loraSwitch.None? ==> loraPresets == old(loraPresets) && loraStore == old(loraStore)
      ensures loraSwitch.Some? ==>
        && loraPresets == ActivateAll(old(loraPresets), loraSwitch.value)
        && loraStore == if hasDb then PutAll(old(loraStore), ChangedRecords(old(loraPresets), loraSwitch.value)) else old(loraStore)
    {
      loraSwitch := None;
      if newName == "" {
        return;
      }
      var b := FindBoundTo(loraPresets, newName);
      if b.Some? && loraPresets[b.value].name != loraSelection {
        var target := loraPresets[b.value].name;
        loraSwitch := Some(target);
        var writes, back := HandleLoraPresetChange(target, true, selectedWorkflow);
      }
    }

    /** `_saveLoraPresetAs(name)` with the bound-workflow dropdown's value: an
        empty or existing name is refused; otherwise a preset with eight empty
        slots and status 0 is appended (and written, with a database). */
    method SaveLoraPresetAs(name: string, boundWorkflow: string, now: int) returns (saved: bool)
      requires Valid()
      modifies this
      ensures Valid()
      ensures saved <==> name != "" && !HasName(old(loraPresets), name)
      ensures var p := Named(name, LoraBody(PadSlots([]), 0, boundWorkflow, now));
        && loraPresets == (if saved then old(loraPresets) + [p] else old(loraPresets))
        && loraStore == (if saved && hasDb then Put(old(loraStore), p) else old(loraStore))
      ensures workflows == old(workflows) && workflowStore == old(workflowStore)
    {
      if name == "" || HasName(loraPresets, name) {
        return false;
      }
      var p := Named(name, LoraBody(PadSlots([]), 0, boundWorkflow, now));
      if hasDb {
        PutKeepsUnique(loraStore, p);
        loraStore := Put(loraStore, p);
      }
      loraPresets := loraPresets + [p];
      saved := true;
    }

    /** `_deleteLoraPreset` for the selected name once the user has answered
        the confirmation: only with a name, a confirmation and a database are
        the preset and its stored record removed. */
    method DeleteLoraPreset(name: string, confirmed: bool) returns (deleted: bool)
      requires Valid()
      modifies this
      ensures Valid()
      ensures deleted <==> name != "" && confirmed && hasDb
      ensures loraPresets == (if deleted then RemoveNamed(old(loraPresets), name) else old(loraPresets))
      ensures loraStore == (if deleted then RemoveNamed(old(loraStore), name) else old(loraStore))
      ensures workflows == old(workflows) && workflowStore == old(workflowStore)
    {
      if name == "" || !confirmed || !hasDb {
        return false;
      }
      RemoveNamedKeepsUnique(loraStore, name);
      RemoveNamedKeepsUnique(loraPresets, name);
      loraStore := RemoveNamed(loraStore, name);
      loraPresets := RemoveNamed(loraPresets, name);
      deleted := true;
    }

    /** The data part of `_openLoraConfigModal`: the preset shown (a temporary
        one when nothing is selected) and its slots; a saved preset with fewer
        than eight slots is padded in the list itself. */
    method OpenLoraConfig(selection: string) returns (title: string, slots: seq<LoraSlot>)
      requires Valid()
      modifies this
      ensures Valid()
      ensures !HasName(old(loraPresets), selection) ==>
        title == TemporaryPresetName && slots == PadSlots([]) && loraPresets == old(loraPresets)
      ensures HasName(old(loraPresets), selection) ==>
        var i := FindIndex(old(loraPresets), selection).value;
        var ls := old(loraPresets)[i].body.loras;
        && title == selection
        && slots == (if |ls| < SlotCount then PadSlots(ls) else ls)
        && loraPresets == old(loraPresets)[i := old(loraPresets)[i].(body := old(loraPresets)[i].body.(loras := slots))]
      ensures loraStore == old(loraStore) && workflows == old(workflows) && workflowStore == old(workflowStore)
    {
      var found := FindIndex(loraPresets, selection);
      match found
      case None =>
        title := TemporaryPresetName;
        slots := PadSlots([]);
      case Some(i) =>
        title := selection;
        var p := loraPresets[i];
        slots := if |p.body.loras| < SlotCount then PadSlots(p.body.loras) else p.body.loras;
        var q := p.(body := p.body.(loras := slots));
        assert NamesUnique(loraPresets[i := q]) by {
          forall k | 0 <= k < |loraPresets| ensures loraPresets[i := q][k].name == loraPresets[k].name { }
        }
        loraPresets := loraPresets[i := q];
    }

    /** `_saveWorkflowAs` with the editor text, whether it parses as JSON,
        and the name entered: empty text, unparsable text, an empty name and
        an existing name are refused; otherwise the workflow is appended with
        status 0 (and written, with a database). */
    method SaveWorkflowAs(content: string, parses: bool, name: string, now: int) returns (saved: bool)
      requires Valid()
      modifies this
      ensures Valid()
      ensures saved <==> content != "" && parses && name != "" && !HasName(old(workflows), name)
      ensures var w := Named(name, WorkflowBody(Text(content), 0, now));
        && workflows == (if saved then old(workflows) + [w] else old(workflows))
        && workflowStore == (if saved && hasDb then Put(old(workflowStore), w) else old(workflowStore))
      ensures loraPresets == old(loraPresets) && loraStore == old(loraStore)
    {
      if content == "" || !parses || name == "" || HasName(workflows, name) {
        return false;
      }
      var w := Named(name, WorkflowBody(Text(content), 0, now));
      if hasDb {
        PutKeepsUnique(workflowStore, w);
        workflowStore := Put(workflowStore, w);
      }
      workflows := workflows + [w];
      saved := true;
    }

    /** `_importSingleWorkflow`, with the content converted to text in both
        branches. */
    method ImportSingleWorkflow(name: string, content: Content, status: Option<int>, now: int)
      requires Valid()
      modifies this
      ensures Valid()
      ensures (workflows, workflowStore) == Import(old(workflows), old(workflowStore), hasDb, name, content, status, now)
      ensures loraPresets == old(loraPresets) && loraStore == old(loraStore)
    {
      ImportSpec(workflows, workflowStore, hasDb, name, content, status, now, name + "/");
      var (ws, st) := Import(workflows, workflowStore, hasDb, name, content, status, now);
      workflows := ws;
      workflowStore := st;
    }

    /** `_loadWorkflows`, run after an import. */
    method ReloadWorkflows(defaults: seq<Named<string>>, now: int)
      requires Valid() && NamesUnique(defaults)
      modifies this
      ensures Valid()
      ensures (workflows, workflowStore) == LoadWorkflows(hasDb, old(workflowStore), defaults, now)
      ensures loraPresets == old(loraPresets) && loraStore == old(loraStore)
    {
      LoadWorkflowsSpec(hasDb, workflowStore, defaults, now);
      var (ws, st) := LoadWorkflows(hasDb, workflowStore, defaults, now);
      workflows := ws;
      workflowStore := st;
    }
  }

  /** An import followed by the reload leaves list and store equal, with one
      record per name, and the imported name present in both. */
  lemma ImportThenReload(ws: seq<Workflow>, store: seq<Workflow>, name: string, content: Content,
                         status: Option<int>, now: int, defaults: seq<Named<string>>)
    requires NamesUnique(ws) && NamesUnique(store) && NamesUnique(defaults)
    ensures var (_, st) := Import(ws, store, true, name, content, status, now);
      var (ws3, st3) := LoadWorkflows(true, st, defaults, now);
      ws3 == st3 == st && NamesUnique(ws3) && HasName(ws3, name)
  {
    ImportSpec(ws, store, true, name, content, status, now, name + "/");
    var (_, st) := Import(ws, store, true, name, content, status, now);
    match FindIndex(ws, name)
    case Some(i) =>
      var e := Named(name, ws[i].body.(content := Text(AsText(content))));
      PutKeepsUnique(store, e);
    case None =>
      var n := Named(name, WorkflowBody(Text(AsText(content)), ImportedStatus(status), now));
      PutKeepsUnique(store, n);
  }
}
