/** The API-preset registry that each of the three panels carries
    (`this.apiPresets`, `this.activeApiPreset`), with the same code in each:
    `_renderApiPresetDropdown`, `_saveApiPreset`, `_deleteApiPreset` and the
    preset override in `collectSettings`. The panels differ only in the
    connection fields a preset holds, so the registry is generic in them (`C`).

    `_renderApiPresetDropdown` does not only draw: it reloads the list and the
    active name from the host's stored settings. The host's settings object is
    part of the state here (`stored`, `storedActive`), and so is whether
    `this.apiPresets` is the very array held by the settings (`shared`), since
    `push` on a shared array is seen through both. */
module ApiPresets {
  import opened Common
  import opened Registry

  datatype PresetState<C> = PresetState(
    presets: seq<Named<C>>,   // this.apiPresets
    active: string,           // this.activeApiPreset
    stored: seq<Named<C>>,    // the settings' apiPresets array
    storedActive: string,     // the settings' activeApiPreset
    shared: bool)             // this.apiPresets is the settings' array itself

  /** The registry's invariant: names are unique in both lists, and a shared
      array shows the same contents through both references. */
  ghost predicate Consistent<C>(st: PresetState<C>)
  {
    && NamesUnique(st.presets)
    && NamesUnique(st.stored)
    && (st.shared ==> st.presets == st.stored)
  }

  /** The active name chosen on render:
      `settings.activeApiPreset || (this.apiPresets[0]?.name || '')`. */
  function ActiveOnRender<C>(stored: seq<Named<C>>, storedActive: string): (r: string)
  {
    OrElse(storedActive, FirstName(stored))
  }

  /** The saved name if it is non-empty, else the first preset's name, else
      `''`; in every case a name of the list, the saved name, or `''`. */
  lemma ActiveOnRenderChoice<C>(stored: seq<Named<C>>, storedActive: string)
    ensures storedActive != "" ==> ActiveOnRender(stored, storedActive) == storedActive
    ensures storedActive == "" && |stored| > 0 ==> ActiveOnRender(stored, storedActive) == stored[0].name
    ensures storedActive == "" && stored == [] ==> ActiveOnRender(stored, storedActive) == ""
    ensures var r := ActiveOnRender(stored, storedActive);
      r == "" || r == storedActive || HasName(stored, r)
  {
  }

  /** `_renderApiPresetDropdown`'s effect on the state: `this.apiPresets` becomes
      the settings' array and the active name is re-chosen from the settings. */
  function Render<C>(st: PresetState<C>): (r: PresetState<C>)
  {
    st.(presets := st.stored, shared := true, active := ActiveOnRender(st.stored, st.storedActive))
  }

  /** Rendering keeps the invariant; afterwards the list is the stored one. */
  lemma RenderConsistent<C>(st: PresetState<C>)
    requires Consistent(st)
    ensures Consistent(Render(st)) && Render(st).presets == st.stored && Render(st).shared
  {
  }

  datatype SaveOutcome = Saved | EmptyName | DuplicateName

  /** When `_saveApiPreset` refuses a name: empty after trimming (the test is
      `!newName || !newName.trim()`), or equal, as typed and untrimmed, to an
      existing preset's name. */
  function SaveCheck<C>(presets: seq<Named<C>>, newName: string): (r: SaveOutcome)
  {
    if Trim(newName) == "" then EmptyName
    else if HasName(presets, newName) then DuplicateName
    else Saved
  }

  /** `_saveApiPreset` as written: push, set the active name, then re-render,
      which re-reads the active name from the settings. */
  function SaveAsWritten<C>(st: PresetState<C>, newName: string, conn: C): (r: PresetState<C>)
  {
    if SaveCheck(st.presets, newName) != Saved then st
    else
      var ps := st.presets + [Named(newName, conn)];
      Render(st.(presets := ps, stored := if st.shared then ps else st.stored, active := newName))
  }

  /** `_deleteApiPreset` as written: filter, pick the first remaining name,
      then re-render, which re-reads both from the settings. `confirmed` is the
      user's answer to the confirmation prompt. */
  function DeleteAsWritten<C>(st: PresetState<C>, confirmed: bool): (r: PresetState<C>)
  {
    if st.active == "" || !confirmed then st
    else
      var ps := RemoveNamed(st.presets, st.active);
      Render(st.(presets := ps, shared := false, active := FirstName(ps)))
  }

  /** As written, a confirmed delete of an existing preset is undone by the
      re-render: the list afterwards is the settings' list, which still holds
      the deleted name, and when the arrays were shared nothing changed. */
  lemma DeleteAsWrittenRestores<C>(st: PresetState<C>)
    requires Consistent(st) && st.active != "" && HasName(st.stored, st.active)
    ensures DeleteAsWritten(st, true).presets == st.stored
    ensures HasName(DeleteAsWritten(st, true).presets, st.active)
    ensures st.shared ==> DeleteAsWritten(st, true).presets == st.presets
  {
  }

  /** As written, a saved preset is not made active when the settings already
      name an active preset: with settings `[A]`, active `A`, saving `B`
      leaves `A` active. */
  lemma SaveAsWrittenKeepsOldActive()
    ensures var st := PresetState([Named("A", 0)], "A", [Named("A", 0)], "A", true);
      SaveAsWritten(st, "B", 1).active == "A"
  {
  }

  /** The correction: the in-memory list and active name are written to the
      settings before the dropdown is re-rendered, so the re-render shows them. */
  function WriteBack<C>(st: PresetState<C>): (r: PresetState<C>)
  {
    st.(stored := st.presets, storedActive := st.active, shared := true)
  }

  /** `_saveApiPreset` as intended. */
  function Save<C>(st: PresetState<C>, newName: string, conn: C): (r: (PresetState<C>, SaveOutcome))
  {
    var outcome := SaveCheck(st.presets, newName);
    if outcome != Saved then (st, outcome)
    else (Render(WriteBack(st.(presets := st.presets + [Named(newName, conn)], active := newName))), Saved)
  }

  /** `_deleteApiPreset` as intended. */
  function Delete<C>(st: PresetState<C>, confirmed: bool): (r: PresetState<C>)
  {
    if st.active == "" || !confirmed then st
    else
      var ps := RemoveNamed(st.presets, st.active);
      Render(WriteBack(st.(presets := ps, active := FirstName(ps))))
  }

  /** Save rejects a name that is blank after trimming, or already present,
      leaving the whole state unchanged; otherwise it appends exactly one
      preset, makes it active, keeps names unique and leaves the settings
      agreeing with what is shown. */
  lemma {:induction false} SaveSpec<C>(st: PresetState<C>, newName: string, conn: C)
    requires Consistent(st)
    ensures var (r, outcome) := Save(st, newName, conn);
      && Consistent(r)
      && (outcome == Saved <==> Trim(newName) != "" && !HasName(st.presets, newName))
      && (outcome == DuplicateName <==> Trim(newName) != "" && HasName(st.presets, newName))
      && (outcome != Saved ==> r == st)
      && (outcome == Saved ==>
            && r.presets == st.presets + [Named(newName, conn)]
            && r.active == newName
            && r.stored == r.presets && r.storedActive == newName)
  {
    var (r, outcome) := Save(st, newName, conn);
    if outcome == Saved {
      var ps := st.presets + [Named(newName, conn)];
      assert NamesUnique(ps) by {
        forall i, j | 0 <= i < j < |ps| ensures ps[i].name != ps[j].name {
          if j == |st.presets| {
            assert ps[i] == st.presets[i];
          }
        }
      }
    }
  }

  /** Delete is a no-op when no preset is active or the user cancels;
      otherwise every preset with the active name is removed, the others keep
      their order, the active name moves to the first remaining preset or
      to `''`, and the settings hold the list and active name shown. */
  lemma DeleteSpec<C>(st: PresetState<C>, confirmed: bool)
    requires Consistent(st)
    ensures var r := Delete(st, confirmed);
      && Consistent(r)
      && (st.active == "" || !confirmed ==> r == st)
      && (st.active != "" && confirmed ==>
            && r.presets == RemoveNamed(st.presets, st.active)
            && !HasName(r.presets, st.active)
            && r.active == FirstName(r.presets)
            && (r.presets == [] ==> r.active == "")
            && r.stored == r.presets && r.storedActive == r.active)
  {
    if st.active != "" && confirmed {
      RemoveNamedKeepsUnique(st.presets, st.active);
    }
  }

  /** When the active preset is at position `i`, the intended delete leaves the
      list with exactly position `i` removed. */
  lemma DeleteRemovesActiveAt<C>(st: PresetState<C>, i: nat)
    requires Consistent(st) && i < |st.presets| && st.presets[i].name == st.active && st.active != ""
    ensures Delete(st, true).presets == st.presets[..i] + st.presets[i + 1..]
  {
    RemoveNamedAt(st.presets, i);
  }

  /** `collectSettings`: when the selected name matches a preset, that preset's
      connection fields are used; otherwise those typed into the form. */
  function ResolveConnection<C>(presets: seq<Named<C>>, selected: string, fromInputs: C): (r: C)
    ensures HasName(presets, selected) ==> exists i :: 0 <= i < |presets| && presets[i].name == selected && r == presets[i].body
    ensures !HasName(presets, selected) ==> r == fromInputs
  {
    match Find(presets, selected)
    case Some(p) => p.body
    case None => fromInputs
  }

  /** With unique names, a matching preset determines the connection. */
  lemma ResolveConnectionAt<C>(presets: seq<Named<C>>, i: nat, fromInputs: C)
    requires NamesUnique(presets) && i < |presets|
    ensures ResolveConnection(presets, presets[i].name, fromInputs) == presets[i].body
  {
    FindIndexUnique(presets, i);
  }

  /** The registry object of one panel. */
  class ApiPresetRegistry<C> {
    var presets: seq<Named<C>>
    var active: string
    var stored: seq<Named<C>>
    var storedActive: string
    var shared: bool

    function State(): PresetState<C>
      reads this
    {
      PresetState(presets, active, stored, storedActive, shared)
    }

    ghost predicate Valid()
      reads this
    {
      Consistent(State())
    }

    /** A panel before `bindEvents`: empty lists, and settings as the host
        holds them. */
    constructor (settingsPresets: seq<Named<C>>, settingsActive: string)
      requires NamesUnique(settingsPresets)
      ensures Valid()
      ensures presets == [] && active == "" && !shared
      ensures stored == settingsPresets && storedActive == settingsActive
    {
      presets, active := [], "";
      stored, storedActive, shared := settingsPresets, settingsActive, false;
    }

    /** `_renderApiPresetDropdown`. */
    method RenderDropdown()
      requires Valid()
      modifies this
      ensures Valid()
      ensures State() == Render(old(State()))
      ensures presets == stored == old(stored) && storedActive == old(storedActive)
    {
      presets := stored;
      shared := true;
      active := if storedActive != "" then storedActive else if |presets| > 0 then presets[0].name else "";
    }

    /** The dropdown's change listener: `this.activeApiPreset = e.target.value`. */
    method Select(name: string)
      requires Valid()
      modifies this
      ensures Valid()
      ensures State() == old(State()).(active := name)
    {
      active := name;
    }

    /** `_saveApiPreset`, with the settings written before the re-render. */
    method SaveApiPreset(newName: string, conn: C) returns (outcome: SaveOutcome)
      requires Valid()
      modifies this
      ensures Valid()
      ensures (State(), outcome) == Save(old(State()), newName, conn)
      ensures outcome == Saved <==> Trim(newName) != "" && !HasName(old(presets), newName)
      ensures outcome != Saved ==> State() == old(State())
      ensures outcome == Saved ==> presets == old(presets) + [Named(newName, conn)] && active == newName
    {
      SaveSpec(State(), newName, conn);
      if Trim(newName) == "" {
        return EmptyName;
      }
      if FindIndex(presets, newName).Some? {
        return DuplicateName;
      }
      presets := presets + [Named(newName, conn)];
      active := newName;
      stored, storedActive, shared := presets, active, true;
      RenderDropdown();
      outcome := Saved;
    }

    /** `_deleteApiPreset`, with the settings written before the re-render. */
    method DeleteApiPreset(confirmed: bool)
      requires Valid()
      modifies this
      ensures Valid()
      ensures State() == Delete(old(State()), confirmed)
      ensures old(active) == "" || !confirmed ==> State() == old(State())
      ensures old(active) != "" && confirmed ==>
        presets == RemoveNamed(old(presets), old(active)) && active == FirstName(presets)
    {
      DeleteSpec(State(), confirmed);
      if active == "" || !confirmed {
        return;
      }
      presets := RemoveNamed(presets, active);
      active := if |presets| > 0 then presets[0].name else "";
      stored, storedActive, shared := presets, active, true;
      RenderDropdown();
    }
  }
}
