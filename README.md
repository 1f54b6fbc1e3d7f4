# Image-backend settings panels, modelled in Dafny

This project models the state logic of three settings panels in a
browser extension. Each panel configures one image-generation back end:

- ComfyUI;
- the Stable Diffusion WebUI ("SD");
- NovelAI ("NAI").

All three panels share one registry of named API presets. The registry
holds the connection fields, lists which preset is active, and is kept
in the host's settings object. The model also covers each panel's own
logic:

- **ComfyUI.**
  - LoRA presets with exactly one active preset, and workflows, both
    kept in IndexedDB stores.
  - The link between a LoRA preset and its bound workflow.
  - Import of workflow files.
  - Choice lists read from an `object_info` response.
  - The workflow placeholder check.
- **SD.**
  - The seven option requests sent by `refreshOptions`, through the
    proxy or directly.
  - The ControlNet preview, and the padding of the unit list.
  - How an item of an option list becomes the text and value of a
    dropdown entry.
- **NAI.**
  - The list of vibe (reference) images and the rules for adding and
    deleting entries.
  - Reference presets, which save and restore that list.
  - The size preset name shown for a given width and height.

Modules:

- `Common`: JavaScript-style `trim`, `includes` and trailing-slash URL
  normalisation.
- `Registry`: lists of records keyed by `name`. IndexedDB stores are
  modelled the same way, with `put` as an upsert.
- `ApiPresets`: the API preset registry that the three panels share.
- `ComfyUI` and `ComfyUIPanel`: the ComfyUI panel's value logic, and its
  state as a class.
- `SD`: the SD panel.
- `NAI`: the NAI panel, with its state as a class.

The DOM is not modelled. What a panel reads from a form field, a
dropdown or a confirmation prompt becomes a parameter of the operation.

Three behaviours of the code are easy to miss:

- **LoRA delete.** `_deleteLoraPreset` removes nothing from memory when
  no database is present. The filter on `this.loraPresets` sits inside
  the `if (this.ctx?.db)` branch. `ComfyUIPanel.Panel.DeleteLoraPreset`
  models this.
- **Re-rendering the preset dropdown.** `_renderApiPresetDropdown`
  reloads the preset list from the stored settings on every call. This
  affects save and delete; see "## Findings".
- **Reopening the NAI panel.** `render` loads `vibeImages` and
  `referenceMode` from the settings, but `_applyActivePresetToUI` then
  overwrites both with the active preset's. `collectSettings` saves the
  vibe list also when no reference preset exists (nai-settings.js:967), yet
  with no presets that list comes back empty. `NAI.RenderWithoutPresets`
  states this. It is an observation about the code, not executed.

## Model

| member | source | states |
|---|---|---|
| Common.TrimStart | ui/settings/sd-settings.js:1075 | The white space removed from the front by `trim`: the result is a suffix of the input, does not start with white space, and only white space was dropped. |
| Common.TrimEnd | ui/settings/sd-settings.js:1075 | The white space removed from the end by `trim`: the result is a prefix of the input, does not end with white space, and only white space was dropped. |
| Common.Trim | ui/settings/sd-settings.js:1075 | Defines JavaScript's `trim` as `TrimEnd` after `TrimStart`. Its properties are stated by the three `Trim…` lemmas below. |
| Common.Contains | ui/settings/comfyui-settings.js:1511 | Defines `includes` as a scan over positions. `ContainsIffOccurs` states what it means. |
| Common.TrimIsTrimmedSlice | ui/settings/sd-settings.js:1075 | `Trim` returns the contiguous slice of the input that starts where `trimStart` stops. |
| Common.TrimHasNoOuterSpace | ui/settings/sd-settings.js:1075 | A trimmed string is empty, or starts and ends with a non-space character. |
| Common.TrimEmptyIffAllSpace | ui/settings/sd-settings.js:1075 | `!newName.trim()` holds exactly when every character of the name is JavaScript white space. |
| Common.ContainsIffOccurs | ui/settings/comfyui-settings.js:1511 | `includes` is true exactly when the needle occurs at some position of the text. |
| Common.NormalizeUrl | ui/settings/comfyui-settings.js:520 | Defines `input.replace(/\/+$/, '') \|\| fallback`. Its shape is stated by the three lemmas below. |
| Common.NormalizeUrlShape | ui/settings/sd-settings.js:425 | With a fallback that does not end in `/`, the result does not end in `/`, and it is non-empty for a non-empty fallback. It is the fallback, or a prefix of the input followed only by slashes. |
| Common.NormalizeUrlWithDefault | ui/settings/comfyui-settings.js:520 | The request base of both `refreshOptions` methods (also sd-settings.js:425), for a default that is non-empty and does not end in `/`: it is non-empty and does not end in `/`. It is the default, or the field with its trailing slashes removed. A field of slashes only gives the default. |
| Common.NormalizeUrlIdempotent | ui/settings/comfyui-settings.js:520 | Normalising an already normalised URL changes nothing. |
| Registry.FindIndex | ui/settings/comfyui-settings.js:1451 | The result is absent exactly when no record has the name. Otherwise it is the first position holding the name. |
| Registry.FindIndexUnique | ui/settings/comfyui-settings.js:1612 | When names are unique, the position found for a record's name is that record's position. |
| Registry.Find | ui/settings/sd-settings.js:1118 | `find` returns a record of the list with the requested name, or nothing exactly when no record has it. |
| Registry.RemoveNamed | ui/settings/comfyui-settings.js:1041 | `filter` by name keeps exactly the records with other names, none with the removed name, and no new records. |
| Registry.RemoveNamedAbsent | ui/settings/nai-settings.js:868 | Filtering out a name that is not in the list returns the list unchanged. |
| Registry.RemoveNamedAt | ui/settings/nai-settings.js:868 | With unique names, removing the name at position `i` gives the list without position `i`, in the original order. |
| Registry.RemoveNamedKeepsUnique | ui/settings/comfyui-settings.js:1041 | Filtering by name keeps names unique. |
| Registry.Put | ui/settings/comfyui-settings.js:1453-1454 | An IndexedDB `put` keyed by name: the written record is present afterwards. A new name is appended; an existing name keeps the length, and every record under another name stays. |
| Registry.FirstName | ui/settings/sd-settings.js:1106 | `presets.length > 0 ? presets[0].name : ''`: the first name, or `''`, which is otherwise a name of the list. |
| Registry.PutKeepsUnique | ui/settings/comfyui-settings.js:1453-1454 | An IndexedDB `put` keyed by name keeps one record per name and leaves the written name present. |
| Registry.PutOthers | ui/settings/comfyui-settings.js:1453-1454 | A `put` does not change the record found under any other name. |
| Registry.PutAt | ui/settings/comfyui-settings.js:933 | Putting a record whose name sits at position `i` replaces exactly that position. |
| Registry.PutAll | ui/settings/comfyui-settings.js:929-939 | Defines a series of `put`s in order. `PutAllSnoc` and `PutAllKeepsUnique` state its properties. |
| Registry.PutAllSnoc | ui/settings/comfyui-settings.js:929-939 | Writing the records one after another is one more `put` per record. |
| Registry.PutAllKeepsUnique | ui/settings/comfyui-settings.js:929-939 | A sequence of `put`s keeps names unique. |
| ApiPresets.Render | ui/settings/sd-settings.js:1025-1047 | Defines the re-render: the list and active name are reloaded from the settings. `RenderConsistent` and `ActiveOnRenderChoice` state its properties. |
| ApiPresets.SaveCheck | ui/settings/sd-settings.js:1075-1080 | Defines the two refusals of the save: a name blank after trimming, then an existing name. `SaveSpec` states the outcome. |
| ApiPresets.SaveAsWritten | ui/settings/sd-settings.js:1073-1094 | Defines the save as written: append, set the active name, then re-render from the settings. `SaveAsWrittenKeepsOldActive` shows its defect. |
| ApiPresets.DeleteAsWritten | ui/settings/sd-settings.js:1099-1111 | Defines the delete as written: filter, make the first name active, then re-render from the settings. `DeleteAsWrittenRestores` shows its defect. |
| ApiPresets.Save | ui/settings/sd-settings.js:1073-1094 | Defines the corrected save (see "## Findings"), which writes the list and active name to the settings before the re-render. `SaveSpec` states its properties. |
| ApiPresets.Delete | ui/settings/sd-settings.js:1099-1111 | Defines the corrected delete (see "## Findings"), which writes the list and active name to the settings before the re-render. `DeleteSpec` states its properties. |
| ApiPresets.ActiveOnRenderChoice | ui/settings/sd-settings.js:1031 | The active name on render is the saved one if non-empty, else the first preset's name, else `''`. |
| ApiPresets.RenderConsistent | ui/settings/sd-settings.js:1025-1047 | A re-render keeps names unique, and the shown list is the stored one, shared with the settings. |
| ApiPresets.DeleteAsWrittenRestores | ui/settings/sd-settings.js:1099-1113 | The code as written: after a confirmed delete, the re-render shows the stored list again, which still contains the deleted preset. When the arrays are shared, nothing changes. |
| ApiPresets.SaveAsWrittenKeepsOldActive | ui/settings/comfyui-settings.js:1568-1591 | The code as written: a concrete case in which a newly saved preset is not made active, because the re-render keeps the previously stored active name. |
| ApiPresets.SaveSpec | ui/settings/sd-settings.js:1073-1097 | Save refuses a name that is blank after trimming, and a name that already exists, and then changes nothing. Otherwise it appends exactly one preset and makes it active. Names stay unique, and the settings hold what is shown. |
| ApiPresets.DeleteSpec | ui/settings/nai-settings.js:731-745 | A delete with no active preset, or with no confirmation, changes nothing. Otherwise exactly the active name is removed, the rest keep their order, and the first remaining preset (or `''`) becomes active. The settings then hold the list and active name shown. |
| ApiPresets.DeleteRemovesActiveAt | ui/settings/comfyui-settings.js:1599 | When the active preset is at position `i`, the delete removes exactly position `i`. |
| ApiPresets.ResolveConnection | ui/settings/comfyui-settings.js:1609-1615 | When the selected name matches a preset, `collectSettings` takes that preset's connection. Otherwise it uses the form's values. |
| ApiPresets.ResolveConnectionAt | ui/settings/nai-settings.js:930-936 | With unique names, selecting a preset's name yields exactly that preset's connection. |
| ApiPresets.ApiPresetRegistry.constructor | ui/settings/comfyui-settings.js:13-14 | The registry starts with no presets and no active name, as each panel's constructor sets them (also sd-settings.js:14-15 and nai-settings.js:8-9). The settings are held as the host stores them. |
| ApiPresets.ApiPresetRegistry.RenderDropdown | ui/settings/comfyui-settings.js:1523-1545 | The list becomes the stored one, and the active name is re-chosen from the settings. The invariant is kept. |
| ApiPresets.ApiPresetRegistry.Select | ui/settings/sd-settings.js:1025-1047 | Changing the dropdown changes only the active name. |
| ApiPresets.ApiPresetRegistry.SaveApiPreset | ui/settings/nai-settings.js:705-729 | The corrected save (see "## Findings"), which writes the settings before the re-render. The new state is `Save` of the old one. The outcome is `Saved` exactly for a non-blank, new name. A refused save changes nothing. |
| ApiPresets.ApiPresetRegistry.DeleteApiPreset | ui/settings/sd-settings.js:1099-1113 | The corrected delete (see "## Findings"), which writes the settings before the re-render. The new state is `Delete` of the old one. The active name is removed, and the first remaining preset becomes active. |
| ComfyUI.ConnFromForm | ui/settings/comfyui-settings.js:1568-1583 | A saved ComfyUI preset has the trimmed URL, and the form's mode, or `'direct'` when the mode is empty. |
| ComfyUI.CollectConnection | ui/settings/comfyui-settings.js:1609-1615 | The selected preset's URL and mode, or the form's values with the mode defaulting to `'direct'`. |
| ComfyUI.NodeChoices | ui/settings/comfyui-settings.js:731-736 | A node lacking the input offers no choices. Non-empty choices are the first element of the input's spec, and that element is an array. |
| ComfyUI.ExtractOptions | ui/settings/comfyui-settings.js:731-736 | An unknown node type yields `[]`. Non-empty choices come from the node of that type. |
| ComfyUI.ExtractOptionsEmpty | ui/settings/comfyui-settings.js:731-736 | A missing input, an empty spec, or a first element that is not an array yields `[]`. |
| ComfyUI.Dedup | ui/settings/comfyui-settings.js:739-766 | Defines reading back a `Set` filled in order: first occurrences only. `DedupSpec` and `DedupAppend` state its properties. |
| ComfyUI.DedupSpec | ui/settings/comfyui-settings.js:739-766 | Collecting the values through a `Set` leaves no duplicates, and exactly the members of the input. It is empty only for an empty input. |
| ComfyUI.DedupAppend | ui/settings/comfyui-settings.js:746 | Adding one value to the set appends it, or does nothing when it is already present. |
| ComfyUI.AddEach | ui/settings/comfyui-settings.js:746 | The `forEach`-add loop returns the deduplicated concatenation of what was seen and the new values. |
| ComfyUI.ExtractAllOptions | ui/settings/comfyui-settings.js:738-766 | The result is the distinct choices of the preferred node types. Only when these offer none is it the distinct choices of every node, in key order. |
| ComfyUI.PreferredChoicesMembers | ui/settings/comfyui-settings.js:742-750 | A value is collected by the preferred scan exactly when some preferred node type offers it. |
| ComfyUI.FlattenMembers | ui/settings/comfyui-settings.js:742-750 | A value is in the concatenation of several lists exactly when it is in one of them. |
| ComfyUI.ExtractAllOptionsResult | ui/settings/comfyui-settings.js:738-766 | When some preferred type offers choices, the result has no duplicates and consists of exactly the values those types offer. |
| ComfyUI.CheckParams | ui/settings/comfyui-settings.js:1498-1511 | One flag per checked parameter, for the nine parameters listed. |
| ComfyUI.AnyQuotedIffOccurs | ui/settings/comfyui-settings.js:1511 | `some(p => text.includes('"p"'))` holds exactly when one of the placeholders occurs in double quotes somewhere in the text. |
| ComfyUI.CheckParamsRow | ui/settings/comfyui-settings.js:1489-1520 | Row `i` of the checker is ticked exactly when one of that row's placeholders occurs in quotes in the workflow. |
| ComfyUI.FirstDefault | ui/settings/comfyui-settings.js:1285 | The first workflow with status 1 or 3, or none exactly when no workflow has either status. |
| ComfyUI.WorkflowTarget | ui/settings/comfyui-settings.js:1279-1288 | The selected workflow is `''` or the name of a workflow in the list. |
| ComfyUI.WorkflowTargetPriority | ui/settings/comfyui-settings.js:1283-1288 | The saved active workflow wins if it exists. Otherwise the first default workflow is selected, and `''` when there is none. |
| ComfyUI.UsedSlots | ui/settings/comfyui-settings.js:874-892 | The preview keeps exactly the slots whose name is non-empty and not `'None'`. |
| ComfyUI.LoraPreview | ui/settings/comfyui-settings.js:874-892 | The preview is shown exactly when a preset is selected and it has a used slot. It then lists the used slots and is non-empty. |
| ComfyUI.PadSlots | ui/settings/comfyui-settings.js:1061 | Padding always gives eight slots. |
| ComfyUI.PadSlotsSpec | ui/settings/comfyui-settings.js:1053-1062 | Padding keeps the existing slots as a prefix and fills the rest with `None`/1.0 slots. Padding twice equals padding once. |
| ComfyUI.PadSlotsOfNothing | ui/settings/comfyui-settings.js:1012 | A new LoRA preset has eight empty slots. |
| ComfyUI.FindBoundTo | ui/settings/comfyui-settings.js:894-922 | The first preset bound to the workflow, or none exactly when no preset is bound to it. |
| ComfyUI.LinkedWorkflow | ui/settings/comfyui-settings.js:963-980 | A workflow is switched to only on a manual choice. It must be the chosen preset's bound workflow, must exist, and must not already be selected. |
| ComfyUI.LinkedWorkflowWhen | ui/settings/comfyui-settings.js:963-980 | With unique names, a manual choice switches exactly when the bound workflow is non-empty, exists, and is not selected. |
| ComfyUI.Activated | ui/settings/comfyui-settings.js:930-937 | Defines one step of the `forEach`: the chosen preset gets status 1, another active one 0, any other is kept. `ActivateAllSpec` states the result. |
| ComfyUI.ActivateAll | ui/settings/comfyui-settings.js:929-939 | The `forEach` keeps the list's length. |
| ComfyUI.ActivateAllSpec | ui/settings/comfyui-settings.js:929-939 | Afterwards a preset has status 1 exactly when it has the chosen name, so two different names cannot both be active. Only statuses change. A previously active other preset gets status 0, and other inactive presets keep their status. |
| ComfyUI.ChangedRecords | ui/settings/comfyui-settings.js:929-939 | Defines the records the `forEach` writes, in list order. `ChangedRecordsSpec` states which they are. |
| ComfyUI.ChangedRecordsSpec | ui/settings/comfyui-settings.js:929-939 | A record is written exactly when its status changes, and its new value is what is written. |
| ComfyUI.ChangedRecordsStep | ui/settings/comfyui-settings.js:929-939 | One step of the `forEach` adds at most the current record to the writes. |
| ComfyUI.ActivatedUpToStep | ui/settings/comfyui-settings.js:929-939 | One step of the `forEach` updates exactly the current position and keeps names. |
| ComfyUI.PutChangedUpTo | ui/settings/comfyui-settings.js:929-939 | Writing only the changed records of the first `k` presets brings a store holding the list up to date with those `k` updates. |
| ComfyUI.PutChangedSyncs | ui/settings/comfyui-settings.js:929-939 | After all the writes, the store equals the new in-memory list. |
| ComfyUIPanel.ActivatePresets | ui/settings/comfyui-settings.js:929-939 | The `forEach` leaves the list activated for the chosen name, with names unique. It writes exactly the changed records, in order, and the store is then those writes applied to the old store. Without a database the store is unchanged. |
| ComfyUIPanel.SeedWorkflows | ui/settings/comfyui-settings.js:1238-1255 | One workflow per default template, in order, holding the template text. Its status is 1 exactly when its name contains `默认`, and 0 otherwise. |
| ComfyUIPanel.LoadWorkflows | ui/settings/comfyui-settings.js:1232-1268 | Defines `_loadWorkflows` as the new list and store. `LoadWorkflowsSpec` states its properties. |
| ComfyUIPanel.LoadWorkflowsSpec | ui/settings/comfyui-settings.js:1232-1268 | With a database, list and store agree: a non-empty store is taken as it is, and an empty one is seeded. Without a database the list is empty. Names stay unique. |
| ComfyUIPanel.ImportedStatus | ui/settings/comfyui-settings.js:1459 | `wf.status \|\| 0`: a missing status becomes 0, and a given one is kept. |
| ComfyUIPanel.ImportAsWritten | ui/settings/comfyui-settings.js:1450-1464 | Defines `_importSingleWorkflow` as written, as the new list and store. `ImportAsWrittenStoresObject` shows its defect. |
| ComfyUIPanel.ImportAsWrittenStoresObject | ui/settings/comfyui-settings.js:1450-1455 | The code as written: re-importing a JSON-object workflow over an existing one stores a non-text content, in both the list and the store. |
| ComfyUIPanel.Import | ui/settings/comfyui-settings.js:1450-1464 | Defines the corrected `_importSingleWorkflow` (see "## Findings"), which stores the content as text in both branches. `ImportSpec` states its properties. |
| ComfyUIPanel.ImportSpec | ui/settings/comfyui-settings.js:1450-1464 | Import is an upsert by name. An existing workflow only gets its content, as text. A new one, with status `wf.status \|\| 0`, goes to the store only. Names stay unique, other records are unchanged, and contents remain text. |
| ComfyUIPanel.ImportThenReload | ui/settings/comfyui-settings.js:1416-1448 | An import followed by the reload leaves list and store equal and duplicate-free, with the imported name present. |
| ComfyUIPanel.Panel.constructor | ui/settings/comfyui-settings.js:814-827 | LoRA presets are loaded from their store, or empty without a database. Workflows are loaded as `LoadWorkflows` states. Names are unique. |
| ComfyUIPanel.Panel.HandleLoraPresetChange | ui/settings/comfyui-settings.js:925-981 | Afterwards exactly the chosen preset is active. The store gets exactly the changed records, and it equals the new list when it held the old one (`ComfyUI.PutChangedSyncs`). The workflow switched to is `LinkedWorkflow`'s. Workflows are untouched. |
| ComfyUIPanel.Panel.HandleWorkflowChange | ui/settings/comfyui-settings.js:894-922 | The first preset bound to the new workflow is activated, without linking back, unless it is already selected. Otherwise nothing changes. |
| ComfyUIPanel.Panel.SaveLoraPresetAs | ui/settings/comfyui-settings.js:999-1026 | Saving succeeds exactly for a new, non-empty name. It then appends one preset with eight empty slots and status 0, and writes it when a database is present. Names stay unique. |
| ComfyUIPanel.Panel.DeleteLoraPreset | ui/settings/comfyui-settings.js:1028-1047 | A preset is deleted exactly with a name, a confirmation and a database. The list and the store then keep every other record, in order. |
| ComfyUIPanel.Panel.OpenLoraConfig | ui/settings/comfyui-settings.js:1049-1062 | With no preset selected, the temporary preset with eight empty slots is shown. Otherwise the selected preset's slots are padded to eight, in place. |
| ComfyUIPanel.Panel.SaveWorkflowAs | ui/settings/comfyui-settings.js:1355-1389 | Saving succeeds exactly for non-empty, parsable content and a new, non-empty name. It then appends a workflow with status 0 and writes it when a database is present. |
| ComfyUIPanel.Panel.ImportSingleWorkflow | ui/settings/comfyui-settings.js:1450-1464 | The list and the store become the corrected `Import` of the old ones. LoRA state is untouched. |
| ComfyUIPanel.Panel.ReloadWorkflows | ui/settings/comfyui-settings.js:1232-1268 | The list and the store are reloaded from the store, as `LoadWorkflows` states. |
| SD.ConnFromForm | ui/settings/sd-settings.js:1073-1089 | A saved SD preset has its URL and credentials trimmed, and the mode defaulting to `'original'`. |
| SD.CollectConnection | ui/settings/sd-settings.js:1115-1123 | The selected preset's connection, or the form's values with the mode defaulting to `'original'`. |
| SD.CollectConnectionFromPreset | ui/settings/sd-settings.js:1115-1123 | With unique names, a matching selection takes URL, credentials and mode from the preset alone. |
| SD.ProxyPath | ui/settings/sd-settings.js:437-477 | Every proxy path lies under `/api/sd/`. |
| SD.DirectEndpoint | ui/settings/sd-settings.js:437-477 | A given endpoint takes precedence. |
| SD.RequestFor | ui/settings/sd-settings.js:437-477 | The request goes through the proxy exactly in `'original'` mode, to the type's `ProxyPath` and carrying the address and credentials. A direct request goes to the normalised address, `/`, and the type's `DirectEndpoint`, with an authorisation header exactly when credentials are given. |
| SD.EndpointNaming | ui/settings/sd-settings.js:437-477 | Apart from the ControlNet lists (and `models`, for the direct endpoint), the resource type's name appears in the path. |
| SD.ProxyKindOfPath | ui/settings/sd-settings.js:437-477 | The proxy path of each of the seven resource types determines the type: reading the type back from the path gives it. |
| SD.DirectKindOfEndpoint | ui/settings/sd-settings.js:437-477 | The direct endpoint of each of the seven resource types determines the type: reading the type back from the endpoint gives it. |
| SD.RequestsDistinct | ui/settings/sd-settings.js:481-489 | Two different resource types among the seven are requested from two different paths, in either mode. |
| SD.ActiveUnits | ui/settings/sd-settings.js:338 | The filter keeps only enabled units and never adds any. |
| SD.ActiveUnitsEmpty | ui/settings/sd-settings.js:338 | The filter keeps nothing exactly when no entry is an enabled unit. |
| SD.ControlNetPreview | ui/settings/sd-settings.js:337-352 | The placeholder is shown exactly when no unit is enabled. Otherwise there is one line per enabled unit, numbered from 0. |
| SD.PreviewNumbering | ui/settings/sd-settings.js:337-352 | An enabled unit is shown on the line numbered by the count of enabled units before it, with its own image. |
| SD.ActiveUnitsPrefix | ui/settings/sd-settings.js:338 | The enabled units among the first `m` entries come first in the filtered list. |
| SD.PadUnits | ui/settings/sd-settings.js:565-586 | The dialog's units keep the configured ones as a prefix and add default units up to three. No more are added, and nothing is added when three or more exist. |
| SD.OptionFor | ui/settings/sd-settings.js:945-980 | Defines the text and value of one dropdown entry. `OptionForSpec` states the choice rules. |
| SD.OptionForSpec | ui/settings/sd-settings.js:945-980 | The first defined field among `text`, `title`, `name`, the preferred key gives the option's text, and the item's JSON when none is defined. With `text`, the value is a non-empty `value`, else the text. Otherwise the value is that same field, and a name is shown as `name (alias)` when the alias is non-empty. |
| NAI.ConnFromForm | ui/settings/nai-settings.js:705-721 | A saved NAI preset has the channel defaulting to `'proxy'`, and URL and key trimmed. |
| NAI.CollectConnection | ui/settings/nai-settings.js:930-936 | The selected preset's connection, or the form's values with the channel defaulting to `'proxy'`. |
| NAI.ParsedOr | ui/settings/nai-settings.js:901 | `parseInt(v) \|\| fallback`: the fallback for an unparsable field or 0, and the number otherwise. |
| NAI.SizePreset | ui/settings/nai-settings.js:900-911 | Defines the size label for the parsed width and height. `SizePresetSpec` states it for every size. |
| NAI.SizePresetSpec | ui/settings/nai-settings.js:900-911 | Each of the three named sizes gets its label. Any other size, after the defaults are applied, is `Custom`. Empty fields mean the portrait default. |
| NAI.Thumbnail | ui/settings/nai-settings.js:518-522 | A missing thumbnail stays missing. A data URL is kept. Anything else becomes a data URL that starts with the base64 PNG prefix and ends in the given data. |
| NAI.ThumbnailIdempotent | ui/settings/nai-settings.js:518-522 | Normalising a thumbnail twice equals normalising it once. |
| NAI.VibeFileItem | ui/settings/nai-settings.js:506-533 | A vibe file without `encodings` adds nothing. Otherwise it adds an item whose image is its thumbnail, named by its own name or else the file's. |
| NAI.ReadUpload | ui/settings/nai-settings.js:506-556 | A file is read as a vibe file exactly when its name has a vibe-file suffix. Otherwise it is read as JSON exactly when the name ends in `.json`, and as an image in every other case. A file whose reading throws is skipped, and what is read is the file's own content. |
| NAI.ReadUploads | ui/settings/nai-settings.js:504 | Every file of the upload is dispatched, one upload per file. |
| NAI.UploadItems | ui/settings/nai-settings.js:501-561 | A file that fails adds nothing, and a vibe file adds at most one item. |
| NAI.AddVibe | ui/settings/nai-settings.js:564-570 | In director mode the list becomes just the item. Otherwise the item is appended. |
| NAI.AddVibes | ui/settings/nai-settings.js:501-570 | Defines adding several items one after the other. `AddVibesSpec` and `AddVibesAppend` state its properties. |
| NAI.AddVibesSpec | ui/settings/nai-settings.js:501-570 | Adding several items appends them all, except in director mode, where only the last one remains. |
| NAI.AddVibesAppend | ui/settings/nai-settings.js:501-561 | Adding the items of two batches one after the other equals adding both at once. |
| NAI.SpliceOne | ui/settings/nai-settings.js:645 | `splice(index, 1)` removes one item for an index inside the list (negative counting from the end). It removes nothing past the end. |
| NAI.SpliceOneAt | ui/settings/nai-settings.js:642-648 | Deleting at position `i` removes exactly that item and keeps the others in order. |
| NAI.AppliedState | ui/settings/nai-settings.js:764-793 | Applying a preset loads its images and mode, `'vibe'` when it has none. With no active preset the list is empty and the mode is `'vibe'`. |
| NAI.RenderWithoutPresets | ui/settings/nai-settings.js:84-85 | With no presets, the panel opens with an empty vibe list in `'vibe'` mode: a saved non-empty list, or a saved other mode, is not what the panel shows. |
| NAI.AppliedStateAt | ui/settings/nai-settings.js:764-793 | With unique names, selecting the preset at position `i` applies exactly that preset. |
| NAI.WithTriggerWords | ui/settings/nai-settings.js:802-808 | The trigger words are set on the active preset: the number of presets is kept. `WithTriggerWordsSpec` states the rest. |
| NAI.WithTriggerWordsSpec | ui/settings/nai-settings.js:802-808 | Only the active preset's trigger words change, to the trimmed input. Names and uniqueness are kept, and nothing changes without an active preset. |
| NAI.DeleteActiveAt | ui/settings/nai-settings.js:868 | Deleting the active preset at position `i` keeps the others in order. The first remaining name becomes active. |
| NAI.AddItems | ui/settings/nai-settings.js:564-570 | Adding items one by one equals `AddVibes`. |
| NAI.AddUploads | ui/settings/nai-settings.js:501-561 | The file loop adds every file's items in order. |
| NAI.Panel.constructor | ui/settings/nai-settings.js:78-85 | The presets come from the settings, with the first one active, and that preset is applied (at line 395). The vibe list and mode loaded from the settings at lines 84-85 are overwritten by that step, so the model does not take them. |
| NAI.Panel.ApplyActivePreset | ui/settings/nai-settings.js:764-793 | The vibe list and mode become those of the active preset. Presets are unchanged. |
| NAI.Panel.SelectPreset | ui/settings/nai-settings.js:398-401 | The chosen name becomes active and its preset is applied. |
| NAI.Panel.AddVibeImage | ui/settings/nai-settings.js:564-570 | The list becomes `AddVibe` of the old list in the current mode. Nothing else changes. |
| NAI.Panel.HandleVibeUpload | ui/settings/nai-settings.js:501-561 | Each file is dispatched by its name (`ReadUpload`). Every file's items are added in order, and files that fail are skipped. |
| NAI.Panel.DeleteVibeAt | ui/settings/nai-settings.js:642-648 | The list becomes `SpliceOne` of the old one. Nothing else changes. |
| NAI.Panel.UpdateActivePresetTriggerWords | ui/settings/nai-settings.js:802-808 | The presets become `WithTriggerWords` of the old ones, and the invariant is kept. |
| NAI.Panel.SaveAsNewPreset | ui/settings/nai-settings.js:813-832 | A name that is blank after trimming, or already exists, is refused and changes nothing. Otherwise a preset with the current mode, the vibe list and the trimmed trigger words is appended and made active. |
| NAI.Panel.DeleteActivePreset | ui/settings/nai-settings.js:841-872 | A preset is deleted exactly with an active name and a confirmation. It is removed, the first remaining preset becomes active, and it is applied. |

## Left out

- The DOM: rendering, event wiring, toasts, modals and editor text. Values read from fields, dropdowns and `confirm` are parameters.
- The network: every `fetch` and the response handling of `refreshOptions`. `SD.RequestFor` models only where a request goes.
- Encoding the credentials for the Basic authorisation header (`btoa`): the header's presence is modelled, not its value.
- IndexedDB as a database. A store is a list keyed by `name`, with `put` as an upsert. `getAll` is assumed to return the records in list order; the code shown does not fix the order of `ctx.db.getAll`, and IndexedDB itself returns key order. Choices that depend on order after a reload follow this assumption: `ComfyUI.FirstDefault` and the first LoRA preset. The `name` key is an assumption: `_deleteWorkflow` deletes by `workflow.id || workflow.name`. Its asynchrony and failures (the `catch` paths) are not modelled.
- Syncing with the server (`_syncDataToServer`, and `_syncDataFromServer` before the LoRA presets are loaded) and deleting preset files on the server (`deleteNaiPresetFiles`). These are calls into code that is not part of this model.
- `FileReader` and `JSON.parse`. Uploaded files are given already read and parsed. Whether an editor text parses as JSON is a parameter.
- JSON values in general. A workflow's content is text, or a parsed value given with its serialised text.
- Floating-point numbers (LoRA strengths, vibe strengths, ControlNet weights). They are opaque `real`s that are only passed along.
- `parseInt` on text. `NAI.ParsedOr` takes the parsed number or `None`. The vibe delete index is taken already parsed.
- Dates: `Date.now()` is a parameter `now`.
- The default workflow templates' text. It is a parameter of the seeding.
- `_loadWorkflowContent`, `_updateLoraPreset`, `_updateWorkflow`, `_deleteWorkflow`, `_exportAllWorkflows` and the file parsing of `_importWorkflows`. They are editor and file I/O around the store operations modelled here.
- How `_applyActivePresetToUI` of the API presets fills the form fields. The preset lookup it relies on is `Registry.Find`.
- `collectSettings` apart from the connection fields: the other form fields are copied unchanged.
- The NAI `collectSettings` write-back of the active reference preset, which copies the form into it.
- The ComfyUI `_populateSelect` (comfyui-settings.js:771-792). It picks an option's text as `item.text || item.name || item.value || JSON.stringify(item)` and its value as `item.value || item.name || JSON.stringify(item)`, by truthiness, and can add a leading `None` option. This differs from the SD `_populateSelect` that `SD.OptionFor` models, which tests for defined fields and also looks at `title`, `alias` and a preferred key.
- Option values that are numbers or other non-string values. They are treated as strings.
- The aliasing of `vibeImages` with the applied preset's `images` array. The model copies the value.
- How `_importWorkflows` chooses the record to import. An array's elements are passed on unchecked, a file with `name` and `content` is passed as it is, and any other file is wrapped as `{ name, content: text, status: 0 }` under its file name. The model starts at `_importSingleWorkflow` and assumes the record's name is a string.
- NAI.Panel.SelectPreset: requires the chosen name to be `''` or a preset's name, because the dropdown offers only those.

## Findings

| source | as written | input that shows it | evidently intended | confidence | as-written member | corrected member |
|---|---|---|---|---|---|---|
| ui/settings/sd-settings.js:1025-1113 (and the same code in comfyui-settings.js:1523-1606 and nai-settings.js:654-745) | `_renderApiPresetDropdown` reloads `this.apiPresets` and `this.activeApiPreset` from the stored settings. `_saveApiPreset` and `_deleteApiPreset` call it without writing their changes to the settings first. | Stored presets `[A]` exist and the stored active preset is `A`. Deleting `A` shows `A` again. Saving `B` leaves `A` active. | The saved preset becomes active, the deleted preset disappears, and the settings keep what is shown. | not executed | ApiPresets.DeleteAsWrittenRestores, ApiPresets.SaveAsWrittenKeepsOldActive | ApiPresets.SaveSpec, ApiPresets.DeleteSpec |
| ui/settings/comfyui-settings.js:1450-1455 | For a workflow that already exists, `_importSingleWorkflow` stores `wf.content` as given. A content that is a JSON object is not stringified, although the new-workflow branch stringifies it. | Re-import an existing workflow `wf` from a file whose `content` is an object. The stored content is then an object, not text. | Both branches store the content as text. | not executed | ComfyUIPanel.ImportAsWrittenStoresObject | ComfyUIPanel.ImportSpec |
