/** The NovelAI panel: its API preset connection, the list of vibe
    (reference) images, the reference presets that save and restore that
    list, and the size preset shown for a width and height. */
module NAI {
  import opened Common
  import opened Registry
  import opened ApiPresets

  // ------------------------------------------------------------ connection

  /** The connection fields of a NovelAI API preset. */
  datatype NaiConn = NaiConn(channel: string, proxyUrl: string, apiKey: string)

  /** The preset `_saveApiPreset` builds: the channel defaulting to
      `'proxy'`, URL and key trimmed. */
  function ConnFromForm(channelInput: string, urlInput: string, keyInput: string): (r: NaiConn)
    ensures r.channel == (if channelInput == "" then "proxy" else channelInput)
    ensures r.proxyUrl == Trim(urlInput) && r.apiKey == Trim(keyInput)
  {
    NaiConn(OrElse(channelInput, "proxy"), Trim(urlInput), Trim(keyInput))
  }

  /** `collectSettings`: the selected preset's connection when the selection
      names one, the form's values otherwise. */
  function CollectConnection(presets: seq<Named<NaiConn>>, selected: string,
                             channelInput: string, urlInput: string, keyInput: string): (r: NaiConn)
    ensures !HasName(presets, selected) ==> r == NaiConn(OrElse(channelInput, "proxy"), urlInput, keyInput)
    ensures HasName(presets, selected) ==> exists i :: 0 <= i < |presets| && presets[i].name == selected && r == presets[i].body
  {
    ResolveConnection(presets, selected, NaiConn(OrElse(channelInput, "proxy"), urlInput, keyInput))
  }

  // ------------------------------------------------------------ size preset

  /** `parseInt(field) || fallback`: an unparsable field (`None`) or 0 gives
      the fallback. */
  function ParsedOr(field: Option<int>, fallback: int): (r: int)
    ensures field.Some? && field.value != 0 ==> r == field.value
    ensures field.None? || field.value == 0 ==> r == fallback
  {
    match field
    case Some(v) => if v == 0 then fallback else v
    case None => fallback
  }

  const DefaultWidth := 832
  const DefaultHeight := 1216

  /** The three named sizes with their labels. */
  const NamedSizes: seq<(int, int, string)> := [(832, 1216, "竖图"), (1216, 832, "横图"), (1024, 1024, "方图")]

  /** `_getSizePreset` on the two parsed fields. */
  function SizePreset(width: Option<int>, height: Option<int>): (r: string)
  {
    var w := ParsedOr(width, DefaultWidth);
    var h := ParsedOr(height, DefaultHeight);
    if w == 832 && h == 1216 then "竖图"
    else if w == 1216 && h == 832 then "横图"
    else if w == 1024 && h == 1024 then "方图"
    else "Custom"
  }

  /** Each named size is recognised as its label, any other size (after the
      defaults are applied) is `Custom`, and two empty fields mean the
      portrait default. */
  lemma SizePresetSpec(width: Option<int>, height: Option<int>)
    ensures forall k :: 0 <= k < |NamedSizes| ==>
      SizePreset(Some(NamedSizes[k].0), Some(NamedSizes[k].1)) == NamedSizes[k].2
    ensures var w := ParsedOr(width, DefaultWidth); var h := ParsedOr(height, DefaultHeight);
      (SizePreset(width, height) == "Custom") <==> forall k :: 0 <= k < |NamedSizes| ==> (w, h) != (NamedSizes[k].0, NamedSizes[k].1)
    ensures forall k :: 0 <= k < |NamedSizes| ==> (SizePreset(width, height) == NamedSizes[k].2 <==>
      (ParsedOr(width, DefaultWidth), ParsedOr(height, DefaultHeight)) == (NamedSizes[k].0, NamedSizes[k].1))
    ensures SizePreset(None, None) == "竖图" && SizePreset(Some(0), Some(0)) == "竖图"
  {
    var w := ParsedOr(width, DefaultWidth);
    var h := ParsedOr(height, DefaultHeight);
    assert |"Custom"| == 6 && |"竖图"| == |"横图"| == |"方图"| == 2;
    if SizePreset(width, height) == "Custom" {
      forall k | 0 <= k < |NamedSizes| ensures (w, h) != (NamedSizes[k].0, NamedSizes[k].1) {
      }
    } else {
      assert (w, h) == (NamedSizes[0].0, NamedSizes[0].1) || (w, h) == (NamedSizes[1].0, NamedSizes[1].1)
        || (w, h) == (NamedSizes[2].0, NamedSizes[2].1);
    }
  }

  // ------------------------------------------------------------ vibe images

  /** The fields of a parsed `.naiv4vibe` file the panel looks at (`''` for a
      missing string). */
  datatype VibeFile = VibeFile(hasEncodings: bool, thumbnail: string, name: string)

  /** An entry of the vibe list: from a vibe file, from an image (as a data
      URL), or an object taken as it is from an imported JSON file. */
  datatype VibeItem =
    | FromVibeFile(data: VibeFile, image: string, thumbnail: string, strength: real, infoExtracted: real, name: string)
    | FromImage(image: string, strength: real, infoExtracted: real)
    | Imported(json: string)

  /** The two suffixes of NovelAI vibe files. */
  predicate IsVibeFileName(fileName: string)
  {
    EndsWith(fileName, ".naiv4vibe") || EndsWith(fileName, ".naiv4vibebundle")
  }

  const DataPrefix := "data:"
  const PngBase64Prefix := "data:image/png;base64,"

  /** The thumbnail a vibe file contributes: none stays none, a data URL is
      kept, anything else is taken as base64 PNG data. */
  function Thumbnail(t: string): (r: string)
    ensures r == "" <==> t == ""
    ensures r != "" ==> StartsWith(r, DataPrefix) && EndsWith(r, t)
    ensures StartsWith(t, DataPrefix) ==> r == t
    ensures t != "" && !StartsWith(t, DataPrefix) ==> StartsWith(r, PngBase64Prefix)
  {
    if t == "" then ""
    else if StartsWith(t, DataPrefix) then t
    else PngBase64Prefix + t
  }

  /** Taking the thumbnail of a thumbnail changes nothing. */
  lemma ThumbnailIdempotent(t: string)
    ensures Thumbnail(Thumbnail(t)) == Thumbnail(t)
  {
    if t != "" && !StartsWith(t, DataPrefix) {
      assert (PngBase64Prefix + t)[..5] == DataPrefix;
    }
  }

  /** The item a vibe file adds: none without `encodings`; otherwise its
      thumbnail as both image and thumbnail, strength 0.6, information 1.0,
      and its own name or else the file's. */
  function VibeFileItem(fileName: string, data: VibeFile): (r: Option<VibeItem>)
    ensures r.None? <==> !data.hasEncodings
    ensures r.Some? ==>
      && r.value.FromVibeFile? && r.value.data == data
      && (r.value.thumbnail == "" || StartsWith(r.value.thumbnail, DataPrefix))
      && r.value.image == r.value.thumbnail
      && r.value.name == (if data.name != "" then data.name else fileName)
  {
    if !data.hasEncodings then None
    else
      var t := Thumbnail(data.thumbnail);
      Some(FromVibeFile(data, t, t, 0.6, 1.0, OrElse(data.name, fileName)))
  }

  /** One file given to `_handleVibeUpload`, as read: a vibe file (by name)
      with its parsed content, a JSON file with the items it holds, an image
      read as a data URL, or one that failed to read or parse. */
  datatype Upload =
    | VibeUpload(fileName: string, parsed: VibeFile)
    | JsonUpload(items: seq<string>)
    | ImageUpload(dataUrl: string)
    | Failed

  /** A file given to `_handleVibeUpload`: its name, and what reading it as
      each kind would give (`None` where reading or parsing throws). Which
      of these is used depends on the name alone. */
  datatype FileRead = FileRead(name: string, asVibe: Option<VibeFile>, asJson: Option<seq<string>>, asDataUrl: Option<string>)

  /** The dispatch of `_handleVibeUpload` on the file name: a vibe-file
      suffix first, then `.json`, and an image otherwise; a file whose reading
      throws is skipped. */
  function ReadUpload(f: FileRead): (u: Upload)
    ensures IsVibeFileName(f.name) ==> (u.VibeUpload? <==> f.asVibe.Some?) && (u.VibeUpload? || u.Failed?)
    ensures u.VibeUpload? ==> u.fileName == f.name && Some(u.parsed) == f.asVibe
    ensures !IsVibeFileName(f.name) && EndsWith(f.name, ".json") ==>
      (u.JsonUpload? <==> f.asJson.Some?) && (u.JsonUpload? || u.Failed?)
    ensures u.JsonUpload? ==> Some(u.items) == f.asJson
    ensures !IsVibeFileName(f.name) && !EndsWith(f.name, ".json") ==>
      (u.ImageUpload? <==> f.asDataUrl.Some?) && (u.ImageUpload? || u.Failed?)
    ensures u.ImageUpload? ==> Some(u.dataUrl) == f.asDataUrl
  {
    if IsVibeFileName(f.name) then
      (match f.asVibe case Some(d) => VibeUpload(f.name, d) case None => Failed)
    else if EndsWith(f.name, ".json") then
      (match f.asJson case Some(items) => JsonUpload(items) case None => Failed)
    else
      (match f.asDataUrl case Some(url) => ImageUpload(url) case None => Failed)
  }

  /** Every file of an upload, dispatched by its name. */
  function ReadUploads(files: seq<FileRead>): (us: seq<Upload>)
    ensures |us| == |files|
  {
    seq(|files|, i requires 0 <= i < |files| => ReadUpload(files[i]))
  }

  /** The items one file contributes, in order. */
  function UploadItems(u: Upload): (r: seq<VibeItem>)
    ensures u.Failed? ==> r == []
    ensures u.VibeUpload? ==> |r| <= 1
  {
    match u
    case VibeUpload(f, d) => (match VibeFileItem(f, d) case Some(x) => [x] case None => [])
    case JsonUpload(items) => seq(|items|, i requires 0 <= i < |items| => Imported(items[i]))
    case ImageUpload(url) => [FromImage(url, 0.6, 1.0)]
    case Failed => []
  }

  const DirectorMode := "director"
  const VibeMode := "vibe"

  /** `_addVibeImage`: in director mode the list becomes just the item,
      otherwise the item is appended. */
  function AddVibe(list: seq<VibeItem>, mode: string, item: VibeItem): (r: seq<VibeItem>)
    ensures mode == DirectorMode ==> r == [item]
    ensures mode != DirectorMode ==> |r| == |list| + 1 && r[..|list|] == list && r[|list|] == item
  {
    if mode == DirectorMode then [item] else list + [item]
  }

  /** Adding several items one by one. */
  function AddVibes(list: seq<VibeItem>, mode: string, items: seq<VibeItem>): seq<VibeItem>
  {
    if items == [] then list else AddVibe(AddVibes(list, mode, items[..|items| - 1]), mode, items[|items| - 1])
  }

  /** Adding several items appends them all, except in director mode, where
      only the last one remains. */
  lemma {:induction false} AddVibesSpec(list: seq<VibeItem>, mode: string, items: seq<VibeItem>)
    ensures mode != DirectorMode ==> AddVibes(list, mode, items) == list + items
    ensures mode == DirectorMode && items != [] ==> AddVibes(list, mode, items) == [items[|items| - 1]]
    ensures items == [] ==> AddVibes(list, mode, items) == list
  {
    if items != [] {
      AddVibesSpec(list, mode, items[..|items| - 1]);
      assert items == items[..|items| - 1] + [items[|items| - 1]];
    }
  }

  /** `list.splice(index, 1)` for an integer index: a negative index counts
      from the end, and an index past the end removes nothing. */
  function SpliceOne<T>(list: seq<T>, index: int): (r: seq<T>)
    ensures |r| == if -|list| <= index < |list| then |list| - 1 else if index < -|list| && |list| > 0 then |list| - 1 else |list|
  {
    var start := if index < 0 then (if index + |list| < 0 then 0 else index + |list|) else index;
    if start >= |list| then list else list[..start] + list[start + 1..]
  }

  /** Deleting at a position in the list removes exactly that item and keeps
      the others in order. */
  lemma SpliceOneAt<T>(list: seq<T>, i: nat)
    requires i < |list|
    ensures SpliceOne(list, i) == list[..i] + list[i + 1..]
    ensures multiset(SpliceOne(list, i)) + multiset{list[i]} == multiset(list)
  {
    assert list == list[..i] + [list[i]] + list[i + 1..];
  }

  // --------------------------------------------------------- reference presets

  /** A reference preset's fields besides its name. */
  datatype NaiBody = NaiBody(triggerWords: string, referenceMode: string, images: seq<VibeItem>,
                             directorStyleAware: bool, directorStrength: real)

  type NaiPreset = Named<NaiBody>

  /** What `_applyActivePresetToUI` loads: the active preset's images and
      mode (`'vibe'` when it has none), or an empty list and `'vibe'` when no
      preset is active. */
  function AppliedState(presets: seq<NaiPreset>, active: string): (r: (seq<VibeItem>, string))
    ensures r.1 != ""
    ensures !HasName(presets, active) ==> r == ([], VibeMode)
    ensures HasName(presets, active) ==>
      exists i :: 0 <= i < |presets| && presets[i].name == active
        && r == (presets[i].body.images, OrElse(presets[i].body.referenceMode, VibeMode))
  {
    match Find(presets, active)
    case None => ([], VibeMode)
    case Some(p) => (p.body.images, OrElse(p.body.referenceMode, VibeMode))
  }

  /** With unique names the preset at position `i` is the one applied. */
  lemma AppliedStateAt(presets: seq<NaiPreset>, i: nat)
    requires NamesUnique(presets) && i < |presets|
    ensures AppliedState(presets, presets[i].name) == (presets[i].body.images, OrElse(presets[i].body.referenceMode, VibeMode))
  {
    FindIndexUnique(presets, i);
  }

  /** `render` loads the settings' vibe list and mode, but applying the active
      preset then overwrites both. With no presets the panel therefore opens
      with an empty list in `'vibe'` mode, whatever list and mode were saved. */
  lemma RenderWithoutPresets(presets: seq<NaiPreset>, saved: seq<VibeItem>, savedMode: string)
    requires presets == []
    ensures AppliedState(presets, FirstName(presets)) == ([], VibeMode)
    ensures saved != [] ==> AppliedState(presets, FirstName(presets)).0 != saved
    ensures savedMode != VibeMode ==> AppliedState(presets, FirstName(presets)).1 != savedMode
  {
  }

  /** `_updateActivePresetTriggerWords`: the first preset with the active name
      gets the trimmed words; nothing changes without an active name. */
  function WithTriggerWords(presets: seq<NaiPreset>, active: string, words: string): (r: seq<NaiPreset>)
    ensures |r| == |presets|
  {
    if active == "" then presets
    else match FindIndex(presets, active)
      case None => presets
      case Some(i) => presets[i := presets[i].(body := presets[i].body.(triggerWords := Trim(words)))]
  }

  /** Only the active preset's trigger words change, to the trimmed input;
      names stay as they are. */
  lemma WithTriggerWordsSpec(presets: seq<NaiPreset>, active: string, words: string)
    ensures active == "" || !HasName(presets, active) ==> WithTriggerWords(presets, active, words) == presets
    ensures forall k :: 0 <= k < |presets| ==> WithTriggerWords(presets, active, words)[k].name == presets[k].name
    ensures NamesUnique(presets) ==> NamesUnique(WithTriggerWords(presets, active, words))
    ensures NamesUnique(presets) ==> forall k :: 0 <= k < |presets| ==>
      WithTriggerWords(presets, active, words)[k] ==
        if active != "" && presets[k].name == active
        then presets[k].(body := presets[k].body.(triggerWords := Trim(words)))
        else presets[k]
  {
    if active != "" && HasName(presets, active) {
      var i := FindIndex(presets, active).value;
      if NamesUnique(presets) {
        forall k | 0 <= k < |presets| && presets[k].name == active ensures k == i { }
      }
    }
  }

  // --------------------------------------------------------------- the panel

  class Panel {
    /** `this.vibeImages`. */
    var vibeImages: seq<VibeItem>
    /** `this.referenceMode`. */
    var referenceMode: string
    /** `this.naiPresets`. */
    var naiPresets: seq<NaiPreset>
    /** `this.activePresetName`. */
    var activePresetName: string

    /** Preset names are unique and the active name is `''` or one of them. */
    ghost predicate Valid()
      reads this
    {
      NamesUnique(naiPresets) && (activePresetName == "" || HasName(naiPresets, activePresetName))
    }

    /** `render`: the presets come from the settings with the first one
        active, and then the active preset is applied. */
    constructor (presets: seq<NaiPreset>)
      requires NamesUnique(presets)
      ensures Valid()
      ensures naiPresets == presets && activePresetName == FirstName(presets)
      ensures (vibeImages, referenceMode) == AppliedState(presets, FirstName(presets))
    {
      naiPresets := presets;
      activePresetName := FirstName(presets);
      var (v, m) := AppliedState(presets, FirstName(presets));
      vibeImages := v;
      referenceMode := m;
    }

    /** The state part of `_applyActivePresetToUI`. */
    method ApplyActivePreset()
      modifies this
      ensures (vibeImages, referenceMode) == AppliedState(naiPresets, activePresetName)
      ensures naiPresets == old(naiPresets) && activePresetName == old(activePresetName)
    {
      var (v, m) := AppliedState(naiPresets, activePresetName);
      vibeImages := v;
      referenceMode := m;
    }

    /** Choosing a preset in the dropdown (`''` for a new one). */
    method SelectPreset(name: string)
      requires NamesUnique(naiPresets) && (name == "" || HasName(naiPresets, name))
      modifies this
      ensures Valid()
      ensures activePresetName == name && naiPresets == old(naiPresets)
      ensures (vibeImages, referenceMode) == AppliedState(naiPresets, name)
    {
      activePresetName := name;
      ApplyActivePreset();
    }

    /** `_addVibeImage`. */
    method AddVibeImage(item: VibeItem)
      modifies this
      ensures vibeImages == AddVibe(old(vibeImages), referenceMode, item)
      ensures referenceMode == old(referenceMode) && naiPresets == old(naiPresets) && activePresetName == old(activePresetName)
    {
      if referenceMode == DirectorMode {
        vibeImages := [item];
      } else {
        vibeImages := vibeImages + [item];
      }
    }

    /** `_handleVibeUpload`: each file is dispatched by its name, its items
        are added in order, and files that fail are skipped. */
    method HandleVibeUpload(files: seq<FileRead>)
      modifies this
      ensures vibeImages == AddVibes(old(vibeImages), referenceMode, UploadedItems(ReadUploads(files)))
      ensures referenceMode == old(referenceMode) && naiPresets == old(naiPresets) && activePresetName == old(activePresetName)
    {
      vibeImages := AddUploads(vibeImages, referenceMode, ReadUploads(files));
    }

    /** Deleting the vibe item at a (parsed) index with `splice(index, 1)`. */
    method DeleteVibeAt(index: int)
      modifies this
      ensures vibeImages == SpliceOne(old(vibeImages), index)
      ensures referenceMode == old(referenceMode) && naiPresets == old(naiPresets) && activePresetName == old(activePresetName)
    {
      vibeImages := SpliceOne(vibeImages, index);
    }

    /** `_updateActivePresetTriggerWords`. */
    method UpdateActivePresetTriggerWords(words: string)
      requires Valid()
      modifies this
      ensures Valid()
      ensures naiPresets == WithTriggerWords(old(naiPresets), activePresetName, words)
      ensures activePresetName == old(activePresetName) && vibeImages == old(vibeImages) && referenceMode == old(referenceMode)
    {
      WithTriggerWordsSpec(naiPresets, activePresetName, words);
      naiPresets := WithTriggerWords(naiPresets, activePresetName, words);
      if activePresetName != "" {
        assert forall k :: 0 <= k < |naiPresets| ==> naiPresets[k].name == old(naiPresets)[k].name;
        ghost var i :| 0 <= i < |old(naiPresets)| && old(naiPresets)[i].name == activePresetName;
        assert naiPresets[i].name == activePresetName;
      }
    }

    /** `_saveAsNewPreset` with the name entered and the form's trigger words
        and director settings: an empty (after trimming) or existing name is
        refused; otherwise a preset holding the current mode and a copy of
        the vibe list is appended and made active. */
    method SaveAsNewPreset(newName: string, triggerInput: string, styleAware: bool, strength: real)
      returns (outcome: SaveOutcome)
      requires Valid()
      modifies this
      ensures Valid()
      ensures outcome == SaveCheck(old(naiPresets), newName)
      ensures outcome != Saved ==> naiPresets == old(naiPresets) && activePresetName == old(activePresetName)
      ensures outcome == Saved ==>
        && naiPresets == old(naiPresets) + [Named(newName, NaiBody(Trim(triggerInput), referenceMode, vibeImages, styleAware, strength))]
        && activePresetName == newName
      ensures vibeImages == old(vibeImages) && referenceMode == old(referenceMode)
    {
      outcome := SaveCheck(naiPresets, newName);
      if outcome != Saved {
        return;
      }
      var p := Named(newName, NaiBody(Trim(triggerInput), referenceMode, vibeImages, styleAware, strength));
      assert NamesUnique(naiPresets + [p]) by {
        forall i | 0 <= i < |naiPresets| ensures naiPresets[i].name != newName { }
      }
      assert (naiPresets + [p])[|naiPresets|] == p;
      naiPresets := naiPresets + [p];
      activePresetName := newName;
    }

    /** `_deleteActivePreset` once the user has answered: with an active
        preset and a confirmation it is removed, the first remaining preset
        becomes active (or none), and that preset is applied. */
    method DeleteActivePreset(confirmed: bool) returns (deleted: bool)
      requires Valid()
      modifies this
      ensures Valid()
      ensures deleted <==> old(activePresetName) != "" && confirmed
      ensures !deleted ==>
        && naiPresets == old(naiPresets) && activePresetName == old(activePresetName)
        && vibeImages == old(vibeImages) && referenceMode == old(referenceMode)
      ensures deleted ==>
        && naiPresets == RemoveNamed(old(naiPresets), old(activePresetName))
        && activePresetName == FirstName(naiPresets)
        && (vibeImages, referenceMode) == AppliedState(naiPresets, activePresetName)
    {
      if activePresetName == "" || !confirmed {
        return false;
      }
      RemoveNamedKeepsUnique(naiPresets, activePresetName);
      naiPresets := RemoveNamed(naiPresets, activePresetName);
      activePresetName := FirstName(naiPresets);
      ApplyActivePreset();
      deleted := true;
    }
  }

  /** Adding items one after another with `_addVibeImage`. */
  method AddItems(list: seq<VibeItem>, mode: string, items: seq<VibeItem>) returns (v: seq<VibeItem>)
    ensures v == AddVibes(list, mode, items)
  {
    v := list;
    for k := 0 to |items|
      invariant v == AddVibes(list, mode, items[..k])
    {
      AddVibesSnoc(list, mode, items[..k], items[k]);
      assert items[..k + 1] == items[..k] + [items[k]];
      v := AddVibe(v, mode, items[k]);
    }
    assert items[..|items|] == items;
  }

  /** The file loop of `_handleVibeUpload`: each file's items are added in
      order. */
  method AddUploads(list: seq<VibeItem>, mode: string, files: seq<Upload>) returns (v: seq<VibeItem>)
    ensures v == AddVibes(list, mode, UploadedItems(files))
  {
    v := list;
    for f := 0 to |files|
      invariant v == AddVibes(list, mode, UploadedItems(files[..f]))
    {
      UploadedItemsStep(files, f);
      AddVibesAppend(list, mode, UploadedItems(files[..f]), UploadItems(files[f]));
      v := AddItems(v, mode, UploadItems(files[f]));
    }
    assert files[..|files|] == files;
  }

  /** Adding `a` and then `b` is adding `a + b`. */
  lemma {:induction false} AddVibesAppend(list: seq<VibeItem>, mode: string, a: seq<VibeItem>, b: seq<VibeItem>)
    ensures AddVibes(list, mode, a + b) == AddVibes(AddVibes(list, mode, a), mode, b)
  {
    if b == [] {
      assert a + b == a;
    } else {
      var init := b[..|b| - 1];
      AddVibesAppend(list, mode, a, init);
      assert a + b == (a + init) + [b[|b| - 1]];
      AddVibesSnoc(list, mode, a + init, b[|b| - 1]);
    }
  }

  /** All items of the files read, in order. */
  function UploadedItems(files: seq<Upload>): seq<VibeItem>
  {
    if files == [] then [] else UploadedItems(files[..|files| - 1]) + UploadItems(files[|files| - 1])
  }

  lemma UploadedItemsStep(files: seq<Upload>, f: nat)
    requires f < |files|
    ensures UploadedItems(files[..f + 1]) == UploadedItems(files[..f]) + UploadItems(files[f])
  {
    assert files[..f + 1][..f] == files[..f];
  }

  lemma AddVibesSnoc(list: seq<VibeItem>, mode: string, items: seq<VibeItem>, x: VibeItem)
    ensures AddVibes(list, mode, items + [x]) == AddVibe(AddVibes(list, mode, items), mode, x)
  {
    assert (items + [x])[..|items + [x]| - 1] == items;
  }

  /** Deleting the active preset that sits at position `i` leaves the others
      in order. */
  lemma DeleteActiveAt(presets: seq<NaiPreset>, i: nat)
    requires NamesUnique(presets) && i < |presets|
    ensures RemoveNamed(presets, presets[i].name) == presets[..i] + presets[i + 1..]
    ensures FirstName(RemoveNamed(presets, presets[i].name)) == if i == 0 then FirstName(presets[1..]) else presets[0].name
  {
    RemoveNamedAt(presets, i);
  }
}
