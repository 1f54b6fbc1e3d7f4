/** The decisions of the Stable Diffusion WebUI panel that do not depend on
    the page: the API preset connection, where `refreshOptions` sends each of
    its seven requests, the ControlNet unit preview and padding, and the
    label and value an option in a dropdown gets. */
module SD {
  import opened Common
  import opened Registry
  import opened ApiPresets

  // ------------------------------------------------------------ connection

  /** The connection fields of an SD API preset. */
  datatype SdConn = SdConn(url: string, auth: string, apiMode: string)

  /** The mode that goes through the host's proxy; any other value connects
      directly. */
  const ProxyMode := "original"

  /** The default WebUI address: `refreshOptions` requests
      `NormalizeUrl(url, DefaultUrl)`, whose shape `NormalizeUrlWithDefault`
      states. */
  const DefaultUrl := "http://127.0.0.1:7860"

  /** The preset `_saveApiPreset` builds: URL and credentials trimmed, the
      mode defaulting to `'original'`. */
  function ConnFromForm(urlInput: string, authInput: string, modeInput: string): (r: SdConn)
    ensures r.url == Trim(urlInput) && r.auth == Trim(authInput)
    ensures r.apiMode == (if modeInput == "" then ProxyMode else modeInput)
  {
    SdConn(Trim(urlInput), Trim(authInput), OrElse(modeInput, ProxyMode))
  }

  /** `collectSettings`: the selected preset's connection when the selection
      names one, the form's values otherwise (the mode defaulting to
      `'original'`). */
  function CollectConnection(presets: seq<Named<SdConn>>, selected: string,
                             urlInput: string, authInput: string, modeInput: string): (r: SdConn)
    ensures !HasName(presets, selected) ==> r == SdConn(urlInput, authInput, OrElse(modeInput, ProxyMode))
    ensures HasName(presets, selected) ==> exists i :: 0 <= i < |presets| && presets[i].name == selected && r == presets[i].body
  {
    ResolveConnection(presets, selected, SdConn(urlInput, authInput, OrElse(modeInput, ProxyMode)))
  }

  /** With unique names the selected preset supplies URL, credentials and
      mode, and the form's values are ignored. */
  lemma CollectConnectionFromPreset(presets: seq<Named<SdConn>>, i: nat, urlInput: string, authInput: string, modeInput: string)
    requires NamesUnique(presets) && i < |presets|
    ensures CollectConnection(presets, presets[i].name, urlInput, authInput, modeInput) == presets[i].body
  {
    ResolveConnectionAt(presets, i, SdConn(urlInput, authInput, OrElse(modeInput, ProxyMode)));
  }

  // -------------------------------------------------------------- requests

  /** The seven resource types `refreshOptions` requests, in order. */
  const OptionTypes: seq<string> := ["models", "samplers", "schedulers", "upscalers", "loras", "cn_models", "cn_modules"]

  /** A request `doFetch` makes: a POST to the host's proxy carrying the
      WebUI address and credentials, or a GET to the WebUI itself, with a
      Basic authorisation header (its encoding not modelled) when credentials
      are given. */
  datatype Request =
    | ProxyPost(path: string, sdUrl: string, sdAuth: string)
    | DirectGet(address: string, basicAuth: Option<string>)

  /** The proxy path of a resource type. */
  function ProxyPath(kind: string): (r: string)
    ensures StartsWith(r, "/api/sd/")
  {
    if kind == "cn_models" then "/api/sd/controlnet/model_list"
    else if kind == "cn_modules" then "/api/sd/controlnet/module_list"
    else "/api/sd/" + kind
  }

  /** The direct endpoint of a resource type; a given endpoint (never given
      by `refreshOptions`, and ignored when empty) takes precedence. */
  function DirectEndpoint(kind: string, given: string): (r: string)
    ensures given != "" ==> r == given
  {
    if given != "" then given
    else if kind == "models" then "sdapi/v1/sd-models"
    else if kind == "cn_models" then "controlnet/model_list"
    else if kind == "cn_modules" then "controlnet/module_list"
    else "sdapi/v1/" + kind
  }

  /** `doFetch(kind, given)` for the normalised address, the credentials and
      the mode. */
  function RequestFor(apiMode: string, sdUrl: string, sdAuth: string, kind: string, given: string): (r: Request)
    ensures r.ProxyPost? <==> apiMode == ProxyMode
    ensures r.ProxyPost? ==> r.path == ProxyPath(kind) && r.sdUrl == sdUrl && r.sdAuth == sdAuth
    ensures r.DirectGet? ==> r.address == sdUrl + "/" + DirectEndpoint(kind, given) && (r.basicAuth.Some? <==> sdAuth != "")
    ensures r.DirectGet? ==> StartsWith(r.address, sdUrl + "/")
  {
    if apiMode == ProxyMode then ProxyPost(ProxyPath(kind), sdUrl, sdAuth)
    else DirectGet(sdUrl + "/" + DirectEndpoint(kind, given), if sdAuth == "" then None else Some(sdAuth))
  }

  /** Every type but the two ControlNet lists keeps its name in the proxy
      path, and every type but those and `models` keeps it in the direct
      endpoint under `sdapi/v1/`. */
  lemma EndpointNaming(kind: string)
    ensures kind != "cn_models" && kind != "cn_modules" ==> ProxyPath(kind) == "/api/sd/" + kind
    ensures kind != "cn_models" && kind != "cn_modules" && kind != "models" ==> DirectEndpoint(kind, "") == "sdapi/v1/" + kind
  {
  }

  /** The resource type a proxy path asks for (`''` for none). */
  function ProxyKind(path: string): string
  {
    if path == "/api/sd/controlnet/model_list" then "cn_models"
    else if path == "/api/sd/controlnet/module_list" then "cn_modules"
    else if StartsWith(path, "/api/sd/") then path[8..]
    else ""
  }

  /** The resource type a direct endpoint asks for (`''` for none). */
  function DirectKind(endpoint: string): string
  {
    if endpoint == "sdapi/v1/sd-models" then "models"
    else if endpoint == "controlnet/model_list" then "cn_models"
    else if endpoint == "controlnet/module_list" then "cn_modules"
    else if StartsWith(endpoint, "sdapi/v1/") then endpoint[9..]
    else ""
  }

  /** The proxy path of each of the seven types names that type. */
  lemma ProxyKindOfPath(k: string)
    requires k in OptionTypes
    ensures ProxyKind(ProxyPath(k)) == k
  {
    if k != "cn_models" && k != "cn_modules" {
      var p := "/api/sd/" + k;
      assert p[8..] == k;
      assert p != "/api/sd/controlnet/model_list" by {
        assert "/api/sd/controlnet/model_list"[8..] !in OptionTypes;
      }
      assert p != "/api/sd/controlnet/module_list" by {
        assert "/api/sd/controlnet/module_list"[8..] !in OptionTypes;
      }
    }
  }

  /** The direct endpoint of each of the seven types names that type. */
  lemma DirectKindOfEndpoint(k: string)
    requires k in OptionTypes
    ensures DirectKind(DirectEndpoint(k, "")) == k
  {
    if k != "models" && k != "cn_models" && k != "cn_modules" {
      var e := "sdapi/v1/" + k;
      assert e[9..] == k;
      assert e != "sdapi/v1/sd-models" by {
        assert "sdapi/v1/sd-models"[9..] !in OptionTypes;
      }
      assert e[0] == 's';
      assert e != "controlnet/model_list" && e != "controlnet/module_list";
    }
  }

  /** Two different resource types of `refreshOptions` are requested from two
      different places, in either mode. */
  lemma RequestsDistinct(k1: string, k2: string)
    requires k1 in OptionTypes && k2 in OptionTypes && k1 != k2
    ensures ProxyPath(k1) != ProxyPath(k2)
    ensures DirectEndpoint(k1, "") != DirectEndpoint(k2, "")
  {
    ProxyKindOfPath(k1);
    ProxyKindOfPath(k2);
    DirectKindOfEndpoint(k1);
    DirectKindOfEndpoint(k2);
  }

  // -------------------------------------------------------------- ControlNet

  /** A ControlNet unit as the dialog edits it; numbers it only passes on
      are opaque. */
  datatype CnUnit = CnUnit(
    enabled: bool, image: Option<string>, preprocessor: string, model: string, weight: real,
    resizeMode: string, controlMode: string, pixelPerfect: bool, lowvram: bool,
    processorRes: int, thresholdA: int, thresholdB: int, guidanceStart: real, guidanceEnd: real)

  /** An entry of `controlNetUnits`, which may be `null`. */
  type UnitEntry = Option<CnUnit>

  /** The unit the dialog adds to reach three. */
  const DefaultUnit := CnUnit(false, None, "none", "None", 1.0, "Just Resize", "Balanced", false, false, 512, 64, 64, 0.0, 1.0)

  /** The number of units the dialog shows at least. */
  const MinUnits := 3

  predicate IsActiveUnit(u: UnitEntry)
  {
    u.Some? && u.value.enabled
  }

  /** `(units || []).filter(u => u && u.enabled)`. */
  function ActiveUnits(units: seq<UnitEntry>): (r: seq<CnUnit>)
    ensures |r| <= |units|
    ensures forall i :: 0 <= i < |r| ==> r[i].enabled
  {
    if units == [] then []
    else ActiveUnits(units[..|units| - 1]) + (if IsActiveUnit(units[|units| - 1]) then [units[|units| - 1].value] else [])
  }

  /** One line of the preview: its badge number, thumbnail, preprocessor and
      model as shown. */
  datatype PreviewLine = PreviewLine(badge: nat, image: Option<string>, preprocessor: string, model: string)

  /** `_renderControlNetPreview`: `None` for the "no unit configured"
      placeholder, else one line per enabled unit. */
  function ControlNetPreview(units: seq<UnitEntry>): (r: Option<seq<PreviewLine>>)
    ensures r.None? <==> forall k :: 0 <= k < |units| ==> !IsActiveUnit(units[k])
    ensures r.Some? ==> |r.value| == |ActiveUnits(units)| && forall i :: 0 <= i < |r.value| ==> r.value[i].badge == i
  {
    ActiveUnitsEmpty(units);
    var active := ActiveUnits(units);
    if active == [] then None
    else Some(seq(|active|, i requires 0 <= i < |active| =>
      PreviewLine(i, active[i].image, OrElse(active[i].preprocessor, "none"), OrElse(active[i].model, "None"))))
  }

  /** The filter keeps nothing exactly when no entry is an enabled unit. */
  lemma {:induction false} ActiveUnitsEmpty(units: seq<UnitEntry>)
    ensures ActiveUnits(units) == [] <==> forall k :: 0 <= k < |units| ==> !IsActiveUnit(units[k])
  {
    if units != [] {
      var init := units[..|units| - 1];
      ActiveUnitsEmpty(init);
      if forall k :: 0 <= k < |units| ==> !IsActiveUnit(units[k]) {
        assert forall k :: 0 <= k < |init| ==> init[k] == units[k];
      }
    }
  }

  /** An enabled unit at position `k` is shown on the line numbered by the
      count of enabled units before it, with its own image. */
  lemma {:induction false} PreviewNumbering(units: seq<UnitEntry>, k: nat)
    requires k < |units| && IsActiveUnit(units[k])
    ensures var n := |ActiveUnits(units[..k])|;
      n < |ActiveUnits(units)| && ActiveUnits(units)[n] == units[k].value
      && ControlNetPreview(units).Some? && ControlNetPreview(units).value[n].badge == n
      && ControlNetPreview(units).value[n].image == units[k].value.image
  {
    ActiveUnitsPrefix(units, k + 1);
    assert units[..k + 1][..k] == units[..k];
    ActiveUnitsEmpty(units);
  }

  /** The units enabled among the first `m` entries come first, in order. */
  lemma {:induction false} ActiveUnitsPrefix(units: seq<UnitEntry>, m: nat)
    requires m <= |units|
    ensures |ActiveUnits(units[..m])| <= |ActiveUnits(units)|
    ensures ActiveUnits(units)[..|ActiveUnits(units[..m])|] == ActiveUnits(units[..m])
    decreases |units| - m
  {
    if m < |units| {
      ActiveUnitsPrefix(units, m + 1);
      assert units[..m + 1][..m] == units[..m];
    } else {
      assert units[..m] == units;
    }
  }

  /** The padding loop of `openControlNetModal`: default units are appended
      until there are at least three. */
  method PadUnits(units: seq<UnitEntry>) returns (r: seq<UnitEntry>)
    ensures |r| == if |units| < MinUnits then MinUnits else |units|
    ensures r[..|units|] == units
    ensures forall i :: |units| <= i < |r| ==> r[i] == Some(DefaultUnit)
  {
    r := units;
    while |r| < MinUnits
      invariant |units| <= |r|
      invariant |units| < MinUnits ==> |r| <= MinUnits
      invariant |units| >= MinUnits ==> r == units
      invariant r[..|units|] == units
      invariant forall i :: |units| <= i < |r| ==> r[i] == Some(DefaultUnit)
      decreases MinUnits - |r|
    {
      r := r + [Some(DefaultUnit)];
    }
  }

  // ---------------------------------------------------------- dropdown items

  /** An item of an option list returned by the WebUI: a plain value, or an
      object with its defined string fields and its `JSON.stringify` text. */
  datatype Item = Plain(s: string) | Obj(fields: map<string, string>, json: string)

  /** The text and value of an option. */
  datatype OptionEntry = OptionEntry(text: string, value: string)

  /** `_populateSelect`'s choice for one item: `text` (with `value || text`),
      else `title`, else `name` (shown with its alias when that is non-empty),
      else the preferred key, else the item's JSON. */
  function OptionFor(item: Item, preferredKey: string): (r: OptionEntry)
  {
    match item
    case Plain(s) => OptionEntry(s, s)
    case Obj(f, json) =>
      if "text" in f then OptionEntry(f["text"], OrElse(if "value" in f then f["value"] else "", f["text"]))
      else if "title" in f then OptionEntry(f["title"], f["title"])
      else if "name" in f then
        OptionEntry(if "alias" in f && f["alias"] != "" then f["name"] + " (" + f["alias"] + ")" else f["name"], f["name"])
      else if preferredKey in f then OptionEntry(f[preferredKey], f[preferredKey])
      else OptionEntry(json, json)
  }

  /** Without a `text` field, the value is what the shown text begins with,
      and they differ only by a name's alias; the value is the first field
      present among `title`, `name`, the preferred key, and a name is shown
      as `name (alias)` when the alias is non-empty. With a `text` field the
      text is shown, and the value is a non-empty `value`, else the text. */
  lemma OptionForSpec(item: Item, preferredKey: string)
    ensures var r := OptionFor(item, preferredKey);
      && (item.Plain? ==> r.text == r.value == item.s)
      && (item.Obj? && "text" !in item.fields ==>
            StartsWith(r.text, r.value)
            && (r.text != r.value ==>
                  "title" !in item.fields && "name" in item.fields && r.value == item.fields["name"]
                  && "alias" in item.fields && item.fields["alias"] != ""))
      && (item.Obj? && "text" !in item.fields && "title" in item.fields ==> r.value == item.fields["title"])
      && (item.Obj? && "text" !in item.fields && "title" !in item.fields && "name" in item.fields ==> r.value == item.fields["name"])
      && (item.Obj? && "text" !in item.fields && "title" !in item.fields && "name" !in item.fields ==>
            r.value == (if preferredKey in item.fields then item.fields[preferredKey] else item.json))
      && (item.Obj? && "text" in item.fields ==> r.text == item.fields["text"] && (r.value == "" ==> r.text == ""))
      && (item.Obj? && "text" in item.fields ==>
            r.value == (if "value" in item.fields && item.fields["value"] != "" then item.fields["value"] else item.fields["text"]))
      && (item.Obj? && "text" !in item.fields && "title" !in item.fields && "name" in item.fields ==>
            r.text == (if "alias" in item.fields && item.fields["alias"] != ""
                       then item.fields["name"] + " (" + item.fields["alias"] + ")" else item.fields["name"]))
  {
  }
}
