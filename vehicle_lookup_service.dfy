/** The external vehicle lookup: the plate is sent to up to three
  * configured providers, one after the other in their configured order; each
  * answer is reduced to a brand, a model and a colour, and the consolidated
  * vehicle takes every field from the first provider that supplied it.
  *
  * The network is a parameter: `fetch(url, timeout)` is the outcome of one
  * GET request (a status and a parsed body, or an error), together with the
  * time it took. `encodeURIComponent(plate)` is a parameter too. */
module VehicleLookupService {
  import opened Wrappers
  import opened JsText
  import opened JsValues
  import opened Lists

  const Placeholder := "{plate}"
  const NoUrlMessage := "Provider URL nao configurada."
  const FoundMessage := "Consulta realizada com sucesso."
  const EmptyMessage := "Consulta sem dados de veiculo."
  const ProviderErrorMessage := "Erro ao consultar provider."
  const DefaultTimeoutMs := 5000

  datatype LookupData = LookupData(brand: Option<string>, model: Option<string>, color: Option<string>)

  datatype SourceResult = SourceResult(name: string, success: bool, durationMs: int, message: string,
                                       data: Option<LookupData>)

  datatype Provider = Provider(name: string, url: Option<string>)

  /** The outcome of one request: an answer with any status (every status is
    * accepted), or an error carrying its `message`, if it has one. */
  datatype Outcome =
    | Answered(status: int, body: JsValue, durationMs: int)
    | Threw(message: Option<string>, durationMs: int)

  /** `process.env.X?.trim() || null`. */
  function ConfiguredUrl(env: Option<string>): (u: Option<string>)
    ensures u.Some? ==> u.value != [] && env.Some? && u.value == Trim(env.value)
    ensures u.None? <==> env.None? || IsBlank(env.value)
  {
    match env
    case None => None
    case Some(s) => if Trim(s) == [] then None else Some(Trim(s))
  }

  /** The three providers, in priority order. */
  function ProviderConfigs(env1: Option<string>, env2: Option<string>, env3: Option<string>): (ps: seq<Provider>)
    ensures |ps| == 3 && ps[0].name == "API1" && ps[1].name == "API2" && ps[2].name == "API3"
  {
    [Provider("API1", ConfiguredUrl(env1)), Provider("API2", ConfiguredUrl(env2)),
     Provider("API3", ConfiguredUrl(env3))]
  }

  /** The request timeout: `Number(env || '5000')` when that is a positive
    * finite number, else 5000 ms. */
  function RequestTimeout(env: JsValue): (ms: Num)
    ensures ms.Finite? && ms.r > 0.0
    ensures Truthy(env) && NumberOf(env).Finite? && NumberOf(env).r > 0.0 ==> ms == NumberOf(env)
    ensures !(Truthy(env) && NumberOf(env).Finite? && NumberOf(env).r > 0.0) ==> ms == Finite(DefaultTimeoutMs as real)
  {
    NumeralReads(5000, "5000");
    var n := NumberOf(Or(env, Str("5000")));
    if n.Finite? && n.r > 0.0 then n else Finite(DefaultTimeoutMs as real)
  }

  /** `normalizeText`: `String(value ?? '')` trimmed, or nothing when that
    * is empty. */
  function NormalizeText(v: JsValue): (t: Option<string>)
    ensures t.Some? ==> t.value != [] && Trim(t.value) == t.value
    ensures t.None? <==> IsBlank(ToStr(Coalesce(v, Str(""))))
    ensures IsNullish(v) ==> t.None?
  {
    var text := Trim(ToStr(Coalesce(v, Str(""))));
    if text != [] then (TrimIdempotent(ToStr(Coalesce(v, Str("")))); Some(text)) else None
  }

  /** A string is read as itself, trimmed. */
  lemma NormalizeString(s: string)
    ensures NormalizeText(Str(s)) == if IsBlank(s) then None else Some(Trim(s))
  {
  }

  // ---------------------------------------------------------------------
  // Provider URLs
  // ---------------------------------------------------------------------

  /** `s.split(pat).join(rep)`: every occurrence of `pat`, found from the left
    * without overlapping, replaced by `rep`. */
  function ReplaceAll(s: string, pat: string, rep: string): (r: string)
    requires pat != []
    decreases |s|
  {
    if |s| < |pat| then s
    else if StartsWith(s, pat) then rep + ReplaceAll(s[|pat|..], pat, rep)
    else [s[0]] + ReplaceAll(s[1..], pat, rep)
  }

  /** `resolveProviderUrl`: the plate replaces every `{plate}` of the
    * template, or else is added as the `plate` query parameter, after `?`
    * or, when the template already has a query, after `&`. */
  function ResolveProviderUrl(template: string, encodedPlate: string): (url: string)
    ensures !Contains(template, Placeholder) ==> StartsWith(url, template) && EndsWith(url, "plate=" + encodedPlate)
  {
    if Contains(template, Placeholder) then ReplaceAll(template, Placeholder, encodedPlate)
    else
      var separator := if Contains(template, "?") then "&" else "?";
      template + separator + "plate=" + encodedPlate
  }

  lemma {:induction false} ContainsAt(a: string, b: string, pat: string)
    requires StartsWith(b, pat)
    ensures Contains(a + b, pat)
    decreases |a|
  {
    if a == [] {
      assert a + b == b;
    } else {
      assert (a + b)[1..] == a[1..] + b;
      ContainsAt(a[1..], b, pat);
    }
  }

  lemma {:induction false} NotContainedWithoutFirst(s: string, pat: string)
    requires pat != [] && Lacks(s, pat[0])
    ensures !Contains(s, pat)
    decreases |s|
  {
    if s != [] {
      NotContainedWithoutFirst(s[1..], pat);
    }
  }

  lemma {:induction false} ReplaceAllOfLacking(s: string, pat: string, rep: string)
    requires pat != [] && !Contains(s, pat)
    ensures ReplaceAll(s, pat, rep) == s
    decreases |s|
  {
    if |s| >= |pat| {
      ReplaceAllOfLacking(s[1..], pat, rep);
      assert [s[0]] + s[1..] == s;
    }
  }

  /** A template with a placeholder has the plate in its place. */
  lemma {:induction false} ReplaceAllKeepsReplacement(s: string, pat: string, rep: string)
    requires pat != [] && Contains(s, pat)
    ensures Contains(ReplaceAll(s, pat, rep), rep)
    decreases |s|
  {
    if StartsWith(s, pat) {
      ContainsAt([], rep + ReplaceAll(s[|pat|..], pat, rep), rep);
      assert [] + (rep + ReplaceAll(s[|pat|..], pat, rep)) == rep + ReplaceAll(s[|pat|..], pat, rep);
    } else {
      ReplaceAllKeepsReplacement(s[1..], pat, rep);
      var tail := ReplaceAll(s[1..], pat, rep);
      assert ([s[0]] + tail)[1..] == tail;
    }
  }

  lemma {:induction false} ReplaceAfterPlainPrefix(prefix: string, pat: string, suffix: string, rep: string)
    requires pat != [] && Lacks(prefix, pat[0])
    ensures ReplaceAll(prefix + pat + suffix, pat, rep) == prefix + rep + ReplaceAll(suffix, pat, rep)
    decreases |prefix|
  {
    var s := prefix + pat + suffix;
    if prefix == [] {
      assert s == pat + suffix;
      assert s[..|pat|] == pat && s[|pat|..] == suffix;
    } else {
      var rest := prefix[1..] + pat + suffix;
      assert s == [prefix[0]] + rest;
      assert s[0] != pat[0];
      assert !StartsWith(s, pat);
      assert s[1..] == rest;
      ReplaceAfterPlainPrefix(prefix[1..], pat, suffix, rep);
      assert prefix == [prefix[0]] + prefix[1..];
    }
  }

  /** Whatever the template, the encoded plate is part of the URL. */
  lemma PlateInUrl(template: string, encodedPlate: string)
    ensures Contains(ResolveProviderUrl(template, encodedPlate), encodedPlate)
  {
    if Contains(template, Placeholder) {
      ReplaceAllKeepsReplacement(template, Placeholder, encodedPlate);
    } else {
      var separator := if Contains(template, "?") then "&" else "?";
      ContainsAt(template + separator + "plate=", encodedPlate, encodedPlate);
      assert template + separator + "plate=" + encodedPlate == (template + separator + "plate=") + encodedPlate;
    }
  }

  /** A template with one placeholder and no other `{` gets the plate exactly
    * in its place. */
  lemma FilledTemplate(prefix: string, suffix: string, encodedPlate: string)
    requires Lacks(prefix, '{') && Lacks(suffix, '{')
    ensures ResolveProviderUrl(prefix + Placeholder + suffix, encodedPlate) == prefix + encodedPlate + suffix
  {
    ContainsAt(prefix, Placeholder + suffix, Placeholder);
    assert prefix + (Placeholder + suffix) == prefix + Placeholder + suffix;
    ReplaceAfterPlainPrefix(prefix, Placeholder, suffix, encodedPlate);
    NotContainedWithoutFirst(suffix, Placeholder);
    ReplaceAllOfLacking(suffix, Placeholder, encodedPlate);
  }

  // ---------------------------------------------------------------------
  // Reading an answer
  // ---------------------------------------------------------------------

  /** Whether `payload[key]` is present and reads as text. */
  function Readable(payload: JsValue): string -> bool
  {
    (key: string) => !IsNullish(Get(payload, key)) && NormalizeText(Get(payload, key)).Some?
  }

  /** `pickField`: the text of the first key whose value reads as text. */
  function PickField(payload: JsValue, keys: seq<string>): (t: Option<string>)
    ensures t.None? <==> forall i :: 0 <= i < |keys| ==> NormalizeText(Get(payload, keys[i])).None?
    ensures t.Some? ==> t.value != [] && Trim(t.value) == t.value
  {
    match Find(keys, Readable(payload))
    case None => None
    case Some(key) => NormalizeText(Get(payload, key))
  }

  /** The key chosen is the first whose value reads as text. */
  lemma PickFieldFirst(payload: JsValue, keys: seq<string>, i: int)
    requires 0 <= i < |keys| && NormalizeText(Get(payload, keys[i])).Some?
    requires forall j :: 0 <= j < i ==> NormalizeText(Get(payload, keys[j])).None?
    ensures PickField(payload, keys) == NormalizeText(Get(payload, keys[i]))
  {
    FindFirst(keys, Readable(payload), i);
  }

  const BrandKeys := ["brand", "marca", "MARCA", "make"]
  const ModelKeys := ["model", "modelo", "MODELO"]
  const ColorKeys := ["color", "cor", "COR"]

  /** `v && typeof v === 'object'`: a plain object or an array. */
  predicate IsObjectLike(v: JsValue) { v.Obj? || v.Arr? }

  /** The object the fields are read from: `payload.data` when it is an
    * object, and inside it `vehicle` when that is an object. */
  function VehicleOf(payload: JsValue): (v: JsValue)
  {
    var root := if IsObjectLike(Get(payload, "data")) then Get(payload, "data") else payload;
    if IsObjectLike(Get(root, "vehicle")) then Get(root, "vehicle") else root
  }

  /** `extractLookupData`. */
  function ExtractLookupData(payload: JsValue): (d: LookupData)
    ensures d.brand.Some? ==> d.brand.value != [] && Trim(d.brand.value) == d.brand.value
    ensures d.model.Some? ==> d.model.value != [] && Trim(d.model.value) == d.model.value
    ensures d.color.Some? ==> d.color.value != [] && Trim(d.color.value) == d.color.value
  {
    var vehicle := VehicleOf(payload);
    LookupData(PickField(vehicle, BrandKeys), PickField(vehicle, ModelKeys), PickField(vehicle, ColorKeys))
  }

  /** The same vehicle is read whether it comes bare, under `vehicle`, or
    * under `data.vehicle`. */
  lemma ExtractUnwraps(v: JsValue)
    requires v.Obj? && "data" !in v.fields && "vehicle" !in v.fields
    ensures ExtractLookupData(Obj(map["vehicle" := v])) == ExtractLookupData(v)
    ensures ExtractLookupData(Obj(map["data" := Obj(map["vehicle" := v])])) == ExtractLookupData(v)
  {
    assert VehicleOf(v) == v;
    assert VehicleOf(Obj(map["vehicle" := v])) == v;
    assert VehicleOf(Obj(map["data" := Obj(map["vehicle" := v])])) == v;
  }

  /** A vehicle whose `brand` is blank falls back to `marca`. */
  lemma BrandFallsBack(blank: string, marca: string)
    requires IsBlank(blank) && !IsBlank(marca)
    ensures ExtractLookupData(Obj(map["brand" := Str(blank), "marca" := Str(marca)])).brand == Some(Trim(marca))
  {
    var v := Obj(map["brand" := Str(blank), "marca" := Str(marca)]);
    assert Get(v, "data") == Undefined && Get(v, "vehicle") == Undefined;
    assert VehicleOf(v) == v;
    assert BrandKeys[0] == "brand" && BrandKeys[1] == "marca";
    NormalizeString(blank);
    NormalizeString(marca);
    PickFieldFirst(v, BrandKeys, 1);
  }

  predicate Filled(t: Option<string>) { t.Some? && t.value != [] }

  predicate HasAnyData(d: LookupData)
  {
    Filled(d.brand) || Filled(d.model) || Filled(d.color)
  }

  // ---------------------------------------------------------------------
  // One provider
  // ---------------------------------------------------------------------

  /** `requestProvider`: no URL means no request and a failure taking no
    * time; an error or a status outside 2xx is a failure; a 2xx answer
    * succeeds exactly when it names a brand, a model or a colour, and only a
    * success carries data. */
  function RequestProvider(p: Provider, encodedPlate: string, timeout: Num,
                           fetch: (string, Num) -> Outcome): (r: SourceResult)
    ensures r.name == p.name
    ensures p.url.None? ==> r == SourceResult(p.name, false, 0, NoUrlMessage, None)
    ensures r.success <==> r.data.Some?
    ensures r.success ==> r.message == FoundMessage && HasAnyData(r.data.value)
    ensures p.url.Some? ==> var o := fetch(ResolveProviderUrl(p.url.value, encodedPlate), timeout);
      && r.durationMs == o.durationMs
      && (o.Threw? ==> !r.success && r.message == (if o.message.Some? then o.message.value else ProviderErrorMessage))
      && (o.Answered? && !(200 <= o.status < 300) ==> !r.success && r.message == "HTTP " + IntToStr(o.status))
      && (o.Answered? && 200 <= o.status < 300 ==> (r.success <==> HasAnyData(ExtractLookupData(o.body))))
  {
    if p.url.None? then SourceResult(p.name, false, 0, NoUrlMessage, None)
    else
      match fetch(ResolveProviderUrl(p.url.value, encodedPlate), timeout)
      case Threw(message, durationMs) =>
        SourceResult(p.name, false, durationMs, if message.Some? then message.value else ProviderErrorMessage, None)
      case Answered(status, body, durationMs) =>
        if status < 200 || status >= 300 then SourceResult(p.name, false, durationMs, "HTTP " + IntToStr(status), None)
        else
          var data := ExtractLookupData(body);
          if HasAnyData(data) then SourceResult(p.name, true, durationMs, FoundMessage, Some(data))
          else SourceResult(p.name, false, durationMs, EmptyMessage, None)
  }

  /** A provider without a URL is never asked: its result is the same
    * whatever the network would have answered. */
  lemma NoUrlNoRequest(p: Provider, encodedPlate: string, timeout: Num,
                       fetch1: (string, Num) -> Outcome, fetch2: (string, Num) -> Outcome)
    requires p.url.None?
    ensures RequestProvider(p, encodedPlate, timeout, fetch1) == RequestProvider(p, encodedPlate, timeout, fetch2)
  {
  }

  // ---------------------------------------------------------------------
  // Consolidation
  // ---------------------------------------------------------------------

  datatype Field = Brand | Model | Color

  function FieldOf(d: LookupData, f: Field): Option<string>
  {
    match f
    case Brand => d.brand
    case Model => d.model
    case Color => d.color
  }

  /** Whether a source supplies field `f`: it has data and the field is a
    * non-empty text. */
  function Supplies(f: Field): SourceResult -> bool
  {
    (s: SourceResult) => s.data.Some? && Filled(FieldOf(s.data.value, f))
  }

  datatype Resolved = Resolved(value: Option<string>, source: Option<string>)

  /** `resolveField`: the field's value in the first source that supplies
    * it, and that source's name. */
  function ResolveField(sources: seq<SourceResult>, f: Field): (r: Resolved)
    ensures r.value.None? <==> r.source.None?
    ensures r.value.None? <==> forall i :: 0 <= i < |sources| ==> !Supplies(f)(sources[i])
    ensures r.value.Some? ==> r.value.value != []
  {
    match Find(sources, Supplies(f))
    case None => Resolved(None, None)
    case Some(s) => Resolved(FieldOf(s.data.value, f), Some(s.name))
  }

  /** Priority: the first source that supplies a field decides it, whatever
    * the later ones say. */
  lemma FirstSupplierWins(sources: seq<SourceResult>, f: Field, i: int)
    requires 0 <= i < |sources| && Supplies(f)(sources[i])
    requires forall j :: 0 <= j < i ==> !Supplies(f)(sources[j])
    ensures ResolveField(sources, f) == Resolved(FieldOf(sources[i].data.value, f), Some(sources[i].name))
  {
    FindFirst(sources, Supplies(f), i);
  }

  datatype FieldSources = FieldSources(brand: Option<string>, model: Option<string>, color: Option<string>)

  datatype Consolidated = Consolidated(brand: Option<string>, model: Option<string>, color: Option<string>,
                                       sourceUsedByField: FieldSources)

  datatype Merged = Merged(consolidated: Consolidated, overallSuccess: bool)

  /** `consolidateByPriority`. */
  function ConsolidateByPriority(sources: seq<SourceResult>): (m: Merged)
    ensures m.overallSuccess <==> m.consolidated.brand.Some? || m.consolidated.model.Some? || m.consolidated.color.Some?
  {
    var brand := ResolveField(sources, Brand);
    var model := ResolveField(sources, Model);
    var color := ResolveField(sources, Color);
    Merged(Consolidated(brand.value, model.value, color.value, FieldSources(brand.source, model.source, color.source)),
           Filled(brand.value) || Filled(model.value) || Filled(color.value))
  }

  /** The lookup succeeds overall exactly when some source supplies some
    * field. */
  lemma OverallIffSupplied(sources: seq<SourceResult>)
    ensures ConsolidateByPriority(sources).overallSuccess <==>
      exists i :: 0 <= i < |sources| && (Supplies(Brand)(sources[i]) || Supplies(Model)(sources[i]) || Supplies(Color)(sources[i]))
  {
    if exists i :: 0 <= i < |sources| && (Supplies(Brand)(sources[i]) || Supplies(Model)(sources[i]) || Supplies(Color)(sources[i])) {
      var i :| 0 <= i < |sources| && (Supplies(Brand)(sources[i]) || Supplies(Model)(sources[i]) || Supplies(Color)(sources[i]));
      if Supplies(Brand)(sources[i]) {
        assert ResolveField(sources, Brand).value.Some?;
      } else if Supplies(Model)(sources[i]) {
        assert ResolveField(sources, Model).value.Some?;
      } else {
        assert ResolveField(sources, Color).value.Some?;
      }
    }
  }

  /** For the results of `requestProvider`, a source supplies some field
    * exactly when it succeeded. */
  lemma SuppliesIffSuccess(p: Provider, encodedPlate: string, timeout: Num, fetch: (string, Num) -> Outcome)
    ensures var s := RequestProvider(p, encodedPlate, timeout, fetch);
      s.success <==> Supplies(Brand)(s) || Supplies(Model)(s) || Supplies(Color)(s)
  {
  }

  // ---------------------------------------------------------------------
  // The lookup
  // ---------------------------------------------------------------------

  datatype LookupResult = LookupResult(plate: string, sources: seq<SourceResult>, consolidated: Consolidated,
                                       overallSuccess: bool)

  /** `lookupVehicleExternalSources`: ask every provider in order, one at a
    * time, and merge their answers by that order. */
  method LookupVehicleExternalSources(plate: string, encodedPlate: string, providers: seq<Provider>, timeout: Num,
                                      fetch: (string, Num) -> Outcome) returns (r: LookupResult)
    ensures r.plate == plate && |r.sources| == |providers|
    ensures forall i :: 0 <= i < |providers| ==> r.sources[i] == RequestProvider(providers[i], encodedPlate, timeout, fetch)
    ensures Merged(r.consolidated, r.overallSuccess) == ConsolidateByPriority(r.sources)
    ensures r.overallSuccess <==> exists i :: 0 <= i < |r.sources| && r.sources[i].success
  {
    var sources: seq<SourceResult> := [];
    for k := 0 to |providers|
      invariant |sources| == k
      invariant forall i :: 0 <= i < k ==> sources[i] == RequestProvider(providers[i], encodedPlate, timeout, fetch)
    {
      var result := RequestProvider(providers[k], encodedPlate, timeout, fetch);
      sources := sources + [result];
    }
    var merged := ConsolidateByPriority(sources);
    r := LookupResult(plate, sources, merged.consolidated, merged.overallSuccess);
    OverallIffSupplied(sources);
    forall i | 0 <= i < |sources|
      ensures sources[i].success <==> Supplies(Brand)(sources[i]) || Supplies(Model)(sources[i]) || Supplies(Color)(sources[i])
    {
      SuppliesIffSuccess(providers[i], encodedPlate, timeout, fetch);
    }
  }
}
