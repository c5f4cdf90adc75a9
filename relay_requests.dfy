/** The request parsing the two relay controllers share: the exhaust and
  * the exaustor controller carry identical copies of `parseMinutes`,
  * `resolve…Id`, `serializeMemory` and of the checks their handlers make
  * before calling a service. Each is modelled once here. */
module RelayRequests {
  import opened Wrappers
  import opened JsText
  import opened JsValues
  import opened ExhaustUnits
  import opened HttpReplies

  // ---------------------------------------------------------------- minutes

  /** What `parseMinutes` returns: `undefined`, `NaN` or a number. */
  datatype Minutes = Absent | Invalid | Given(value: real)

  /** `parseMinutes`: no value, an invalid one, or a positive finite
    * number of minutes. */
  function ParseMinutes(v: JsValue): (r: Minutes)
    ensures r.Absent? <==> v.Undefined? || v.Null? || v == Str("")
    ensures r.Given? <==> !r.Absent? && NumberOf(v).Finite? && NumberOf(v).r > 0.0
    ensures r.Given? ==> NumberOf(v) == Finite(r.value) && r.value > 0.0
  {
    if v.Undefined? || v.Null? || v == Str("") then Absent
    else
      match NumberOf(v)
      case Finite(x) => if x <= 0.0 then Invalid else Given(x)
      case _ => Invalid
  }

  /** A number of minutes written in decimal is taken as it is. */
  lemma MinutesOfNumeral(n: nat)
    requires n > 0
    ensures ParseMinutes(Str(NatToDecimal(n))) == Given(n as real)
  {
    DigitsRoundTrip(n);
  }

  /** A `tempo` made only of white space is not absent: `Number` reads it as
    * zero, so it is refused. */
  lemma BlankMinutesInvalid(s: string)
    requires s != [] && IsBlank(s)
    ensures ParseMinutes(Str(s)) == Invalid
  {
  }

  /** The `minutes` a handler hands to the service once `NaN` is refused. */
  function MinutesArgument(m: Minutes): (r: Option<real>)
    requires !m.Invalid?
    ensures r.None? <==> m.Absent?
    ensures r.Some? ==> r.value == m.value
  {
    if m.Given? then Some(m.value) else None
  }

  // ------------------------------------------------------------- unit ids

  /** The capture of `/(\d)\D*$/`: position `i` holds a digit and no digit
    * follows it. */
  predicate LastDigitAt(s: string, i: nat)
  {
    i < |s| && IsDigit(s[i]) && forall j :: i < j < |s| ==> !IsDigit(s[j])
  }

  /** The position of the last digit of `s`, if it has one. */
  function LastDigit(s: string): (r: Option<nat>)
    ensures r.Some? ==> LastDigitAt(s, r.value)
    ensures r.None? ==> forall j :: 0 <= j < |s| ==> !IsDigit(s[j])
    decreases |s|
  {
    if s == [] then None
    else if IsDigit(s[|s| - 1]) then Some(|s| - 1)
    else LastDigit(s[..|s| - 1])
  }

  /** The match is unique: at most one position is the last digit. */
  lemma LastDigitUnique(s: string, i: nat, j: nat)
    requires LastDigitAt(s, i) && LastDigitAt(s, j)
    ensures i == j
  {
  }

  /** `payload.bloco ? String(payload.bloco).trim().toUpperCase() : ''`. */
  function BlocoText(body: JsValue): string
  {
    var b := Get(body, "bloco");
    if Truthy(b) then ToUpper(Trim(ToStr(b))) else ""
  }

  /** `payload.apartamento` as trimmed text, `''` when null or absent. */
  function ApartmentText(body: JsValue): string
  {
    var a := Get(body, "apartamento");
    if IsNullish(a) then "" else Trim(ToStr(a))
  }

  /** `resolveExhaustId` / `resolveExaustorId`: an explicit `id` wins;
    * otherwise the block followed by the last digit of the apartment. */
  function ResolveUnitId(body: JsValue): (r: Option<string>)
    ensures Truthy(Get(body, "id")) ==> r == Some(Trim(ToStr(Get(body, "id"))))
    ensures !Truthy(Get(body, "id")) ==>
      (r.Some? <==> BlocoText(body) != "" && exists i: nat :: LastDigitAt(ApartmentText(body), i))
    ensures !Truthy(Get(body, "id")) && r.Some? ==>
      exists i: nat :: LastDigitAt(ApartmentText(body), i)
        && r.value == BlocoText(body) + [ApartmentText(body)[i]]
  {
    var id := Get(body, "id");
    if Truthy(id) then Some(Trim(ToStr(id)))
    else
      var b := BlocoText(body);
      var a := ApartmentText(body);
      if b == "" || a == "" then None
      else
        match LastDigit(a)
        case None => None
        case Some(i) => Some(b + [a[i]])
  }

  /** A block letter and an apartment number ending in a final 1-8 resolve
    * to an id that `parseApartment` accepts, for that tower and final. */
  lemma ResolvedIdParses(body: JsValue, b: string, c: char, t: Tower, a: string, i: nat)
    requires !Truthy(Get(body, "id"))
    requires Get(body, "bloco") == Str(b) && Trim(b) == [c] && TowerOf(c) == Some(t)
    requires Get(body, "apartamento") == Str(a) && LastDigitAt(Trim(a), i) && IsFinalDigit(Trim(a)[i])
    ensures ResolveUnitId(body) == Some(TowerName(t) + [Trim(a)[i]])
    ensures ParseApartment(ResolveUnitId(body).value) == Ok(UnitOf(t, DigitValue(Trim(a)[i])))
  {
    var d := Trim(a)[i];
    assert BlocoText(body) == TowerName(t);
    assert ApartmentText(body) == Trim(a);
    LastDigitUniqueIn(Trim(a), i);
    SpellingCompact(t, d);
    ParseOfNormal(t, d);
  }

  /** `LastDigit` finds the one last digit there is. */
  lemma LastDigitUniqueIn(s: string, i: nat)
    requires LastDigitAt(s, i)
    ensures LastDigit(s) == Some(i)
  {
  }

  /** `!id`: a resolved id is usable when present and not empty. */
  predicate Usable(id: Option<string>) { id.Some? && id.value != "" }

  // ------------------------------------------------------- handler checks

  const MissingUnitMessage := "Parâmetros obrigatórios: bloco e apartamento."
  const InvalidMinutesMessage := "Parâmetro tempo inválido."

  /** What the turn-on handler passes to the service. */
  datatype TurnOnCall = TurnOnCall(id: string, minutes: Option<real>)

  /** The checks of the turn-on handler: the id first, then `tempo`; the
    * error is the message of the 400 answer. */
  function TurnOnRequest(body: JsValue): (r: Result<TurnOnCall, string>)
    ensures !Usable(ResolveUnitId(body)) ==> r == Err(MissingUnitMessage)
    ensures Usable(ResolveUnitId(body)) && ParseMinutes(Get(body, "tempo")).Invalid? ==> r == Err(InvalidMinutesMessage)
    ensures r.Ok? <==> Usable(ResolveUnitId(body)) && !ParseMinutes(Get(body, "tempo")).Invalid?
    ensures r.Ok? ==> r.value.id == ResolveUnitId(body).value && r.value.id != ""
    ensures r.Ok? ==> r.value.minutes == MinutesArgument(ParseMinutes(Get(body, "tempo")))
  {
    var id := ResolveUnitId(body);
    var m := ParseMinutes(Get(body, "tempo"));
    if !Usable(id) then Err(MissingUnitMessage)
    else if m.Invalid? then Err(InvalidMinutesMessage)
    else Ok(TurnOnCall(id.value, MinutesArgument(m)))
  }

  /** The check of the turn-off handler. */
  function TurnOffRequest(body: JsValue): (r: Result<string, string>)
    ensures r.Ok? <==> Usable(ResolveUnitId(body))
    ensures r.Ok? ==> r.value == ResolveUnitId(body).value && r.value != ""
    ensures r.Err? ==> r.error == MissingUnitMessage
  {
    var id := ResolveUnitId(body);
    if Usable(id) then Ok(id.value) else Err(MissingUnitMessage)
  }

  /** `payload.modulo` as trimmed text, `''` when null or absent. */
  function ModuloText(body: JsValue): string
  {
    var m := Get(body, "modulo");
    if IsNullish(m) then "" else Trim(ToStr(m))
  }

  /** `payload.comando` as trimmed text, `''` when falsy. */
  function ComandoText(body: JsValue): string
  {
    var c := Get(body, "comando");
    if Truthy(c) then Trim(ToStr(c)) else ""
  }

  /** The check of the configure handler: both the module and the command
    * must be non-empty once trimmed. */
  function ConfigureRequest(body: JsValue): (r: Option<(string, string)>)
    ensures r.Some? <==> ModuloText(body) != "" && ComandoText(body) != ""
    ensures r.Some? ==> r.value == (ModuloText(body), ComandoText(body))
  {
    var m := ModuloText(body);
    var c := ComandoText(body);
    if m == "" || c == "" then None else Some((m, c))
  }

  /** A blank command is refused however it is padded. */
  lemma BlankCommandRefused(body: JsValue, s: string)
    requires Get(body, "comando") == Str(s) && IsBlank(s)
    ensures ConfigureRequest(body).None?
  {
  }

  // --------------------------------------------------------------- memory

  /** What `serializeMemory` keeps of an entry of the table. */
  datatype MemoryView = MemoryView(
    id: string, tower: Tower, final: nat, group: Group, relay: nat, moduleId: string,
    expiresAt: Option<int>)

  /** `serializeMemory` on the fields common to both services' entries. */
  function Serialize(id: string, u: Unit, expiresAt: Option<int>): (v: MemoryView)
    ensures v.id == id && v.expiresAt == expiresAt
    ensures v.tower == u.tower && v.final == u.final && v.group == u.group
      && v.relay == u.relay && v.moduleId == u.moduleId
  {
    MemoryView(id, u.tower, u.final, u.group, u.relay, u.moduleId, expiresAt)
  }

  /** Nothing of the entry's identity is lost: two entries serialise alike
    * exactly when their ids, units and expiries agree. */
  lemma SerializeInjective(id1: string, u1: Unit, e1: Option<int>, id2: string, u2: Unit, e2: Option<int>)
    ensures Serialize(id1, u1, e1) == Serialize(id2, u2, e2) <==> (id1, u1, e1) == (id2, u2, e2)
  {
  }

  // ----------------------------------------------------------------- errors

  /** The error a relay handler's catch sees for a fault: a module request
    * the module rejected carries that module's HTTP status; every other
    * fault carries none. */
  function FaultThrown(f: Fault): (t: Thrown)
    ensures t.message == FaultMessage(f)
    ensures f.DeviceError? ==> t.status == f.status
    ensures !f.DeviceError? ==> t.status == 0
  {
    Thrown(FaultStatus(f), FaultMessage(f))
  }

  /** `res.fail(message, error.status || 500, error.message ?? error)` in the
    * catch of a relay handler: the route's message and the fault's text; a
    * module's rejection keeps its HTTP status when it has one, and every
    * other error answers 500. */
  lemma FaultAnswer(message: string, f: Fault)
    ensures var r := FailWith<JsValue>(message, FaultThrown(f));
      && r.Failure? && r.message == message && r.errors == Str(FaultMessage(f))
      && (f.DeviceError? && f.status != 0 ==> r.status == f.status)
      && (!(f.DeviceError? && f.status != 0) ==> r.status == 500)
  {
  }
}
