/** The handlers of the vehicle and tag routes: list a person's vehicles,
  * look a plate up, create or update a vehicle by plate, and link a tag to
  * a vehicle once a CPF holder with the right profile has authorised it at
  * a device. The checks run in a fixed order and the first one that fails
  * answers 400 before anything is read or written.
  *
  * The lookups the link route makes before its transaction (`findPersonByCpf`
  * and `verifyAccessById`) are given as functions of their arguments. */
module VehicleV2Controller {
  import opened Wrappers
  import opened JsText
  import opened JsValues
  import opened Identifiers
  import opened Lists
  import opened HttpReplies
  import opened VehicleV2Repository

  // ------------------------------------------------------------ input rules

  /** `String(v ?? fallback).trim()`. */
  function TextOf(v: JsValue, fallback: string): string
  {
    Trim(ToStr(Coalesce(v, Str(fallback))))
  }

  /** `Number.isFinite(x) && x > 0`. */
  predicate IsPositive(n: Num) { n.Finite? && n.r > 0.0 }

  /** `/^[A-Z0-9]{7}$/`. */
  predicate PlatePattern(p: string)
  {
    |p| == 7 && forall i :: 0 <= i < 7 ==> IsPlateChar(p[i])
  }

  /** A normalised plate passes the pattern exactly when it has seven
    * characters. */
  lemma NormalizedPlatePattern(s: string)
    ensures PlatePattern(NormalizePlate(s)) <==> |NormalizePlate(s)| == 7
  {
  }

  // ------------------------------------------------------------ credentials

  const PersonMissing := Thrown(404, "CPF nao localizado na base.")
  const PersonInvalid := Thrown(400, "Sequencia da pessoa invalida para validacao.")

  /** `resolveCredentialByCpf` on the rows `findPersonByCpf` gave: `898`,
    * `String(P_SEQUENCIA)` left-padded with zeros to 8 characters, `787`. */
  function CredentialOf(personRows: seq<JsValue>): (r: Result<string, Thrown>)
    ensures var column := Get(if personRows == [] then Undefined else personRows[0], "P_SEQUENCIA");
      && (r == Err(PersonMissing) <==> !Truthy(column))
      && (r == Err(PersonInvalid) <==> Truthy(column) && !IsPositive(NumberOf(column)))
      && (r.Ok? ==> |r.value| >= 14 && r.value[..3] == "898" && r.value[|r.value| - 3..] == "787")
  {
    var person := if personRows == [] then Undefined else personRows[0];
    var column := Get(person, "P_SEQUENCIA");
    if !Truthy(column) then Err(PersonMissing)
    else
      var n := NumberOf(column);
      if !IsPositive(n) then Err(PersonInvalid)
      else
        var c := "898" + PadStart(NumToStr(n), 8, '0') + "787";
        assert c[..3] == "898" && c[|c| - 3..] == "787";
        Ok(c)
  }

  /** A whole person number of up to eight digits gives the normalised
    * access id whose middle eight digits write that number. */
  lemma CredentialOfNumber(row: JsValue, k: nat)
    requires 1 <= k < 100000000
    requires Get(row, "P_SEQUENCIA") == Number(Finite(k as real))
    ensures CredentialOf([row]) == Ok(AccessIdOf(NatToDecimal(k)))
    ensures IsNormalizedAccessId(CredentialOf([row]).value)
    ensures DigitsValue(CredentialOf([row]).value[3..11]) == k
  {
    assert (k as real).Floor == k;
    assert NumToStr(Finite(k as real)) == NatToDecimal(k);
    DecimalWidth(k, 8);
    AccessIdShape(NatToDecimal(k));
  }

  /** A number below `10^width` is written with at most `width` digits. */
  lemma {:induction false} DecimalWidth(n: nat, width: nat)
    requires 1 <= width && n < Pow10(width)
    ensures |NatToDecimal(n)| <= width
  {
    if n >= 10 {
      assert Pow10(width) == 10 * Pow10(width - 1);
      assert n / 10 < Pow10(width - 1);
      assert width - 1 != 0;
      DecimalWidth(n / 10, width - 1);
    }
  }

  // ------------------------------------------------------------- permission

  /** `String(v ?? '').trim().toUpperCase() === 'S'`. */
  predicate Flag(v: JsValue)
  {
    ToUpper(TextOf(v, "")) == "S"
  }

  /** `hasVehiclePermission`: the row says PERMITIDO and at least one of
    * the owner, tenant and resident profiles. */
  predicate HasVehiclePermission(row: JsValue)
  {
    && Truthy(row)
    && Flag(Get(row, "PERMITIDO"))
    && (Flag(Get(row, "PROP")) || Flag(Get(row, "LOC")) || Flag(Get(row, "MOR")))
  }

  /** A text column says yes when, trimmed, it is `S` or `s`. */
  predicate Yes(s: string) { Trim(s) == "S" || Trim(s) == "s" }

  lemma FlagOfText(s: string)
    ensures Flag(Str(s)) <==> Yes(s)
  {
    var t := Trim(s);
    if ToUpper(t) == "S" {
      assert |t| == 1 && UpperChar(t[0]) == 'S';
      assert t == [t[0]];
    }
    if t == "s" {
      assert ToUpper(t)[0] == UpperChar('s');
    }
  }

  /** A missing column never says yes. */
  lemma FlagOfNullish(v: JsValue)
    requires IsNullish(v)
    ensures !Flag(v)
  {
    assert Trim("") == "";
  }

  /** On a row of text columns, permission means PERMITIDO and one of PROP,
    * LOC and MOR say yes; no row gives no permission. */
  lemma PermissionOfRow(permitido: string, prop: string, loc: string, mor: string)
    ensures var row := Obj(map["PERMITIDO" := Str(permitido), "PROP" := Str(prop), "LOC" := Str(loc), "MOR" := Str(mor)]);
      HasVehiclePermission(row) <==> Yes(permitido) && (Yes(prop) || Yes(loc) || Yes(mor))
    ensures !HasVehiclePermission(Null) && !HasVehiclePermission(Undefined)
  {
    var row := Obj(map["PERMITIDO" := Str(permitido), "PROP" := Str(prop), "LOC" := Str(loc), "MOR" := Str(mor)]);
    assert Get(row, "PERMITIDO") == Str(permitido);
    assert Get(row, "PROP") == Str(prop);
    assert Get(row, "LOC") == Str(loc);
    assert Get(row, "MOR") == Str(mor);
    FlagOfText(permitido);
    FlagOfText(prop);
    FlagOfText(loc);
    FlagOfText(mor);
  }

  // ---------------------------------------------------------- link a tag

  /** The checked inputs of `linkVehicleTagController`. */
  datatype LinkInput = LinkInput(vehicleSeq: real, cpf: string, tag: string, device: real, forceSwap: bool, user: string)

  const VehicleSeqMessage := "Parametro vehicleSeq invalido."
  const CpfMessage := "CPF invalido."
  const TagDigitsMessage := "Tag invalida. Informe 10 digitos."
  const DeviceMessage := "Dispositivo invalido."

  /** `String(body.user ?? 'API').trim() || 'API'`. */
  function UserOf(body: JsValue): (u: string)
    ensures u != [] && Trim(u) == u
  {
    var t := TextOf(Get(body, "user"), "API");
    TrimIdempotent(ToStr(Coalesce(Get(body, "user"), Str("API"))));
    if t == "" then assert Trim("API") == "API" by { TrimOfNoSpace("API"); } "API" else t
  }

  /** The inputs of the link route, checked in the order the handler checks
    * them: the vehicle number, the CPF, the 10-digit tag, the device. */
  function LinkInputOf(param: JsValue, body: JsValue): (r: Result<LinkInput, string>)
    ensures r.Ok? ==>
      && r.value.vehicleSeq > 0.0 && r.value.device > 0.0
      && IsValidCpf(r.value.cpf)
      && |r.value.tag| == 10 && AllDigits(r.value.tag)
      && r.value.user != [] && Trim(r.value.user) == r.value.user
  {
    var vehicleSeq := NumberOf(param);
    var cpf := Digits(TextOf(Get(body, "cpf"), ""));
    var tag := Digits(TextOf(Get(body, "tag"), ""));
    var device := NumberOf(Get(body, "dispositivo"));
    if !IsPositive(vehicleSeq) then Err(VehicleSeqMessage)
    else if !IsValidCpf(cpf) then Err(CpfMessage)
    else if |tag| != 10 then Err(TagDigitsMessage)
    else if !IsPositive(device) then Err(DeviceMessage)
    else Ok(LinkInput(vehicleSeq.r, cpf, tag, device.r, Truthy(Get(body, "forceSwap")), UserOf(body)))
  }

  /** Each refusal names the first check that fails: a bad vehicle number
    * hides a bad CPF, a bad CPF a bad tag, a bad tag a bad device. */
  lemma LinkInputOrder(param: JsValue, body: JsValue)
    ensures var r := LinkInputOf(param, body);
      var cpf := Digits(TextOf(Get(body, "cpf"), ""));
      var tag := Digits(TextOf(Get(body, "tag"), ""));
      && (r == Err(VehicleSeqMessage) <==> !IsPositive(NumberOf(param)))
      && (r == Err(CpfMessage) <==> IsPositive(NumberOf(param)) && !IsValidCpf(cpf))
      && (r == Err(TagDigitsMessage) <==> IsPositive(NumberOf(param)) && IsValidCpf(cpf) && |tag| != 10)
      && (r == Err(DeviceMessage) <==>
            IsPositive(NumberOf(param)) && IsValidCpf(cpf) && |tag| == 10 && !IsPositive(NumberOf(Get(body, "dispositivo"))))
  {
  }

  /** What the link route answers on success. */
  datatype LinkedTag = LinkedTag(status: string, vehicleSeq: real, tag: string)

  const LinkFailedMessage := "Erro ao vincular tag."
  const NoPermissionMessage := "CPF sem permissao para autorizar tag de veiculo."
  const NoOwnerMessage := "Nao foi possivel identificar o proprietario para vinculo."
  const BlockedMessage := "Tag ja vinculada a outro veiculo."
  const ConfirmMessage := "Veiculo ja possui tag vinculada. Confirme para trocar."

  /** The lookups made before the transaction: the person rows of a CPF,
    * and what `verifyAccessById` returns for a credential at a device with
    * direction E. */
  datatype Lookups = Lookups(people: string -> seq<JsValue>, verify: (string, real) -> JsValue)

  /** `Array.isArray(rows) ? rows[0] : null`. */
  function FirstVerifyRow(rows: JsValue): JsValue
  {
    if !rows.Arr? then Null else if rows.items == [] then Undefined else rows.items[0]
  }

  /** The authorisation step: the CPF's credential must be allowed at the
    * device with a vehicle profile, and the verification row must name a
    * positive owner, whose number is the result. */
  function Authorise(x: LinkInput, look: Lookups): (r: Result<real, Response<LinkedTag>>)
    ensures r.Ok? ==> r.value > 0.0
    ensures r.Err? ==> r.error.Failure? && r.error.status in {400, 403, 404}
  {
    match CredentialOf(look.people(x.cpf))
    case Err(e) => Err(FailWith(LinkFailedMessage, e))
    case Ok(credential) =>
      var row := FirstVerifyRow(look.verify(credential, x.device));
      if !HasVehiclePermission(row) then Err(Failure(403, NoPermissionMessage, Null))
      else
        var owner := NumberOf(Get(row, "SEQPESSOA"));
        if !IsPositive(owner) then Err(BadRequest(NoOwnerMessage)) else Ok(owner.r)
  }

  /** The answer for each outcome of the transaction. */
  function LinkAnswer(x: LinkInput, r: Result<LinkOutcome, Thrown>): (resp: Response<LinkedTag>)
    ensures resp.Success? <==> r == Ok(Linked) || r == Ok(Swapped)
    ensures resp.Success? ==> resp.data == LinkedTag(if r == Ok(Swapped) then "swapped" else "linked", x.vehicleSeq, x.tag)
    ensures r.Ok? ==> (resp.Failure? <==> resp.status == 409)
    ensures r.Ok? && resp.Failure? ==> (resp.message == BlockedMessage <==> r.value.Blocked?)
    ensures r.Err? ==> resp.Failure? && resp.status == (if r.error.status == 0 then 500 else r.error.status)
  {
    match r
    case Err(e) => FailWith(LinkFailedMessage, e)
    case Ok(Blocked) => Failure(409, BlockedMessage, Null)
    case Ok(RequiresConfirmation(current)) =>
      Failure(409, ConfirmMessage, Obj(map["requiresConfirmation" := Bool(true), "currentTag" := Str(current)]))
    case Ok(Linked) => OkResponse(LinkedTag("linked", x.vehicleSeq, x.tag))
    case Ok(Swapped) => OkResponse(LinkedTag("swapped", x.vehicleSeq, x.tag))
  }

  /** `linkVehicleTagController`: the answer and the tables afterwards. */
  function LinkRoute(t: Tables, param: JsValue, body: JsValue, look: Lookups): (Response<LinkedTag>, Tables)
  {
    match LinkInputOf(param, body)
    case Err(m) => (BadRequest(m), t)
    case Ok(x) =>
      match Authorise(x, look)
      case Err(resp) => (resp, t)
      case Ok(owner) =>
        var (r, t2) := Link(t, LinkRequest(x.vehicleSeq, owner, x.tag, x.user, x.forceSwap));
        (LinkAnswer(x, r), t2)
  }

  /** Only a successful answer comes with a write. */
  lemma LinkRouteWritesOnlyOnSuccess(t: Tables, param: JsValue, body: JsValue, look: Lookups)
    ensures var (resp, t2) := LinkRoute(t, param, body, look); !resp.Success? ==> t2 == t
  {
    var x := LinkInputOf(param, body);
    if x.Ok? && Authorise(x.value, look).Ok? {
      var v := x.value;
      LinkWritesOnlyWhenLinked(t, LinkRequest(v.vehicleSeq, Authorise(v, look).value, v.tag, v.user, v.forceSwap));
    }
  }

  /** Once the input and the authorisation pass, the answer follows the
    * repository's decision: 404 for an unknown vehicle, 409 with the
    * blocking message for a tag held elsewhere, 409 with the current tag
    * when a swap needs confirmation, and 200 otherwise, marked `swapped`
    * exactly when the tag replaced another. */
  lemma LinkRouteAnswer(t: Tables, param: JsValue, body: JsValue, look: Lookups)
    ensures var (resp, _) := LinkRoute(t, param, body, look);
      var input := LinkInputOf(param, body);
      input.Ok? && Authorise(input.value, look).Ok? ==>
        var x := input.value;
        var q := LinkRequest(x.vehicleSeq, Authorise(x, look).value, x.tag, x.user, x.forceSwap);
        var r := Link(t, q).0;
        && (resp.status == 404 <==> VehicleNumbered(t.vehicles, x.vehicleSeq).None?)
        && (resp.status == 409 && resp.Failure? && resp.message == BlockedMessage <==> r == Ok(Blocked))
        && (resp.status == 409 && resp.Failure? && resp.message == ConfirmMessage <==> r.Ok? && r.value.RequiresConfirmation?)
        && (resp.Success? <==> r == Ok(Linked) || r == Ok(Swapped))
        && (resp.Success? ==> (resp.data.status == "swapped" <==> r == Ok(Swapped)))
  {
    var input := LinkInputOf(param, body);
    if input.Ok? && Authorise(input.value, look).Ok? {
      var x := input.value;
      var q := LinkRequest(x.vehicleSeq, Authorise(x, look).value, x.tag, x.user, x.forceSwap);
      assert LinkRoute(t, param, body, look).0 == LinkAnswer(x, Link(t, q).0);
      LinkDecision(t, q);
      AnswerCases(x, Link(t, q).0);
    }
  }

  /** The answer to each outcome, when the only error is the missing
    * vehicle. */
  lemma AnswerCases(x: LinkInput, r: Result<LinkOutcome, Thrown>)
    requires r.Err? ==> r.error == VehicleNotFound
    ensures var resp := LinkAnswer(x, r);
      && (resp.status == 404 <==> r.Err?)
      && (resp.status == 409 && resp.Failure? && resp.message == BlockedMessage <==> r == Ok(Blocked))
      && (resp.status == 409 && resp.Failure? && resp.message == ConfirmMessage <==> r.Ok? && r.value.RequiresConfirmation?)
      && (resp.Success? ==> (resp.data.status == "swapped" <==> r == Ok(Swapped)))
  {
  }

  /** After a successful answer the vehicle carries the tag and its newest
    * access row is the row written for the authorised owner. */
  lemma LinkRouteInstallsTag(t: Tables, param: JsValue, body: JsValue, look: Lookups)
    requires Valid(t)
    ensures var (resp, t2) := LinkRoute(t, param, body, look);
      resp.Success? ==>
        var x := LinkInputOf(param, body).value;
        var q := LinkRequest(x.vehicleSeq, Authorise(x, look).value, x.tag, x.user, x.forceSwap);
        && (forall i :: 0 <= i < |t2.vehicles| && t2.vehicles[i].id as real == x.vehicleSeq ==> t2.vehicles[i].tag == Some(x.tag))
        && Newest(AccessesOf(t2.accesses, x.vehicleSeq)).Some?
        && var p := Newest(AccessesOf(t2.accesses, x.vehicleSeq)).value;
           p == LinkedAccess(p.id, q)
  {
    var x := LinkInputOf(param, body);
    if x.Ok? && Authorise(x.value, look).Ok? {
      var v := x.value;
      LinkInstallsTag(t, LinkRequest(v.vehicleSeq, Authorise(v, look).value, v.tag, v.user, v.forceSwap));
    }
  }

  /** `linkVehicleTagController` against the database. */
  method LinkHandler(db: VehicleDb, param: JsValue, body: JsValue, look: Lookups) returns (resp: Response<LinkedTag>)
    modifies db
    ensures (resp, db.Current()) == LinkRoute(old(db.Current()), param, body, look)
  {
    var input := LinkInputOf(param, body);
    if input.Err? {
      return BadRequest(input.error);
    }
    var x := input.value;
    var owner := Authorise(x, look);
    if owner.Err? {
      return owner.error;
    }
    var r := db.LinkVehicleTag(LinkRequest(x.vehicleSeq, owner.value, x.tag, x.user, x.forceSwap));
    resp := LinkAnswer(x, r);
  }

  // --------------------------------------------------- create or update a car

  const PlateMessage := "Placa invalida."
  const OwnerSeqMessage := "ownerSeq invalido."
  const UnitSeqMessage := "unitSeq invalido."
  const SaveFailedMessage := "Erro ao salvar veiculo."

  /** `String(v ?? '').trim() || null`. */
  function OptionalText(v: JsValue): (r: Option<string>)
    ensures r.Some? ==> r.value != [] && Trim(r.value) == r.value
    ensures IsNullish(v) ==> r.None?
  {
    var t := TextOf(v, "");
    TrimIdempotent(ToStr(Coalesce(v, Str(""))));
    if t == "" then None else Some(t)
  }

  /** A blank text becomes `null`, any other text its trimmed self. */
  lemma OptionalTextOfString(s: string)
    ensures OptionalText(Str(s)) == if IsBlank(s) then None else Some(Trim(s))
  {
  }

  /** `unitSeq`: absent when `null`, `undefined` or `''`, else `Number(raw)`. */
  function UnitSeqOf(raw: JsValue): Option<Num>
  {
    if raw.Null? || raw.Undefined? || raw == Str("") then None else Some(NumberOf(raw))
  }

  /** The fields of the upsert route, checked in order: the plate, the
    * owner, the unit when one is given. */
  function UpsertInputOf(body: JsValue): (r: Result<VehicleInput, string>)
    ensures r.Ok? ==>
      && PlatePattern(r.value.plate)
      && r.value.ownerSeq > 0.0
      && (r.value.unitSeq.Some? ==> r.value.unitSeq.value > 0.0)
      && (r.value.unitSeq.None? <==> UnitSeqOf(Get(body, "unitSeq")).None?)
  {
    var plate := NormalizePlate(TextOf(Get(body, "plate"), ""));
    var owner := NumberOf(Get(body, "ownerSeq"));
    var unit := UnitSeqOf(Get(body, "unitSeq"));
    if !PlatePattern(plate) then Err(PlateMessage)
    else if !IsPositive(owner) then Err(OwnerSeqMessage)
    else if unit.Some? && !IsPositive(unit.value) then Err(UnitSeqMessage)
    else
      Ok(VehicleInput(plate, OptionalText(Get(body, "brand")), OptionalText(Get(body, "model")),
        OptionalText(Get(body, "color")), owner.r, if unit.Some? then Some(unit.value.r) else None))
  }

  /** Each refusal names the first check that fails. */
  lemma UpsertInputOrder(body: JsValue)
    ensures var r := UpsertInputOf(body);
      var plate := NormalizePlate(TextOf(Get(body, "plate"), ""));
      var owner := NumberOf(Get(body, "ownerSeq"));
      var unit := UnitSeqOf(Get(body, "unitSeq"));
      && (r == Err(PlateMessage) <==> !PlatePattern(plate))
      && (r == Err(OwnerSeqMessage) <==> PlatePattern(plate) && !IsPositive(owner))
      && (r == Err(UnitSeqMessage) <==> PlatePattern(plate) && IsPositive(owner) && unit.Some? && !IsPositive(unit.value))
  {
  }

  /** `upsertVehicleByPlateController`: the answer and the tables
    * afterwards. */
  function UpsertRoute(t: Tables, body: JsValue, insert: InsertOutcome): (Response<Saved>, Tables)
  {
    match UpsertInputOf(body)
    case Err(m) => (BadRequest(m), t)
    case Ok(x) =>
      var (r, t2) := Upsert(t, x, insert);
      (match r
       case Ok(saved) => OkResponse(saved)
       case Err(e) => FailWith(SaveFailedMessage, e),
       t2)
  }

  /** A saved vehicle carries the checked plate; it is reported as created
    * exactly when no row had the plate and the insert went in. */
  lemma UpsertRouteSaved(t: Tables, body: JsValue, insert: InsertOutcome)
    ensures var (resp, _) := UpsertRoute(t, body, insert);
      resp.Success? ==>
        var x := UpsertInputOf(body).value;
        && resp.data.vehicle.plate == x.plate
        && (resp.data.created <==> VehicleWithPlate(t.vehicles, x.plate).None? && insert.Inserted?)
  {
    var x := UpsertInputOf(body);
    if x.Ok? {
      UpsertOutcome(t, x.value, insert);
      var v := VehicleWithPlate(t.vehicles, x.value.plate);
      if insert.Refused? {
        var w := VehicleWithPlate(insert.committed, x.value.plate);
        if w.Some? { assert Plated(x.value.plate)(w.value); }
      }
      if v.Some? { assert Plated(x.value.plate)(v.value); }
    }
  }

  /** `upsertVehicleByPlateController` against the database. */
  method UpsertHandler(db: VehicleDb, body: JsValue, insert: InsertOutcome) returns (resp: Response<Saved>)
    modifies db
    ensures (resp, db.Current()) == UpsertRoute(old(db.Current()), body, insert)
  {
    var input := UpsertInputOf(body);
    if input.Err? {
      return BadRequest(input.error);
    }
    var r := db.UpsertVehicleByPlate(input.value, insert);
    if r.Ok? {
      resp := OkResponse(r.value);
    } else {
      resp := FailWith(SaveFailedMessage, r.error);
    }
  }

  // -------------------------------------------------------------- reads

  const PersonSeqMessage := "Parametro personSeq invalido."

  function OwnedBy(n: real): Vehicle -> bool { (v: Vehicle) => v.ownerSeq == Some(n) }

  /** `listVehiclesByOwnerController`: the vehicles whose owner is the
    * positive number given. */
  function OwnerVehiclesRoute(t: Tables, param: JsValue): (resp: Response<seq<Vehicle>>)
    ensures resp.Failure? <==> !IsPositive(NumberOf(param))
    ensures resp.Failure? ==> resp == BadRequest(PersonSeqMessage)
    ensures resp.Success? ==>
      && (forall v :: v in resp.data ==> v in t.vehicles && v.ownerSeq == Some(NumberOf(param).r))
      && (forall v :: v in t.vehicles && v.ownerSeq == Some(NumberOf(param).r) ==> v in resp.data)
  {
    var n := NumberOf(param);
    if !IsPositive(n) then BadRequest(PersonSeqMessage) else OkResponse(Select(t.vehicles, OwnedBy(n.r)))
  }

  /** What the plate route answers. */
  datatype PlateDetails = PlateDetails(found: bool, vehicle: Option<Vehicle>, accessTag: Option<Access>)

  /** The plate a route parameter names: `normalizePlate(String(p ?? '').trim())`. */
  function PlateOf(param: JsValue): string
  {
    NormalizePlate(TextOf(param, ""))
  }

  /** `getVehicleByPlateDetailsController`: whether a vehicle has the
    * normalised plate, the first one that has it, and its access row with
    * the highest number. */
  function PlateDetailsRoute(t: Tables, param: JsValue): (resp: Response<PlateDetails>)
    ensures resp.Failure? <==> |PlateOf(param)| != 7
    ensures resp.Failure? ==> resp == BadRequest(PlateMessage)
    ensures resp.Success? ==> (resp.data.found <==> resp.data.vehicle.Some?)
  {
    var plate := PlateOf(param);
    if !PlatePattern(plate) then BadRequest(PlateMessage)
    else
      match VehicleWithPlate(t.vehicles, plate)
      case None => OkResponse(PlateDetails(false, None, None))
      case Some(v) => OkResponse(PlateDetails(true, Some(v), Newest(AccessesOf(t.accesses, v.id as real))))
  }

  /** A vehicle is reported exactly when one has the plate, and the one
    * reported has it. */
  lemma PlateDetailsFound(t: Tables, param: JsValue)
    ensures var resp := PlateDetailsRoute(t, param);
      resp.Success? ==>
        && (resp.data.found <==> exists i :: 0 <= i < |t.vehicles| && t.vehicles[i].plate == PlateOf(param))
        && (resp.data.found ==> resp.data.vehicle.value in t.vehicles && resp.data.vehicle.value.plate == PlateOf(param))
  {
    var plate := PlateOf(param);
    var found := VehicleWithPlate(t.vehicles, plate);
    if found.Some? {
      assert Plated(plate)(found.value);
    } else {
      assert forall i :: 0 <= i < |t.vehicles| ==> !Plated(plate)(t.vehicles[i]);
    }
  }

  /** The access row reported is one of the vehicle's rows, with the
    * highest number among them, and there is one whenever the vehicle has
    * any access row. */
  lemma PlateDetailsNewest(t: Tables, param: JsValue)
    ensures var resp := PlateDetailsRoute(t, param);
      resp.Success? && resp.data.found ==>
        var n := resp.data.vehicle.value.id as real;
        && (resp.data.accessTag.Some? <==> exists a :: a in t.accesses && a.vehicleSeq == Some(n))
        && (resp.data.accessTag.Some? ==>
              && resp.data.accessTag.value in t.accesses && resp.data.accessTag.value.vehicleSeq == Some(n)
              && forall a :: a in t.accesses && a.vehicleSeq == Some(n) ==> a.id <= resp.data.accessTag.value.id)
  {
    var resp := PlateDetailsRoute(t, param);
    if resp.Success? && resp.data.found {
      var n := resp.data.vehicle.value.id as real;
      var rows := AccessesOf(t.accesses, n);
      assert resp.data.accessTag == Newest(rows);
      forall a | a in t.accesses && a.vehicleSeq == Some(n) ensures a in rows {
        assert ForVehicle(n)(a);
      }
      if resp.data.accessTag.Some? {
        assert ForVehicle(n)(resp.data.accessTag.value);
      }
    }
  }
}
