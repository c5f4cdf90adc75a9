/** The checks of the access-control ("freedom") controller: what kind of
  * identifier a search string is, the credential it stands for, the
  * limit of the access list and the field rules of a new access record.
  * The database look-ups behind a plate or a CPF are left as requests. */
module FreedomController {
  import opened Wrappers
  import opened JsText
  import opened JsValues
  import opened Identifiers
  import opened Lists

  // ------------------------------------------------------ search id types

  datatype SearchIdType = Plate | Cpf | Tag | NormalizedAccessId | ShortAccessId

  const InvalidIdMessage := "ID deve ser uma placa válida (AAA1234/AAA1A23), CPF válido, TAG com 10 dígitos, ID numérico com até 8 dígitos ou o ID já formatado (898********787)."
  const BlankIdMessage := "Informe o identificador para consulta."

  /** The order in which `detectSearchIdType` tries the kinds. */
  function Rank(t: SearchIdType): nat
  {
    match t
    case Plate => 0
    case Cpf => 1
    case Tag => 2
    case NormalizedAccessId => 3
    case ShortAccessId => 4
  }

  /** Whether the raw value has the shape of kind `t`, tried on its plate
    * normalisation or on its digits. */
  predicate Matches(t: SearchIdType, raw: string)
  {
    var digits := Digits(raw);
    match t
    case Plate => IsPlateFormat(NormalizePlate(raw))
    case Cpf => IsValidCpf(digits)
    case Tag => |digits| == 10
    case NormalizedAccessId => IsNormalizedAccessId(digits)
    case ShortAccessId => 1 <= |digits| <= 8
  }

  /** `detectSearchIdType`. */
  function DetectSearchIdType(raw: string): (r: Result<SearchIdType, Rejection>)
    ensures r.Ok? ==> Matches(r.value, raw)
    ensures r.Err? ==> r.error == Rejection(400, InvalidIdMessage)
  {
    var plate := NormalizePlate(raw);
    var digits := Digits(raw);
    if IsPlateFormat(plate) then Ok(Plate)
    else if digits != "" && IsValidCpf(digits) then Ok(Cpf)
    else if |digits| == 10 then Ok(Tag)
    else if IsNormalizedAccessId(digits) then Ok(NormalizedAccessId)
    else if 1 <= |digits| <= 8 then Ok(ShortAccessId)
    else Err(Rejection(400, InvalidIdMessage))
  }

  /** The kind found is the first that matches in the order plate, CPF,
    * tag, normalised access id, short access id; a value matching none is
    * refused. */
  lemma DetectPriority(raw: string, t: SearchIdType)
    ensures DetectSearchIdType(raw) == Ok(t) <==>
      Matches(t, raw) && forall u :: Rank(u) < Rank(t) ==> !Matches(u, raw)
    ensures DetectSearchIdType(raw).Err? <==> forall u :: !Matches(u, raw)
  {
    var r := DetectSearchIdType(raw);
    forall u | r.Ok? && Rank(u) < Rank(r.value) ensures !Matches(u, raw) {
      match u
      case Plate =>
      case Cpf =>
      case Tag =>
      case NormalizedAccessId =>
      case ShortAccessId =>
    }
    if r.Err? {
      forall u ensures !Matches(u, raw) {
        match u
        case Plate =>
        case Cpf =>
        case Tag =>
        case NormalizedAccessId =>
        case ShortAccessId =>
      }
    }
    if Matches(t, raw) && (forall u :: Rank(u) < Rank(t) ==> !Matches(u, raw)) {
      match t
      case Plate =>
      case Cpf => assert !Matches(Plate, raw);
      case Tag => assert !Matches(Plate, raw) && !Matches(Cpf, raw);
      case NormalizedAccessId => assert !Matches(Plate, raw) && !Matches(Cpf, raw) && !Matches(Tag, raw);
      case ShortAccessId =>
        assert !Matches(Plate, raw) && !Matches(Cpf, raw) && !Matches(Tag, raw) && !Matches(NormalizedAccessId, raw);
    }
  }

  /** An old-format plate is taken as a plate even though its last four
    * characters alone would make a short access id. */
  lemma LegacyPlateBeforeShortId(p: string)
    requires LegacyPlate(p)
    ensures DetectSearchIdType(p) == Ok(Plate)
    ensures Matches(ShortAccessId, p)
  {
    assert NoLower(p) by {
      forall i | 0 <= i < |p| ensures !IsLowerAscii(p[i]) { assert IsUpperAscii(p[i]) || IsDigit(p[i]); }
    }
    ToUpperOfNoLower(p);
    assert KeepPlateChars(p) == p by {
      assert forall i :: 0 <= i < |p| ==> IsPlateChar(p[i]);
    }
    assert Digits(p) == Digits(p[1..]);
    assert Digits(p[1..]) == Digits(p[2..]) by { assert p[1..][1..] == p[2..]; }
    assert Digits(p[2..]) == Digits(p[3..]) by { assert p[2..][1..] == p[3..]; }
    assert AllDigits(p[3..]);
  }

  /** Eleven digits that fail the CPF check are none of the kinds. */
  lemma ElevenDigitsNotCpfRefused(s: string)
    requires |s| == 11 && AllDigits(s) && !IsValidCpf(s)
    ensures DetectSearchIdType(s).Err?
  {
    assert NormalizePlate(s) == s by {
      assert NoLower(s) by {
        forall i | 0 <= i < |s| ensures !IsLowerAscii(s[i]) { assert IsDigit(s[i]); }
      }
      ToUpperOfNoLower(s);
    }
  }

  // ------------------------------------------------------ resolving an id

  /** What `resolveIdForAccess` does with an id: a credential computed on
    * the spot, or a look-up by plate or by CPF in the database. */
  datatype Resolution = Credential(value: string) | ByPlate(plate: string) | ByCpf(cpf: string)

  /** A credential `resolveIdForAccess` computes: a tag credential `Y` +
    * 10 digits, or a normalised access id. */
  predicate IsCredential(c: string)
  {
    IsNormalizedAccessId(c) || (|c| == 11 && c[0] == 'Y' && AllDigits(c[1..]))
  }

  /** `resolveIdForAccess`, without the database: the kind of the trimmed,
    * upper-cased id decides. */
  function ResolveIdForAccess(raw: string): (r: Result<Resolution, Rejection>)
    ensures IsBlank(raw) <==> r == Err(Rejection(400, BlankIdMessage))
    ensures r.Err? ==> r.error.status == 400
    ensures r.Ok? && r.value.Credential? ==> IsCredential(r.value.value)
    ensures r.Ok? && r.value.ByPlate? ==> IsPlateFormat(r.value.plate)
    ensures r.Ok? && r.value.ByCpf? ==> IsValidCpf(r.value.cpf)
  {
    var trimmed := Trim(raw);
    if trimmed == [] then Err(Rejection(400, BlankIdMessage))
    else
      var upper := ToUpper(trimmed);
      var digits := Digits(trimmed);
      DigitsOfUpper(trimmed);
      PlateOfUpper(trimmed);
      match DetectSearchIdType(upper)
      case Err(e) => Err(e)
      case Ok(t) =>
        match t
        case Plate => Ok(ByPlate(NormalizePlate(trimmed)))
        case Cpf => Ok(ByCpf(digits))
        case Tag =>
          (match BuildTagCredential(digits)
           case Ok(c) => assert c[1..] == digits; Ok(Credential(c))
           case Err(e) => Err(e))
        case NormalizedAccessId => Ok(Credential(digits))
        case ShortAccessId =>
          (match BuildAccessIdCredential(digits)
           case Ok(c) => Ok(Credential(c))
           case Err(e) => Err(e))
  }

  /** Upper-casing keeps the digits. */
  lemma {:induction false} DigitsOfUpper(s: string)
    ensures Digits(ToUpper(s)) == Digits(s)
  {
    if s != [] {
      assert ToUpper(s) == [UpperChar(s[0])] + ToUpper(s[1..]);
      assert ToUpper(s)[1..] == ToUpper(s[1..]);
      DigitsOfUpper(s[1..]);
    }
  }

  /** Upper-casing first changes no plate normalisation. */
  lemma PlateOfUpper(s: string)
    ensures NormalizePlate(ToUpper(s)) == NormalizePlate(s)
  {
    ToUpperIdempotent(s);
  }

  /** A credential is resolved to itself: feeding the answer back in gives
    * the same answer, so resolving is idempotent. */
  lemma ResolveCredentialFixed(raw: string)
    ensures var r := ResolveIdForAccess(raw);
      r.Ok? && r.value.Credential? ==> ResolveIdForAccess(r.value.value) == r
  {
    var r := ResolveIdForAccess(raw);
    if r.Ok? && r.value.Credential? {
      var c := r.value.value;
      CredentialIsCanonical(c);
      if IsNormalizedAccessId(c) {
        assert ResolveIdForAccess(c) == Ok(Credential(c)) by {
          assert Digits(c) == c;
          assert !IsPlateFormat(c);
        }
      } else {
        TagCredentialResolves(c);
      }
    }
  }

  /** A credential has no white space, no lower case and only letters and
    * digits, so trimming, upper-casing and plate normalisation keep it. */
  lemma CredentialIsCanonical(c: string)
    requires IsCredential(c)
    ensures Trim(c) == c && ToUpper(c) == c && NormalizePlate(c) == c && c != []
  {
    assert forall i :: 0 <= i < |c| ==> IsPlateChar(c[i]) by {
      forall i | 0 <= i < |c| ensures IsPlateChar(c[i]) {
        if !IsNormalizedAccessId(c) && i > 0 { assert c[i] == c[1..][i - 1]; }
      }
    }
    assert NoSpace(c) && NoLower(c) by {
      forall i | 0 <= i < |c| ensures !IsSpace(c[i]) && !IsLowerAscii(c[i]) { assert IsPlateChar(c[i]); }
    }
    TrimOfNoSpace(c);
    ToUpperOfNoLower(c);
  }

  /** `Y` + 10 digits is read back as a tag and gives itself. */
  lemma TagCredentialResolves(c: string)
    requires |c| == 11 && c[0] == 'Y' && AllDigits(c[1..])
    requires Trim(c) == c && ToUpper(c) == c && NormalizePlate(c) == c
    ensures ResolveIdForAccess(c) == Ok(Credential(c))
  {
    assert c == "Y" + c[1..];
    assert Digits(c) == c[1..];
    assert !IsPlateFormat(c);
    assert Digits(c[1..]) == c[1..];
  }

  // ----------------------------------------------------------- listAccess

  const DeviceRequiredMessage := "Parâmetro device é obrigatório."
  const DeviceInvalidMessage := "Parâmetro device inválido."
  const LimitInvalidMessage := "Parâmetro limit inválido."

  /** What `listAccess` passes to the repository. */
  datatype ListAccessCall = ListAccessCall(device: real, limit: int)

  predicate IsAbsent(v: JsValue) { v.Undefined? || v.Null? || v == Str("") }

  /** The checks of `listAccess` on the query string: the device (or
    * `dispositivo`) must be a positive number; the limit (or `qtd`) is 10
    * when absent, must be positive when given, and is floored and capped
    * at 50. */
  function ListAccessRequest(query: JsValue): (r: Result<ListAccessCall, string>)
    ensures var device := Coalesce(Get(query, "device"), Get(query, "dispositivo"));
      && (IsAbsent(device) ==> r == Err(DeviceRequiredMessage))
      && (!IsAbsent(device) && !(NumberOf(device).Finite? && NumberOf(device).r > 0.0) ==> r == Err(DeviceInvalidMessage))
      && (r.Ok? ==> NumberOf(device) == Finite(r.value.device) && r.value.device > 0.0)
    ensures var limit := Coalesce(Get(query, "limit"), Get(query, "qtd"));
      && (r.Ok? && IsAbsent(limit) ==> r.value.limit == 10)
      && (r.Ok? && !IsAbsent(limit) ==>
            && NumberOf(limit).Finite? && NumberOf(limit).r > 0.0
            && r.value.limit == if NumberOf(limit).r.Floor < 50 then NumberOf(limit).r.Floor else 50)
    ensures r.Ok? ==> 0 <= r.value.limit <= 50
  {
    var device := Coalesce(Get(query, "device"), Get(query, "dispositivo"));
    var limit := Coalesce(Get(query, "limit"), Get(query, "qtd"));
    if IsAbsent(device) then Err(DeviceRequiredMessage)
    else
      var d := NumberOf(device);
      if !(d.Finite? && d.r > 0.0) then Err(DeviceInvalidMessage)
      else if IsAbsent(limit) then Ok(ListAccessCall(d.r, 10))
      else
        var l := NumberOf(limit);
        if !(l.Finite? && l.r > 0.0) then Err(LimitInvalidMessage)
        else Ok(ListAccessCall(d.r, if l.r.Floor < 50 then l.r.Floor else 50))
  }

  /** A limit below one passes the positivity check and is floored to 0. */
  lemma FractionalLimitIsZero(device: JsValue)
    requires device.Number? && device.n.Finite? && device.n.r > 0.0
    ensures ListAccessRequest(Obj(map["device" := device, "limit" := Number(Finite(0.5))]))
      == Ok(ListAccessCall(device.n.r, 0))
  {
    assert (0.5).Floor == 0;
  }

  // ---------------------------------------------------- registerNewAccess

  /** The fields of an access record, in the order they are checked. */
  datatype Field =
    | Dispositivo | Pessoa | Classificacao | ClassAutorizado | AutorizacaoLanc | Origem | SeqIdAcesso
    | Sentido | Quadra | Lote | Panico | FormaAcesso | IdAcesso | SeqVeiculo

  /** The body key of a field. */
  function Name(f: Field): string
  {
    match f
    case Dispositivo => "dispositivo"
    case Pessoa => "pessoa"
    case Classificacao => "classificacao"
    case ClassAutorizado => "classAutorizado"
    case AutorizacaoLanc => "autorizacaoLanc"
    case Origem => "origem"
    case SeqIdAcesso => "seqIdAcesso"
    case Sentido => "sentido"
    case Quadra => "quadra"
    case Lote => "lote"
    case Panico => "panico"
    case FormaAcesso => "formaAcesso"
    case IdAcesso => "idAcesso"
    case SeqVeiculo => "seqVeiculo"
  }

  function Names(fs: seq<Field>): (r: seq<string>)
    ensures |r| == |fs| && forall i :: 0 <= i < |fs| ==> r[i] == Name(fs[i])
  {
    seq(|fs|, i requires 0 <= i < |fs| => Name(fs[i]))
  }

  const AccessFields: seq<Field> := [Dispositivo, Pessoa, Classificacao, ClassAutorizado, AutorizacaoLanc,
    Origem, SeqIdAcesso, Sentido, Quadra, Lote, Panico, FormaAcesso, IdAcesso, SeqVeiculo]
  const NumericFields: seq<Field> := [Dispositivo, Pessoa, Classificacao, SeqIdAcesso, SeqVeiculo]
  const TextFields: seq<Field> := [ClassAutorizado, AutorizacaoLanc, Origem, Quadra, Lote, Panico,
    FormaAcesso, IdAcesso, Sentido]

  /** Where a field stands in the order of the presence checks. */
  function Position(f: Field): (i: nat)
    ensures i < |AccessFields| && AccessFields[i] == f
  {
    match f
    case Dispositivo => 0
    case Pessoa => 1
    case Classificacao => 2
    case ClassAutorizado => 3
    case AutorizacaoLanc => 4
    case Origem => 5
    case SeqIdAcesso => 6
    case Sentido => 7
    case Quadra => 8
    case Lote => 9
    case Panico => 10
    case FormaAcesso => 11
    case IdAcesso => 12
    case SeqVeiculo => 13
  }

  /** Every field is checked either as a number or as a text. */
  lemma FieldsPartitioned(f: Field)
    ensures f in NumericFields <==> f !in TextFields
  {
  }

  /** The fields of a record, as the handler destructures them from the
    * request body. */
  type Record = Field -> JsValue

  function Destructure(body: JsValue): (rec: Record)
    ensures forall f :: rec(f) == Get(body, Name(f))
  {
    f => Get(body, Name(f))
  }

  /** `String(v).trim().toUpperCase()`. */
  function Canonical(v: JsValue): string { ToUpper(Trim(ToStr(v))) }

  /** `sentido`: E (entry) or S (exit). */
  predicate IsDirection(v: JsValue) { Canonical(v) == "E" || Canonical(v) == "S" }

  /** `panico` and `classAutorizado`: S or N. */
  predicate IsYesNo(v: JsValue) { Canonical(v) == "S" || Canonical(v) == "N" }

  /** The fields that are absent, null or `''`, in the order checked. */
  function MissingFields(rec: Record): seq<Field>
  {
    Select(AccessFields, AbsentIn(rec))
  }

  // The tests the field checks filter with.

  function AbsentIn(rec: Record): Field -> bool { (f: Field) => IsAbsent(rec(f)) }

  function NotFiniteIn(rec: Record): Field -> bool { (f: Field) => !NumberOf(rec(f)).Finite? }

  function NotTextIn(rec: Record): Field -> bool { (f: Field) => !IsNonBlankString(rec(f)) }

  /** The numeric fields that are not finite numbers. */
  function NumericFailures(rec: Record): seq<Field>
  {
    Select(NumericFields, NotFiniteIn(rec))
  }

  /** The text fields that are not non-blank strings. */
  function TextFailures(rec: Record): seq<Field>
  {
    Select(TextFields, NotTextIn(rec))
  }

  /** The one-letter codes that are out of range. */
  function CodeFailures(rec: Record): seq<Field>
  {
    (if IsDirection(rec(Sentido)) then [] else [Sentido])
    + (if IsYesNo(rec(Panico)) then [] else [Panico])
    + (if IsYesNo(rec(ClassAutorizado)) then [] else [ClassAutorizado])
  }

  /** The failed checks in the order made: numbers, texts, then the three
    * one-letter codes; a field can fail twice. */
  function FailedChecks(rec: Record): seq<Field>
  {
    NumericFailures(rec) + TextFailures(rec) + CodeFailures(rec)
  }

  /** The outcome of the checks of `registerNewAccess`. */
  datatype Verdict = Accepted | Missing(fields: seq<Field>) | Invalid(fields: seq<Field>)

  /** The missing fields first, then the invalid ones, each named once. */
  function Refusal(missing: seq<Field>, failed: seq<Field>): (v: Verdict)
    ensures v.Accepted? <==> missing == [] && failed == []
    ensures v.Missing? <==> missing != []
    ensures v.Missing? ==> v.fields == missing
    ensures v.Invalid? ==> v.fields != [] && NoRepeats(v.fields)
    ensures v.Invalid? ==> forall i :: 0 <= i < |failed| ==> failed[i] in v.fields
    ensures v.Invalid? ==> forall i :: 0 <= i < |v.fields| ==> v.fields[i] in failed
  {
    if missing != [] then Missing(missing)
    else if failed != [] then Invalid(Dedup(failed))
    else Accepted
  }

  /** The outcome of the checks on a record. */
  function NewAccessVerdict(rec: Record): Verdict
  {
    Refusal(MissingFields(rec), FailedChecks(rec))
  }

  /** The 400 message of a refused record. */
  function VerdictMessage(v: Verdict): (r: Result<(), string>)
    ensures r.Ok? <==> v.Accepted?
  {
    match v
    case Accepted => Ok(())
    case Missing(fields) => Err("Necessario dados obrigatorios: " + JoinWith(Names(fields), ", ") + ".")
    case Invalid(fields) => Err("Dados invalidos: " + JoinWith(Names(fields), ", ") + ".")
  }

  /** The validation of `registerNewAccess` on the request body. */
  function CheckNewAccess(body: JsValue): (r: Result<(), string>)
    ensures r.Ok? <==> NewAccessVerdict(Destructure(body)).Accepted?
  {
    VerdictMessage(NewAccessVerdict(Destructure(body)))
  }

  /** No field is missing exactly when every field is present. */
  lemma NoneMissingIff(rec: Record)
    ensures MissingFields(rec) == [] <==> forall f: Field :: !IsAbsent(rec(f))
  {
    if MissingFields(rec) == [] {
      forall f: Field ensures !IsAbsent(rec(f)) {
        PresentUnlessListed(rec, f);
      }
    }
  }

  lemma NoNumericFailuresIff(rec: Record)
    ensures NumericFailures(rec) == [] <==>
      forall f :: f in NumericFields ==> NumberOf(rec(f)).Finite?
  {
  }

  lemma NoTextFailuresIff(rec: Record)
    ensures TextFailures(rec) == [] <==>
      forall f :: f in TextFields ==> IsNonBlankString(rec(f))
  {
  }

  /** A record is accepted exactly when every field is present, the five
    * numeric fields are finite numbers, the nine text fields are non-blank
    * strings, `sentido` is E or S and `panico` and `classAutorizado` are S
    * or N, in either case and with any padding. */
  lemma NewAccessAcceptedIff(rec: Record)
    ensures NewAccessVerdict(rec).Accepted? <==>
      && (forall f: Field :: !IsAbsent(rec(f)))
      && (forall f :: f in NumericFields ==> NumberOf(rec(f)).Finite?)
      && (forall f :: f in TextFields ==> IsNonBlankString(rec(f)))
      && IsDirection(rec(Sentido))
      && IsYesNo(rec(Panico))
      && IsYesNo(rec(ClassAutorizado))
  {
    NoneMissingIff(rec);
    NoNumericFailuresIff(rec);
    NoTextFailuresIff(rec);
    AcceptedIffNoFailure(rec);
  }

  /** A record is accepted exactly when no field is missing and no check
    * fails. */
  lemma AcceptedIffNoFailure(rec: Record)
    ensures NewAccessVerdict(rec).Accepted? <==>
      MissingFields(rec) == [] && NumericFailures(rec) == [] && TextFailures(rec) == [] && CodeFailures(rec) == []
  {
  }

  /** A missing field is reported, and before any invalid one. */
  lemma MissingReportedFirst(rec: Record, f: Field)
    requires IsAbsent(rec(f))
    ensures NewAccessVerdict(rec).Missing?
    ensures f in NewAccessVerdict(rec).fields
  {
    PresentUnlessListed(rec, f);
  }

  /** An absent field is listed as missing. */
  lemma PresentUnlessListed(rec: Record, f: Field)
    ensures IsAbsent(rec(f)) ==> f in MissingFields(rec)
  {
    var i := Position(f);
    assert AbsentIn(rec)(AccessFields[i]) == IsAbsent(rec(f));
  }

  /** A `sentido` that is neither a non-blank string nor E or S fails both
    * checks, and is named once. */
  lemma SentidoNamedOnce(rec: Record)
    requires MissingFields(rec) == [] && NumericFailures(rec) == []
    requires forall i :: 0 <= i < |TextFields| - 1 ==> IsNonBlankString(rec(TextFields[i]))
    requires IsYesNo(rec(Panico)) && IsYesNo(rec(ClassAutorizado))
    requires !IsNonBlankString(rec(Sentido)) && !IsDirection(rec(Sentido))
    ensures FailedChecks(rec) == [Sentido, Sentido]
    ensures NewAccessVerdict(rec) == Invalid([Sentido])
  {
    OnlySentidoText(rec);
    OnlySentidoCode(rec);
    SentidoFailsTwice(rec);
    DedupTwice(Sentido);
  }

  lemma SentidoFailsTwice(rec: Record)
    requires NumericFailures(rec) == [] && TextFailures(rec) == [Sentido] && CodeFailures(rec) == [Sentido]
    ensures FailedChecks(rec) == [Sentido, Sentido]
  {
  }

  lemma OnlySentidoCode(rec: Record)
    requires IsYesNo(rec(Panico)) && IsYesNo(rec(ClassAutorizado))
    requires !IsDirection(rec(Sentido))
    ensures CodeFailures(rec) == [Sentido]
  {
  }

  lemma OnlySentidoText(rec: Record)
    requires forall i :: 0 <= i < |TextFields| - 1 ==> IsNonBlankString(rec(TextFields[i]))
    requires !IsNonBlankString(rec(Sentido))
    ensures TextFailures(rec) == [Sentido]
  {
    var textBad := NotTextIn(rec);
    var head := TextFields[..8];
    assert TextFields == head + [Sentido];
    assert forall i :: 0 <= i < |head| ==> !textBad(head[i]);
    SelectLast(head, Sentido, textBad);
  }

  /** The message naming a single invalid field. */
  lemma SingleInvalidMessage(f: Field)
    ensures VerdictMessage(Invalid([f])) == Err("Dados invalidos: " + Name(f) + ".")
  {
    assert Names([f]) == [Name(f)];
  }
}
