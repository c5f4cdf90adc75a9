/** The read-only queries by CPF, plate and tag: the checks on the path
  * parameter, the payload built from the rows the database returns, and
  * the links of a person. The database look-ups themselves are inputs. */
module QueryController {
  import opened Wrappers
  import opened JsText
  import opened JsValues
  import OM = OrderedMaps
  import opened Identifiers
  import opened Lists

  /** A JSON object in its key order: the output key and its value. */
  type View = seq<(string, JsValue)>

  /** The object built by copying each named column of a row under its
    * output key. */
  function Project(row: JsValue, columns: seq<(string, string)>): (v: View)
    ensures |v| == |columns|
    ensures forall i :: 0 <= i < |columns| ==> v[i] == (columns[i].0, Get(row, columns[i].1))
  {
    seq(|columns|, i requires 0 <= i < |columns| => (columns[i].0, Get(row, columns[i].1)))
  }

  const VehicleColumns: seq<(string, string)> := [("sequencia", "V_SEQUENCIA"), ("placa", "V_PLACA"),
    ("marca", "V_MARCA"), ("modelo", "V_MODELO"), ("cor", "V_COR"), ("seqUnidade", "V_SEQUNIDADE"),
    ("proprietario", "V_PROPRIETARIO"), ("tagVeiculo", "V_TAGVEICULO")]

  const UnitColumns: seq<(string, string)> := [("sequencia", "U_SEQUENCIA"), ("quadra", "U_QUADRA"),
    ("lote", "U_LOTE"), ("status", "U_STATUS"), ("observacoes", "U_OBSERVACOES"), ("ramal", "U_RAMAL"),
    ("bloquear", "U_BLOQUEAR")]

  const OwnerColumns: seq<(string, string)> := [("sequencia", "P_SEQUENCIA"), ("pessoaTipo", "P_PESSOA_TIPO"),
    ("nome", "P_NOME"), ("rg", "P_RG"), ("cpf", "P_CPF"), ("dataNascimento", "P_DATANASCIMENTO"),
    ("sexo", "P_SEXO"), ("estado", "P_ESTADO"), ("email", "P_EMAIL"), ("telCelular", "P_TELCELULAR"),
    ("profissao", "P_PROFISSAO"), ("tipo", "P_TIPO"), ("categoria", "P_CATEGORIA"),
    ("classificacao", "P_CLASSIFICACAO"), ("empresa", "P_EMPRESA"), ("funcao", "P_FUNCAO"),
    ("observacoes", "P_OBSERVACOES"), ("alertaPortaria", "P_ALERTAPORTARIA"), ("prop", "P_PROP"),
    ("propTit", "P_PROPTIT"), ("loc", "P_LOC"), ("locTit", "P_LOCTIT"), ("mor", "P_MOR"),
    ("resp", "P_RESP"), ("familiar", "P_FAMILIAR")]

  const PersonColumns: seq<(string, string)> := [("sequencia", "P_SEQUENCIA"), ("pessoaTipo", "P_PESSOA_TIPO"),
    ("nome", "P_NOME"), ("rg", "P_RG"), ("cpf", "P_CPF"), ("dataNascimento", "P_DATANASCIMENTO"),
    ("sexo", "P_SEXO"), ("email", "P_EMAIL"), ("telCelular", "P_TELCELULAR"), ("foto", "P_FOTO"),
    ("profissao", "P_PROFISSAO"), ("tipo", "P_TIPO"), ("categoria", "P_CATEGORIA"),
    ("classificacao", "P_CLASSIFICACAO"), ("empresa", "P_EMPRESA"), ("funcao", "P_FUNCAO"),
    ("observacoes", "P_OBSERVACOES"), ("alertaPortaria", "P_ALERTAPORTARIA"), ("prop", "P_PROP"),
    ("propTit", "P_PROPTIT"), ("loc", "P_LOC"), ("locTit", "P_LOCTIT"), ("mor", "P_MOR"),
    ("resp", "P_RESP"), ("familiar", "P_FAMILIAR")]

  const LinkColumns: seq<(string, string)> := [("sequencia", "PV_SEQUENCIA"), ("seqPessoa", "PV_SEQPESSOA"),
    ("seqUnidade", "PV_SEQUNIDADE"), ("prop", "PV_PROP"), ("propTit", "PV_PROPTIT"), ("loc", "PV_LOC"),
    ("locTit", "PV_LOCTIT"), ("mor", "PV_MOR"), ("ap", "PV_AP"), ("permConcederAut", "PV_PERMCONCEDERAUT"),
    ("permAutorizarEnt", "PV_PERMAUTORIZARENT"), ("responsavel", "PV_RESPONSAVEL"),
    ("notificacaoAcesso", "PV_NOTIFICACAO_ACESSO"), ("notificarCirculacao", "PV_NOTIFICAR_CIRCULACAO"),
    ("responsavelFinanceiro", "PV_RESPONSAVEL_FINANCEIRO")]

  // ------------------------------------------------------ vehicle payload

  /** One access of the vehicle. */
  datatype AccessView = AccessView(sequencia: JsValue, seqPessoa: JsValue, tipo: JsValue, panico: JsValue,
    id: JsValue, id2: JsValue, veiculo: JsValue, acessoLiberado: JsValue)

  function AccessOf(row: JsValue): AccessView
  {
    AccessView(Get(row, "I_SEQUENCIA"), Get(row, "I_SEQPESSOA"), Get(row, "I_TIPO"), Get(row, "I_PANICO"),
      Get(row, "I_ID"), Get(row, "I_ID2"), Get(row, "I_VEICULO"), Get(row, "ACESSO_LIBERADO"))
  }

  /** The key an access is grouped by: its sequence as a string, none when
    * the row has no access. */
  function AccessKey(row: JsValue): Option<string>
  {
    var s := Get(row, "I_SEQUENCIA");
    if IsNullish(s) then None else Some(ToStr(s))
  }

  /** The accesses of the rows that are the first to carry their key, in
    * row order: the reference the payload's accesses are proved equal to. */
  function FirstAccesses(rows: seq<JsValue>): seq<AccessView>
  {
    OM.FirstValues(rows, AccessKey, AccessOf, |rows|)
  }

  /** What `buildVehiclePayload` returns; `None` is `null`. */
  datatype VehiclePayload = VehiclePayload(vehicle: Option<View>, unit: Option<View>, owner: Option<View>,
    accesses: seq<AccessView>)

  /** `buildVehiclePayload`: the vehicle, unit and owner of the first row,
    * and each distinct access once, at the row it first appears in. */
  method BuildVehiclePayload(rows: seq<JsValue>) returns (p: VehiclePayload)
    ensures rows == [] || !Truthy(rows[0]) ==> p == VehiclePayload(None, None, None, [])
    ensures rows != [] && Truthy(rows[0]) ==>
      && p.vehicle == Some(Project(rows[0], VehicleColumns))
      && (p.unit.Some? <==> Truthy(Get(rows[0], "U_SEQUENCIA")))
      && (p.unit.Some? ==> p.unit.value == Project(rows[0], UnitColumns))
      && (p.owner.Some? <==> Truthy(Get(rows[0], "P_SEQUENCIA")))
      && (p.owner.Some? ==> p.owner.value == Project(rows[0], OwnerColumns))
      && p.accesses == FirstAccesses(rows)
  {
    if rows == [] || !Truthy(rows[0]) {
      return VehiclePayload(None, None, None, []);
    }
    var first := rows[0];
    var vehicle := Project(first, VehicleColumns);
    var unit := if Truthy(Get(first, "U_SEQUENCIA")) then Some(Project(first, UnitColumns)) else None;
    var owner := if Truthy(Get(first, "P_SEQUENCIA")) then Some(Project(first, OwnerColumns)) else None;
    var accessMap := OM.Empty();
    var i := 0;
    while i < |rows|
      invariant 0 <= i <= |rows|
      invariant accessMap == OM.FirstByKey(rows[..i], AccessKey, AccessOf)
    {
      var row := rows[i];
      assert rows[..i + 1][..i] == rows[..i];
      var key := AccessKey(row);
      if key.Some? && OM.Get(accessMap, key.value).None? {
        accessMap := OM.Set(accessMap, key.value, AccessOf(row));
      }
      i := i + 1;
    }
    assert rows[..|rows|] == rows;
    OM.FirstByKeyValues(rows, AccessKey, AccessOf);
    p := VehiclePayload(Some(vehicle), unit, owner, OM.Values(accessMap));
  }

  /** The accesses are one per distinct key carried by some row, and each
    * comes from the first row with that key. */
  lemma AccessesOnePerKey(rows: seq<JsValue>, k: string)
    ensures var m := OM.FirstByKey(rows, AccessKey, AccessOf);
      && OM.Distinct(m.keys)
      && (k in m.keys <==> exists i :: 0 <= i < |rows| && AccessKey(rows[i]) == Some(k))
  {
    OM.FirstByKeyKeys(rows, AccessKey, AccessOf, k);
  }

  // ------------------------------------------------------------- queries

  const CpfRequiredMessage := "CPF é obrigatório."
  const CpfInvalidMessage := "CPF inválido."
  const PlateRequiredMessage := "Placa é obrigatória."
  const PlateInvalidMessage := "Placa inválida."
  const TagRequiredMessage := "Tag é obrigatória."

  /** The check of `queryCpf`: the digits of the trimmed parameter, which
    * must be present and a valid CPF. */
  function CpfQuery(param: string): (r: Result<string, string>)
    ensures Digits(Trim(param)) == [] ==> r == Err(CpfRequiredMessage)
    ensures Digits(Trim(param)) != [] && !IsValidCpf(Digits(Trim(param))) ==> r == Err(CpfInvalidMessage)
    ensures r.Ok? <==> IsValidCpf(Digits(Trim(param)))
    ensures r.Ok? ==> r.value == Digits(Trim(param)) && |r.value| == 11
  {
    var cpf := Digits(Trim(param));
    if cpf == [] then Err(CpfRequiredMessage)
    else if !IsValidCpf(cpf) then Err(CpfInvalidMessage)
    else Ok(cpf)
  }

  /** The check of `queryPlate`: seven letters or digits once upper-cased
    * and stripped; the format itself is not checked. */
  function PlateQuery(param: string): (r: Result<string, string>)
    ensures NormalizePlate(Trim(param)) == [] ==> r == Err(PlateRequiredMessage)
    ensures r.Ok? <==> |NormalizePlate(Trim(param))| == 7
    ensures r.Ok? ==> r.value == NormalizePlate(Trim(param))
    ensures r.Err? && NormalizePlate(Trim(param)) != [] ==> r == Err(PlateInvalidMessage)
  {
    var plate := NormalizePlate(Trim(param));
    if plate == [] then Err(PlateRequiredMessage)
    else if |plate| != 7 then Err(PlateInvalidMessage)
    else Ok(plate)
  }

  /** Seven digits pass the plate query though they are in neither plate
    * format. */
  lemma DigitsPassPlateQuery(s: string)
    requires |s| == 7 && AllDigits(s)
    ensures PlateQuery(s).Ok? && !IsPlateFormat(PlateQuery(s).value)
  {
    assert NoSpace(s) && NoLower(s) by {
      forall i | 0 <= i < |s| ensures !IsSpace(s[i]) && !IsLowerAscii(s[i]) { assert IsDigit(s[i]); }
    }
    TrimOfNoSpace(s);
    ToUpperOfNoLower(s);
    assert forall i :: 0 <= i < |s| ==> IsPlateChar(s[i]);
  }

  /** The check of `queryTag`: exactly ten digits once stripped. */
  function TagQuery(param: string): (r: Result<string, string>)
    ensures Digits(Trim(param)) == [] ==> r == Err(TagRequiredMessage)
    ensures r.Ok? <==> |Digits(Trim(param))| == 10
    ensures r.Ok? ==> r.value == Digits(Trim(param))
    ensures r.Err? && Digits(Trim(param)) != [] ==> r == Err(TagMessage)
  {
    var tag := Digits(Trim(param));
    if tag == [] then Err(TagRequiredMessage)
    else if |tag| != 10 then Err(TagMessage)
    else Ok(tag)
  }

  // ------------------------------------------------------------ cpf links

  /** One link of a person to a unit. */
  datatype Link = Link(pessoaVinculo: View, unidade: View)

  /** A row that links the person to a unit: both sequences are not null
    * (a missing column is `undefined`, which passes). */
  predicate IsLinked(row: JsValue)
  {
    !Get(row, "PV_SEQUENCIA").Null? && !Get(row, "U_SEQUENCIA").Null?
  }

  function LinkOf(row: JsValue): Link
  {
    Link(Project(row, LinkColumns), Project(row, UnitColumns))
  }

  /** The links of `queryCpf`: none when no person is found, else one per
    * linked row, in row order. */
  function CpfLinks(rows: seq<JsValue>): (r: seq<Link>)
    ensures rows == [] || !Truthy(rows[0]) ==> r == []
    ensures |r| <= |rows|
  {
    if rows == [] || !Truthy(rows[0]) then []
    else
      var linked := Select(rows, IsLinked);
      seq(|linked|, i requires 0 <= i < |linked| => LinkOf(linked[i]))
  }

  /** With a person found, the links are exactly those of the linked rows. */
  lemma CpfLinksExact(rows: seq<JsValue>)
    requires rows != [] && Truthy(rows[0])
    ensures forall i :: 0 <= i < |CpfLinks(rows)| ==>
      exists j :: 0 <= j < |rows| && IsLinked(rows[j]) && CpfLinks(rows)[i] == LinkOf(rows[j])
    ensures forall j :: 0 <= j < |rows| && IsLinked(rows[j]) ==> LinkOf(rows[j]) in CpfLinks(rows)
  {
    var linked := Select(rows, IsLinked);
    var r := CpfLinks(rows);
    forall i | 0 <= i < |r|
      ensures exists j :: 0 <= j < |rows| && IsLinked(rows[j]) && r[i] == LinkOf(rows[j])
    {
      assert linked[i] in rows;
      var j :| 0 <= j < |rows| && rows[j] == linked[i];
    }
    forall j | 0 <= j < |rows| && IsLinked(rows[j]) ensures LinkOf(rows[j]) in r {
      assert rows[j] in linked;
      var i :| 0 <= i < |linked| && linked[i] == rows[j];
      assert r[i] == LinkOf(rows[j]);
    }
  }

  /** The answer of `queryCpf`. */
  datatype CpfAnswer = CpfAnswer(cpf: string, isValid: bool, found: bool, person: Option<View>, links: seq<Link>)

  function AnswerCpf(cpf: string, rows: seq<JsValue>): (a: CpfAnswer)
    ensures a.found <==> a.person.Some?
    ensures a.found <==> rows != [] && Truthy(rows[0])
    ensures !a.found ==> a.links == []
  {
    var person := if rows != [] && Truthy(rows[0]) then Some(Project(rows[0], PersonColumns)) else None;
    CpfAnswer(cpf, true, person.Some?, person, CpfLinks(rows))
  }

  /** The answer of `queryPlate` and `queryTag`: the key searched, whether a
    * vehicle was found, and the payload. */
  datatype VehicleAnswer = VehicleAnswer(key: string, found: bool, payload: VehiclePayload)

  method AnswerVehicle(key: string, rows: seq<JsValue>) returns (a: VehicleAnswer)
    ensures a.key == key
    ensures a.found <==> rows != [] && Truthy(rows[0])
    ensures a.found <==> a.payload.vehicle.Some?
    ensures a.payload.accesses == if a.found then FirstAccesses(rows) else []
  {
    var payload := BuildVehiclePayload(rows);
    a := VehicleAnswer(key, payload.vehicle.Some?, payload);
  }
}
