/** The access-control devices kept in the database: facial-recognition
  * doors (FACIAL_DISP) and TAG-reader gates (DISPACESSO). Every column read
  * is normalised: text columns are trimmed (a missing one reads as empty)
  * and numeric columns read as 0 unless they hold a finite number.
  *
  * A query's result is an input (what the database driver returns, which
  * need not be an array); the `WHERE` clauses are written out as filters
  * over a table of rows, a row being an object from column names to
  * values. */
module ControlRepository {
  import opened Wrappers
  import opened JsText
  import opened JsValues
  import opened Lists

  datatype DoorDevice = DoorDevice(sequencia: real, ip: string, subrede: string, gateway: string, nome: string,
                                   deviceId: real, usuarioApi: string, senhaApi: string, ativo: string, porta: real)

  datatype GateDevice = GateDevice(sequencia: real, numeroDispositivo: real, ip: string, porta: real,
                                   classificacoes: string, nome: string, tipoDispositivo: string, ativo: string)

  /** `normalizeString`: `''` for `undefined` and `null`, else the value as
    * text, trimmed. */
  function NormalizeString(v: JsValue): (s: string)
    ensures Trim(s) == s
    ensures IsNullish(v) ==> s == ""
    ensures v.Str? ==> s == Trim(v.s)
  {
    if IsNullish(v) then "" else (TrimIdempotent(ToStr(v)); Trim(ToStr(v)))
  }

  /** `normalizeNumber`: the value as a number when that is finite, else 0. */
  function NormalizeNumber(v: JsValue): (n: real)
    ensures NumberOf(v).Finite? ==> n == NumberOf(v).r
    ensures !NumberOf(v).Finite? ==> n == 0.0
  {
    match NumberOf(v)
    case Finite(r) => r
    case _ => 0.0
  }

  /** `mapDoorRow`. */
  function MapDoorRow(row: JsValue): (d: DoorDevice)
  {
    DoorDevice(NormalizeNumber(Get(row, "SEQUENCIA")), NormalizeString(Get(row, "IP")),
               NormalizeString(Get(row, "SUBREDE")), NormalizeString(Get(row, "GATEWAY")),
               NormalizeString(Get(row, "NOME")), NormalizeNumber(Get(row, "DEVICEID")),
               NormalizeString(Get(row, "USUARIO_API")), NormalizeString(Get(row, "SENHA_API")),
               NormalizeString(Get(row, "ATIVO")), NormalizeNumber(Get(row, "PORTA")))
  }

  /** `mapGateRow`. */
  function MapGateRow(row: JsValue): (g: GateDevice)
  {
    GateDevice(NormalizeNumber(Get(row, "SEQUENCIA")), NormalizeNumber(Get(row, "NUMDISPOSITIVO")),
               NormalizeString(Get(row, "IP")), NormalizeNumber(Get(row, "PORTA")),
               NormalizeString(Get(row, "CLASSIFICACOES")), NormalizeString(Get(row, "NOME")),
               NormalizeString(Get(row, "TIPODISPOSITIVO")), NormalizeString(Get(row, "ATIVO")))
  }

  /** Every text field of a mapped door is trimmed, and a row with a column
    * missing reads that field as empty text or 0. */
  lemma DoorFieldsNormalised(row: JsValue)
    ensures var d := MapDoorRow(row);
      && Trim(d.ip) == d.ip && Trim(d.subrede) == d.subrede && Trim(d.gateway) == d.gateway
      && Trim(d.nome) == d.nome && Trim(d.usuarioApi) == d.usuarioApi && Trim(d.senhaApi) == d.senhaApi
      && Trim(d.ativo) == d.ativo
      && (!row.Obj? ==> d == DoorDevice(0.0, "", "", "", "", 0.0, "", "", "", 0.0))
  {
  }

  /** A gate row with a missing column reads that field as empty text or 0;
    * a row that is not an object reads as an empty gate. */
  lemma GateFieldsNormalised(row: JsValue)
    ensures var g := MapGateRow(row);
      && Trim(g.ip) == g.ip && Trim(g.classificacoes) == g.classificacoes && Trim(g.nome) == g.nome
      && Trim(g.tipoDispositivo) == g.tipoDispositivo && Trim(g.ativo) == g.ativo
      && (!row.Obj? ==> g == GateDevice(0.0, 0.0, "", 0.0, "", "", "", ""))
  {
  }

  /** `result.map(mapRow)`. */
  function MapRows<T>(rows: seq<JsValue>, mapRow: JsValue -> T): (r: seq<T>)
    ensures |r| == |rows|
    ensures forall i :: 0 <= i < |rows| ==> r[i] == mapRow(rows[i])
  {
    seq(|rows|, i requires 0 <= i < |rows| => mapRow(rows[i]))
  }

  /** `listAvailableDoors` on the query result: `[]` unless it is an
    * array, else every row mapped, in order. */
  function ListAvailableDoors(result: JsValue): (ds: seq<DoorDevice>)
    ensures !result.Arr? ==> ds == []
    ensures result.Arr? ==> |ds| == |result.items| && forall i :: 0 <= i < |ds| ==> ds[i] == MapDoorRow(result.items[i])
  {
    if result.Arr? then MapRows(result.items, MapDoorRow) else []
  }

  /** `listAvailableGates` on the query result. */
  function ListAvailableGates(result: JsValue): (gs: seq<GateDevice>)
    ensures !result.Arr? ==> gs == []
    ensures result.Arr? ==> |gs| == |result.items| && forall i :: 0 <= i < |gs| ==> gs[i] == MapGateRow(result.items[i])
  {
    if result.Arr? then MapRows(result.items, MapGateRow) else []
  }

  /** `getDoorById` on the query result: nothing unless it is a non-empty
    * array, else its first row mapped. */
  function GetDoorById(result: JsValue): (d: Option<DoorDevice>)
    ensures d.None? <==> !result.Arr? || result.items == []
    ensures d.Some? ==> d.value == MapDoorRow(result.items[0])
  {
    if !result.Arr? || result.items == [] then None else Some(MapDoorRow(result.items[0]))
  }

  /** `getGateByNumeroDispositivo` on the query result. */
  function GetGateByNumeroDispositivo(result: JsValue): (g: Option<GateDevice>)
    ensures g.None? <==> !result.Arr? || result.items == []
    ensures g.Some? ==> g.value == MapGateRow(result.items[0])
  {
    if !result.Arr? || result.items == [] then None else Some(MapGateRow(result.items[0]))
  }

  // ---------------------------------------------------------------------
  // The queries' selections
  // ---------------------------------------------------------------------

  /** `"NOME" IS NOT NULL AND ATIVO = 'S'`. */
  predicate ListedDoor(row: JsValue)
  {
    !IsNullish(Get(row, "NOME")) && Get(row, "ATIVO") == Str("S")
  }

  /** The doors `listAvailableDoors` selects. */
  function DoorRows(): JsValue -> bool
  {
    (row: JsValue) => ListedDoor(row)
  }

  /** The doors `getDoorById(id)` selects: listed, with `DEVICEID = id`. */
  function DoorRowsWithId(id: real): JsValue -> bool
  {
    (row: JsValue) => ListedDoor(row) && Get(row, "DEVICEID") == Number(Finite(id))
  }

  /** `TIPODISPOSITIVO LIKE '%TAG%'`. */
  predicate TagGate(row: JsValue)
  {
    Get(row, "TIPODISPOSITIVO").Str? && Contains(Get(row, "TIPODISPOSITIVO").s, "TAG")
  }

  /** The gates `listAvailableGates` selects (active or not). */
  function GateRows(): JsValue -> bool
  {
    (row: JsValue) => TagGate(row)
  }

  /** The gates `getGateByNumeroDispositivo(n)` selects: TAG gates with
    * `NUMDISPOSITIVO = n` and `ATIVO = 'S'`. */
  function GateRowsWithNumber(n: real): JsValue -> bool
  {
    (row: JsValue) => TagGate(row) && Get(row, "NUMDISPOSITIVO") == Number(Finite(n)) && Get(row, "ATIVO") == Str("S")
  }

  /** The door found by id carries that id, is active, and exists exactly
    * when some listed row of the table has that id. */
  lemma DoorFoundById(table: seq<JsValue>, id: real)
    ensures var d := GetDoorById(Arr(Select(table, DoorRowsWithId(id))));
      && (d.None? <==> forall i :: 0 <= i < |table| ==> !DoorRowsWithId(id)(table[i]))
      && (d.Some? ==> d.value.deviceId == id && d.value.ativo == "S")
  {
    var rows := Select(table, DoorRowsWithId(id));
    if rows != [] {
      assert rows[0] in rows;
      DoorWithIdMaps(rows[0], id);
    }
  }

  lemma DoorWithIdMaps(row: JsValue, id: real)
    requires DoorRowsWithId(id)(row)
    ensures MapDoorRow(row).deviceId == id && MapDoorRow(row).ativo == "S"
  {
    TrimOfNoSpace("S");
  }

  /** The gate found by number carries that number, is an active TAG gate,
    * and exists exactly when some such row of the table has that number. */
  lemma GateFoundByNumber(table: seq<JsValue>, n: real)
    ensures var g := GetGateByNumeroDispositivo(Arr(Select(table, GateRowsWithNumber(n))));
      && (g.None? <==> forall i :: 0 <= i < |table| ==> !GateRowsWithNumber(n)(table[i]))
      && (g.Some? ==> g.value.numeroDispositivo == n && g.value.ativo == "S" && Contains(g.value.tipoDispositivo, "TAG"))
  {
    var rows := Select(table, GateRowsWithNumber(n));
    if rows != [] {
      assert rows[0] in rows;
      GateWithNumberMaps(rows[0], n);
    }
  }

  lemma GateWithNumberMaps(row: JsValue, n: real)
    requires GateRowsWithNumber(n)(row)
    ensures var g := MapGateRow(row);
      g.numeroDispositivo == n && g.ativo == "S" && Contains(g.tipoDispositivo, "TAG")
  {
    TrimOfNoSpace("S");
    ListedGateIsTag(row);
  }

  /** A door row the listing selects maps to an active door. */
  lemma ListedDoorIsActive(row: JsValue)
    requires ListedDoor(row)
    ensures MapDoorRow(row).ativo == "S"
  {
    TrimOfNoSpace("S");
  }

  /** A gate row the listing selects maps to a TAG gate. */
  lemma ListedGateIsTag(row: JsValue)
    requires TagGate(row)
    ensures Contains(MapGateRow(row).tipoDispositivo, "TAG")
  {
    TrimKeepsTag(Get(row, "TIPODISPOSITIVO").s);
  }

  /** Every door listed from the table is active. */
  lemma ListedDoorsActive(table: seq<JsValue>)
    ensures var doors := ListAvailableDoors(Arr(Select(table, DoorRows())));
      forall i :: 0 <= i < |doors| ==> doors[i].ativo == "S"
  {
    var rows := Select(table, DoorRows());
    forall i | 0 <= i < |rows| ensures MapDoorRow(rows[i]).ativo == "S" {
      assert rows[i] in rows;
      ListedDoorIsActive(rows[i]);
    }
  }

  /** Every gate listed from the table is a TAG gate. */
  lemma ListedGatesTagged(table: seq<JsValue>)
    ensures var gates := ListAvailableGates(Arr(Select(table, GateRows())));
      forall i :: 0 <= i < |gates| ==> Contains(gates[i].tipoDispositivo, "TAG")
  {
    var rows := Select(table, GateRows());
    forall i | 0 <= i < |rows| ensures Contains(MapGateRow(rows[i]).tipoDispositivo, "TAG") {
      assert rows[i] in rows;
      ListedGateIsTag(rows[i]);
    }
  }

  /** Trimming never removes an inner `TAG`. */
  lemma TrimKeepsTag(s: string)
    requires Contains(s, "TAG")
    ensures Contains(Trim(s), "TAG")
  {
    var p := TagAt(s);
    TrimShape(s);
    var i, j :| 0 <= i <= j <= |s| && Trim(s) == s[i..j] && AllSpace(s[..i]) && AllSpace(s[j..]);
    TagBetweenSpaces(s, i, j, p);
    TagInWindow(s, i, j, p);
  }

  lemma TagBetweenSpaces(s: string, i: nat, j: nat, p: nat)
    requires i <= j <= |s| && AllSpace(s[..i]) && AllSpace(s[j..])
    requires p + 3 <= |s| && s[p..p + 3] == "TAG"
    ensures i <= p && p + 3 <= j
  {
    assert s[p] == 'T' && s[p + 2] == 'G';
    forall k | 0 <= k < i ensures IsSpace(s[k]) {
      assert s[..i][k] == s[k];
    }
    forall k | j <= k < |s| ensures IsSpace(s[k]) {
      assert s[j..][k - j] == s[k];
    }
  }

  lemma TagInWindow(s: string, i: nat, j: nat, p: nat)
    requires i <= p && p + 3 <= j <= |s| && s[p..p + 3] == "TAG"
    ensures Contains(s[i..j], "TAG")
  {
    var w := s[i..j];
    assert w[p - i] == s[p] && w[p - i + 1] == s[p + 1] && w[p - i + 2] == s[p + 2];
    assert s[p] == 'T' && s[p + 1] == 'A' && s[p + 2] == 'G';
    assert w[p - i..p - i + 3] == "TAG";
    ContainsAtIndex(w, "TAG", p - i);
  }

  /** Where `TAG` occurs first. */
  function TagAt(s: string): (i: nat)
    requires Contains(s, "TAG")
    ensures i + 3 <= |s| && s[i..i + 3] == "TAG"
  {
    if StartsWith(s, "TAG") then 0 else TagAt(s[1..]) + 1
  }

  lemma {:induction false} ContainsAtIndex(s: string, part: string, i: nat)
    requires i + |part| <= |s| && s[i..i + |part|] == part
    ensures Contains(s, part)
    decreases i
  {
    if i > 0 {
      assert s[1..][i - 1..i - 1 + |part|] == part;
      ContainsAtIndex(s[1..], part, i - 1);
    }
  }
}
