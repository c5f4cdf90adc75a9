/** The tables behind the vehicle and tag routes, VEICULOS (vehicles) and
  * IDACESSO (access credentials), and the transactions on them: create or
  * update a vehicle by plate, link a tag to a vehicle, and remove a
  * vehicle's tag or its owner. A transaction that throws is rolled back, so
  * its own writes are undone; rows other clients commit meanwhile stay.
  *
  * The tables are held in memory in row order; every SELECT, UPDATE,
  * INSERT and DELETE of the transactions is written out as the rows it
  * reads or the rows it changes. */
module VehicleV2Repository {
  import opened Wrappers
  import opened JsText
  import opened JsValues
  import opened Lists
  import opened HttpReplies

  // ---------------------------------------------------------- driver results

  /** `asRows`: what a statement gave back, as a list of rows. */
  function AsRows(value: JsValue): (rows: seq<JsValue>)
    ensures value.Arr? ==> rows == value.items
    ensures !value.Arr? && Truthy(value) ==> rows == [value]
    ensures !value.Arr? && !Truthy(value) ==> rows == []
  {
    if value.Arr? then value.items
    else if !Truthy(value) then []
    else [value]
  }

  /** `firstRow`: the first row, or `null` when there is none. */
  function FirstRow(value: JsValue): (r: JsValue)
  {
    var rows := AsRows(value);
    if rows == [] then Null else Coalesce(rows[0], Null)
  }

  /** A single row is its own first row, a missing result has none, and the
    * answer is never `undefined`. */
  lemma FirstRowCases(value: JsValue)
    ensures FirstRow(value) != Undefined
    ensures Truthy(value) && !value.Arr? ==> FirstRow(value) == value
    ensures !Truthy(value) ==> FirstRow(value) == Null
    ensures value.Arr? && value.items != [] && !IsNullish(value.items[0]) ==> FirstRow(value) == value.items[0]
  {
  }

  /** `isUniqueViolation`: the error message, lower-cased, names a primary or
    * unique key violation or a duplicate. */
  predicate IsUniqueViolation(e: Thrown)
  {
    var m := ToLower(e.message);
    Contains(m, "violation of primary") || Contains(m, "unique key") || Contains(m, "duplicate")
  }

  lemma {:induction false} ContainsInside(pre: string, part: string, post: string)
    ensures Contains(pre + part + post, part)
  {
    var s := pre + part + post;
    if pre == [] {
      assert s[..|part|] == part;
    } else {
      assert s[1..] == pre[1..] + part + post;
      ContainsInside(pre[1..], part, post);
    }
  }

  lemma {:induction false} LowerOfJoin(a: string, b: string, c: string)
    ensures ToLower(a + b + c) == ToLower(a) + ToLower(b) + ToLower(c)
  {
    ToLowerAppend(a + b, c);
    ToLowerAppend(a, b);
  }

  /** The markers are found whatever their case and wherever they stand in
    * the message. */
  lemma UniqueViolationAnyCase(status: nat, pre: string, word: string, post: string)
    requires ToLower(word) == "violation of primary" || ToLower(word) == "unique key" || ToLower(word) == "duplicate"
    ensures IsUniqueViolation(Thrown(status, pre + word + post))
  {
    LowerOfJoin(pre, word, post);
    ContainsInside(ToLower(pre), ToLower(word), ToLower(post));
  }

  // ------------------------------------------------------------------ tables

  /** A row of VEICULOS. */
  datatype Vehicle = Vehicle(
    id: int, plate: string, brand: Option<string>, model: Option<string>, color: Option<string>,
    unitSeq: Option<real>, ownerSeq: Option<real>, tag: Option<string>)

  /** A row of IDACESSO: ID and ID2 are the credential codes, TIPO, PANICO
    * and TIPOUSO its flags, VEICULO the vehicle it opens for. The change
    * stamps the database keeps itself are not modelled. */
  datatype Access = Access(
    id: int, personSeq: Option<real>, code: Option<string>, code2: Option<string>,
    kind: Option<string>, panic: Option<string>, vehicleSeq: Option<real>,
    user: Option<string>, usage: Option<string>)

  /** Both tables and the generators that number new rows. */
  datatype Tables = Tables(vehicles: seq<Vehicle>, accesses: seq<Access>, nextVehicleId: int, nextAccessId: int)

  /** The access table's primary key: distinct numbers, all below the
    * generator's next value. */
  predicate Valid(t: Tables)
  {
    && Distinct(t.accesses, Id)
    && (forall i :: 0 <= i < |t.accesses| ==> t.accesses[i].id < t.nextAccessId)
  }

  /** The primary key of an access row. */
  function Id(a: Access): int { a.id }

  // The row tests of the WHERE clauses.

  function Numbered(n: real): Vehicle -> bool { (v: Vehicle) => v.id as real == n }

  function Plated(plate: string): Vehicle -> bool { (v: Vehicle) => v.plate == plate }

  function ForVehicle(n: real): Access -> bool { (a: Access) => a.vehicleSeq == Some(n) }

  function NotForVehicle(n: real): Access -> bool { (a: Access) => a.vehicleSeq != Some(n) }

  /** `WHERE v.SEQUENCIA = ?`, first row. */
  function VehicleNumbered(vs: seq<Vehicle>, n: real): (r: Option<Vehicle>)
  {
    Find(vs, Numbered(n))
  }

  /** `WHERE v.PLACA = ?`, first row. */
  function VehicleWithPlate(vs: seq<Vehicle>, plate: string): (r: Option<Vehicle>)
  {
    Find(vs, Plated(plate))
  }

  /** `WHERE i.VEICULO = ?`: the vehicle's access rows, in table order. */
  function AccessesOf(xs: seq<Access>, n: real): (r: seq<Access>)
  {
    Select(xs, ForVehicle(n))
  }

  /** The access rows of other vehicles, or of none. */
  function WithoutVehicle(xs: seq<Access>, n: real): (r: seq<Access>)
  {
    Select(xs, NotForVehicle(n))
  }

  /** The row `ORDER BY i.SEQUENCIA DESC` puts first. */
  function Newest(rows: seq<Access>): (r: Option<Access>)
    ensures r.None? <==> rows == []
    ensures r.Some? ==> r.value in rows && forall i :: 0 <= i < |rows| ==> rows[i].id <= r.value.id
  {
    if rows == [] then None
    else
      match Newest(rows[1..])
      case None => Some(rows[0])
      case Some(b) => if b.id > rows[0].id then Some(b) else Some(rows[0])
  }

  /** Among rows with distinct numbers, the row with the highest number is
    * the newest. */
  lemma NewestIs(rows: seq<Access>, x: Access)
    requires Distinct(rows, Id)
    requires x in rows && forall i :: 0 <= i < |rows| ==> rows[i].id <= x.id
    ensures Newest(rows) == Some(x)
  {
    var r := Newest(rows).value;
    var i :| 0 <= i < |rows| && rows[i] == r;
    var j :| 0 <= j < |rows| && rows[j] == x;
  }

  /** Firebird's `TRIM(COALESCE(x, ''))`: blanks removed at both ends. */
  function SqlTrim(x: Option<string>): string
  {
    match x
    case None => ""
    case Some(s) => DropTrailingBlanks(DropLeadingBlanks(s))
  }

  function DropLeadingBlanks(s: string): string
  {
    if s != [] && s[0] == ' ' then DropLeadingBlanks(s[1..]) else s
  }

  function DropTrailingBlanks(s: string): string
  {
    if s != [] && s[|s| - 1] == ' ' then DropTrailingBlanks(s[..|s| - 1]) else s
  }

  /** The number `COALESCE(i.VEICULO, 0)` compares. */
  function VehicleOrZero(a: Access): real
  {
    match a.vehicleSeq
    case None => 0.0
    case Some(n) => n
  }

  /** Another vehicle carries the tag. */
  predicate TagOnOtherVehicle(vs: seq<Vehicle>, tag: string, n: real)
  {
    exists i :: 0 <= i < |vs| && SqlTrim(vs[i].tag) == tag && vs[i].id as real != n
  }

  /** An access row of another vehicle, or of none, carries the tag as its
    * ID or ID2. */
  predicate TagOnOtherAccess(xs: seq<Access>, tag: string, n: real)
  {
    exists i :: 0 <= i < |xs| && (SqlTrim(xs[i].code) == tag || SqlTrim(xs[i].code2) == tag) && VehicleOrZero(xs[i]) != n
  }

  /** `x?.trim()` where an absent value counts as empty. */
  function Trimmed(x: Option<string>): string
  {
    match x
    case None => ""
    case Some(s) => Trim(s)
  }

  /** The tag a vehicle has now: the first non-empty of its newest access
    * row's ID2, that row's ID, and the vehicle's TAGVEICULO, all trimmed. */
  function CurrentTag(primary: Option<Access>, v: Vehicle): (r: string)
    ensures Trim(r) == r
    ensures primary.Some? && Trimmed(primary.value.code2) != "" ==> r == Trimmed(primary.value.code2)
    ensures primary.Some? && Trimmed(primary.value.code2) == "" && Trimmed(primary.value.code) != "" ==> r == Trimmed(primary.value.code)
    ensures (primary.None? || (Trimmed(primary.value.code2) == "" && Trimmed(primary.value.code) == "")) ==> r == Trimmed(v.tag)
  {
    var second := if primary.Some? then Trimmed(primary.value.code2) else "";
    var first := if primary.Some? then Trimmed(primary.value.code) else "";
    var chosen := if second != "" then second else if first != "" then first else Trimmed(v.tag);
    assert Trim(chosen) == chosen by {
      if second != "" { TrimIdempotent(primary.value.code2.value); }
      else if first != "" { TrimIdempotent(primary.value.code.value); }
      else if v.tag.Some? { TrimIdempotent(v.tag.value); }
    }
    TrimIdempotent(chosen);
    Trim(chosen)
  }

  // -------------------------------------------------------------- link a tag

  /** The arguments of `linkVehicleTag`. */
  datatype LinkRequest = LinkRequest(vehicleSeq: real, ownerSeq: real, tag: string, user: string, forceSwap: bool)

  /** What `linkVehicleTag` reports: the tag is held elsewhere, the vehicle
    * has another tag and the swap was not confirmed, or the tag was linked,
    * replacing another one or not. */
  datatype LinkOutcome = Blocked | RequiresConfirmation(currentTag: string) | Linked | Swapped

  const VehicleNotFound := Thrown(404, "Veiculo nao encontrado.")

  /** The access row the link writes, under number `id`. */
  function LinkedAccess(id: int, q: LinkRequest): Access
  {
    Access(id, Some(q.ownerSeq), Some(q.tag), Some(q.tag), Some("Y"), Some("N"), Some(q.vehicleSeq), Some(q.user), Some("N"))
  }

  /** `UPDATE IDACESSO ... WHERE SEQUENCIA = ?`. */
  function ReplaceAccess(xs: seq<Access>, id: int, row: Access): (r: seq<Access>)
    ensures |r| == |xs|
    ensures forall i :: 0 <= i < |xs| ==> r[i] == if xs[i].id == id then row else xs[i]
  {
    seq(|xs|, i requires 0 <= i < |xs| => if xs[i].id == id then row else xs[i])
  }

  /** `UPDATE VEICULOS SET TAGVEICULO = ? WHERE SEQUENCIA = ?`. */
  function SetTag(vs: seq<Vehicle>, n: real, tag: Option<string>): (r: seq<Vehicle>)
    ensures |r| == |vs|
    ensures forall i :: 0 <= i < |vs| ==> r[i] == if vs[i].id as real == n then vs[i].(tag := tag) else vs[i]
  {
    seq(|vs|, i requires 0 <= i < |vs| => if vs[i].id as real == n then vs[i].(tag := tag) else vs[i])
  }

  /** The access table after the link's write: the newest row of the
    * vehicle rewritten, or a new row when the vehicle has none. */
  function LinkWrite(t: Tables, primary: Option<Access>, q: LinkRequest): Tables
  {
    match primary
    case Some(p) => t.(accesses := ReplaceAccess(t.accesses, p.id, LinkedAccess(p.id, q)))
    case None => t.(accesses := t.accesses + [LinkedAccess(t.nextAccessId, q)], nextAccessId := t.nextAccessId + 1)
  }

  /** `linkVehicleTag`: the outcome and the tables after the transaction. */
  function Link(t: Tables, q: LinkRequest): (Result<LinkOutcome, Thrown>, Tables)
  {
    match VehicleNumbered(t.vehicles, q.vehicleSeq)
    case None => (Err(VehicleNotFound), t)
    case Some(vehicle) =>
      if TagOnOtherVehicle(t.vehicles, q.tag, q.vehicleSeq) || TagOnOtherAccess(t.accesses, q.tag, q.vehicleSeq) then
        (Ok(Blocked), t)
      else Install(t, q, vehicle)
  }

  /** The link once the tag is free: a confirmation is needed to replace a
    * different current tag; otherwise the tag is written. */
  function Install(t: Tables, q: LinkRequest, vehicle: Vehicle): (Result<LinkOutcome, Thrown>, Tables)
  {
    var primary := Newest(AccessesOf(t.accesses, q.vehicleSeq));
    var current := CurrentTag(primary, vehicle);
    if current != "" && current != q.tag && !q.forceSwap then
      (Ok(RequiresConfirmation(current)), t)
    else
      var t1 := LinkWrite(t, primary, q);
      (Ok(if current != "" && current != q.tag then Swapped else Linked),
       t1.(vehicles := SetTag(t1.vehicles, q.vehicleSeq, Some(q.tag))))
  }

  /** Nothing is written unless the tag is linked. */
  lemma LinkWritesOnlyWhenLinked(t: Tables, q: LinkRequest)
    ensures var (r, t2) := Link(t, q); !(r == Ok(Linked) || r == Ok(Swapped)) ==> t2 == t
  {
  }

  /** The decision: an unknown vehicle is a 404; a tag held by another
    * vehicle or by another vehicle's access row blocks the link; a
    * different current tag needs a confirmed swap; a confirmed swap is
    * reported as such. */
  lemma LinkDecision(t: Tables, q: LinkRequest)
    ensures var (r, _) := Link(t, q);
      var vehicle := VehicleNumbered(t.vehicles, q.vehicleSeq);
      var conflict := TagOnOtherVehicle(t.vehicles, q.tag, q.vehicleSeq) || TagOnOtherAccess(t.accesses, q.tag, q.vehicleSeq);
      && (r.Err? <==> vehicle.None?)
      && (r.Err? ==> r.error == VehicleNotFound)
      && (r == Ok(Blocked) <==> vehicle.Some? && conflict)
      && (vehicle.Some? && !conflict ==>
            var current := CurrentTag(Newest(AccessesOf(t.accesses, q.vehicleSeq)), vehicle.value);
            && (r.Ok? && r.value.RequiresConfirmation? <==> current != "" && current != q.tag && !q.forceSwap)
            && (r.Ok? && r.value.RequiresConfirmation? ==> r.value.currentTag == current)
            && (r == Ok(Swapped) <==> current != "" && current != q.tag && q.forceSwap))
  {
  }

  /** The newest row of a vehicle is still its newest after the link
    * rewrites it in place. */
  lemma NewestAfterReplace(xs: seq<Access>, p: Access, q: LinkRequest)
    requires Distinct(xs, Id)
    requires Newest(AccessesOf(xs, q.vehicleSeq)) == Some(p)
    ensures Newest(AccessesOf(ReplaceAccess(xs, p.id, LinkedAccess(p.id, q)), q.vehicleSeq)) == Some(LinkedAccess(p.id, q))
  {
    var keep := ForVehicle(q.vehicleSeq);
    var row := LinkedAccess(p.id, q);
    var ys := ReplaceAccess(xs, p.id, row);
    var rows := Select(ys, keep);
    assert forall i :: 0 <= i < |ys| ==> Id(ys[i]) == Id(xs[i]);
    SelectKeepsDistinct(ys, Id, keep);
    assert p in Select(xs, keep);
    var k :| 0 <= k < |xs| && xs[k] == p;
    assert ys[k] == row && keep(row);
    forall i | 0 <= i < |rows| ensures rows[i].id <= row.id {
      assert rows[i] in ys;
      var j :| 0 <= j < |ys| && ys[j] == rows[i];
      if xs[j].id != p.id {
        assert xs[j] in Select(xs, keep);
      }
    }
    NewestIs(rows, row);
  }

  /** The newest row of a vehicle is the one the link adds when the vehicle
    * had none. */
  lemma NewestAfterInsert(xs: seq<Access>, next: int, q: LinkRequest)
    requires AccessesOf(xs, q.vehicleSeq) == []
    ensures Newest(AccessesOf(xs + [LinkedAccess(next, q)], q.vehicleSeq)) == Some(LinkedAccess(next, q))
  {
    var row := LinkedAccess(next, q);
    SelectLast(xs, row, ForVehicle(q.vehicleSeq));
  }

  /** After a link the vehicle carries the tag and its newest access row
    * is the row the link wrote, holding the tag as ID and ID2. */
  lemma LinkInstallsTag(t: Tables, q: LinkRequest)
    requires Distinct(t.accesses, Id)
    ensures var (r, t2) := Link(t, q);
      r == Ok(Linked) || r == Ok(Swapped) ==>
        && (forall i :: 0 <= i < |t2.vehicles| && t2.vehicles[i].id as real == q.vehicleSeq ==> t2.vehicles[i].tag == Some(q.tag))
        && Newest(AccessesOf(t2.accesses, q.vehicleSeq)).Some?
        && var p := Newest(AccessesOf(t2.accesses, q.vehicleSeq)).value;
           p == LinkedAccess(p.id, q)
  {
    var vehicle := VehicleNumbered(t.vehicles, q.vehicleSeq);
    if vehicle.Some? {
      InstallWritesTag(t, q, vehicle.value);
    }
  }

  /** The write half of `LinkInstallsTag`. */
  lemma InstallWritesTag(t: Tables, q: LinkRequest, vehicle: Vehicle)
    requires Distinct(t.accesses, Id)
    ensures var (r, t2) := Install(t, q, vehicle);
      r == Ok(Linked) || r == Ok(Swapped) ==>
        && (forall i :: 0 <= i < |t2.vehicles| && t2.vehicles[i].id as real == q.vehicleSeq ==> t2.vehicles[i].tag == Some(q.tag))
        && Newest(AccessesOf(t2.accesses, q.vehicleSeq)).Some?
        && var p := Newest(AccessesOf(t2.accesses, q.vehicleSeq)).value;
           p == LinkedAccess(p.id, q)
  {
    var primary := Newest(AccessesOf(t.accesses, q.vehicleSeq));
    if primary.Some? {
      NewestAfterReplace(t.accesses, primary.value, q);
    } else {
      NewestAfterInsert(t.accesses, t.nextAccessId, q);
    }
  }

  /** The row a link writes makes a trimmed, non-empty tag the vehicle's
    * current tag. */
  lemma LinkedRowGivesTag(id: int, q: LinkRequest, v: Vehicle)
    requires q.tag != "" && Trim(q.tag) == q.tag
    ensures CurrentTag(Some(LinkedAccess(id, q)), v) == q.tag
  {
  }

  /** After a link that succeeds, the tag read back for the vehicle is the
    * tag linked. */
  lemma LinkSetsCurrentTag(t: Tables, q: LinkRequest)
    requires Distinct(t.accesses, Id)
    requires q.tag != "" && Trim(q.tag) == q.tag
    ensures var (r, t2) := Link(t, q);
      r == Ok(Linked) || r == Ok(Swapped) ==>
        && Newest(AccessesOf(t2.accesses, q.vehicleSeq)).Some?
        && forall v :: CurrentTag(Newest(AccessesOf(t2.accesses, q.vehicleSeq)), v) == q.tag
  {
    LinkInstallsTag(t, q);
    var (r, t2) := Link(t, q);
    if r == Ok(Linked) || r == Ok(Swapped) {
      var p := Newest(AccessesOf(t2.accesses, q.vehicleSeq)).value;
      forall v ensures CurrentTag(Some(p), v) == q.tag {
        LinkedRowGivesTag(p.id, q, v);
      }
    }
  }

  /** The link's write keeps the access table's key valid: a rewrite keeps
    * the row's number, an insert takes the generator's next one. */
  lemma LinkWriteKeepsValid(t: Tables, primary: Option<Access>, q: LinkRequest)
    requires Valid(t)
    ensures Valid(LinkWrite(t, primary, q))
  {
    var xs := LinkWrite(t, primary, q).accesses;
    if primary.None? {
      assert xs == t.accesses + [LinkedAccess(t.nextAccessId, q)];
      forall i, j | 0 <= i < j < |xs| ensures Id(xs[i]) != Id(xs[j]) {
        if j == |xs| - 1 { assert xs[i] == t.accesses[i]; }
        else { assert xs[i] == t.accesses[i] && xs[j] == t.accesses[j]; }
      }
    } else {
      assert forall i :: 0 <= i < |xs| ==> Id(xs[i]) == Id(t.accesses[i]);
    }
  }

  /** A link keeps the access table's key valid. */
  lemma LinkKeepsValid(t: Tables, q: LinkRequest)
    requires Valid(t)
    ensures Valid(Link(t, q).1)
  {
    LinkWriteKeepsValid(t, Newest(AccessesOf(t.accesses, q.vehicleSeq)), q);
  }

  // ---------------------------------------------------- create or update a car

  /** The vehicle fields `upsertVehicleByPlate` writes. */
  datatype VehicleInput = VehicleInput(
    plate: string, brand: Option<string>, model: Option<string>, color: Option<string>,
    ownerSeq: real, unitSeq: Option<real>)

  /** What the upsert returns: whether a row was created, and the row. */
  datatype Saved = Saved(created: bool, vehicle: Vehicle)

  /** What the database does with the INSERT: the row goes in, or the
    * statement is refused with an error while `committed` are the rows other
    * clients committed in the meantime, which the transaction's later
    * statements see. */
  datatype InsertOutcome = Inserted | Refused(error: Thrown, committed: seq<Vehicle>)

  const UpdatedMissing := Thrown(0, "Falha ao carregar veiculo atualizado.")
  const CreatedMissing := Thrown(0, "Falha ao carregar veiculo criado.")
  const MergedMissing := Thrown(0, "Falha ao carregar veiculo apos conflito de placa.")

  /** A vehicle row with the input's fields written over it. */
  function Amended(v: Vehicle, x: VehicleInput): Vehicle
  {
    v.(brand := x.brand, model := x.model, color := x.color, ownerSeq := Some(x.ownerSeq), unitSeq := x.unitSeq)
  }

  /** `UPDATE VEICULOS SET MARCA, MODELO, COR, PROPRIETARIO, SEQUNIDADE WHERE PLACA = ?`. */
  function AmendPlate(vs: seq<Vehicle>, x: VehicleInput): (r: seq<Vehicle>)
    ensures |r| == |vs|
    ensures forall i :: 0 <= i < |vs| ==> r[i] == if vs[i].plate == x.plate then Amended(vs[i], x) else vs[i]
  {
    seq(|vs|, i requires 0 <= i < |vs| => if vs[i].plate == x.plate then Amended(vs[i], x) else vs[i])
  }

  /** The row the INSERT adds under number `id`. */
  function NewVehicle(id: int, x: VehicleInput): Vehicle
  {
    Vehicle(id, x.plate, x.brand, x.model, x.color, x.unitSeq, Some(x.ownerSeq), None)
  }

  /** Update every row with the plate, then read the first one back. */
  function UpdateAndReread(t: Tables, x: VehicleInput, missing: Thrown): (Result<Saved, Thrown>, Tables)
  {
    var t1 := t.(vehicles := AmendPlate(t.vehicles, x));
    match VehicleWithPlate(t1.vehicles, x.plate)
    case None => (Err(missing), t)
    case Some(v) => (Ok(Saved(false, v)), t1)
  }

  /** `upsertVehicleByPlate`: the outcome and the tables after the
    * transaction. */
  function Upsert(t: Tables, x: VehicleInput, insert: InsertOutcome): (Result<Saved, Thrown>, Tables)
  {
    if VehicleWithPlate(t.vehicles, x.plate).Some? then UpdateAndReread(t, x, UpdatedMissing)
    else
      match insert
      case Inserted =>
        var t1 := t.(vehicles := t.vehicles + [NewVehicle(t.nextVehicleId, x)], nextVehicleId := t.nextVehicleId + 1);
        (match VehicleWithPlate(t1.vehicles, x.plate)
         case None => (Err(CreatedMissing), t)
         case Some(v) => (Ok(Saved(true, v)), t1))
      case Refused(e, committed) =>
        var seen := t.(vehicles := t.vehicles + committed);
        if !IsUniqueViolation(e) then (Err(e), seen)
        else UpdateAndReread(seen, x, MergedMissing)
  }

  /** Updating by plate leaves the first row with that plate first, amended. */
  lemma AmendPlateFirst(vs: seq<Vehicle>, x: VehicleInput)
    ensures VehicleWithPlate(AmendPlate(vs, x), x.plate) ==
      match VehicleWithPlate(vs, x.plate) case None => None case Some(v) => Some(Amended(v, x))
  {
    var keep := Plated(x.plate);
    var ws := AmendPlate(vs, x);
    if VehicleWithPlate(vs, x.plate).Some? {
      var i :| 0 <= i < |vs| && keep(vs[i]) && forall j :: 0 <= j < i ==> !keep(vs[j]) by {
        FirstKeptExists(vs, keep);
      }
      FindFirst(vs, keep, i);
      assert forall j :: 0 <= j < i ==> !keep(ws[j]);
      FindFirst(ws, keep, i);
    } else {
      assert forall j :: 0 <= j < |ws| ==> !keep(ws[j]);
    }
  }

  /** An existing plate is updated and reported as not created; a new plate
    * is inserted under the generator's next number and reported as created;
    * a refused insert is retried as an update only when the error is a
    * unique violation, and then succeeds exactly when a row with the plate
    * was committed meanwhile; any other refusal is passed on. The re-reads
    * after an update or an insert always find the row. */
  lemma UpsertOutcome(t: Tables, x: VehicleInput, insert: InsertOutcome)
    ensures var (r, t2) := Upsert(t, x, insert);
      match VehicleWithPlate(t.vehicles, x.plate)
      case Some(v) =>
        r == Ok(Saved(false, Amended(v, x))) && t2 == t.(vehicles := AmendPlate(t.vehicles, x))
      case None =>
        match insert
        case Inserted =>
          && r == Ok(Saved(true, NewVehicle(t.nextVehicleId, x)))
          && t2 == t.(vehicles := t.vehicles + [NewVehicle(t.nextVehicleId, x)], nextVehicleId := t.nextVehicleId + 1)
        case Refused(e, committed) =>
          && (!IsUniqueViolation(e) ==> r == Err(e) && t2 == t.(vehicles := t.vehicles + committed))
          && (IsUniqueViolation(e) ==>
                match VehicleWithPlate(committed, x.plate)
                case None => r == Err(MergedMissing) && t2 == t.(vehicles := t.vehicles + committed)
                case Some(v) =>
                  r == Ok(Saved(false, Amended(v, x))) && t2 == t.(vehicles := AmendPlate(t.vehicles + committed, x)))
  {
    var keep := Plated(x.plate);
    AmendPlateFirst(t.vehicles, x);
    if VehicleWithPlate(t.vehicles, x.plate).None? {
      match insert
      case Inserted =>
        var v := NewVehicle(t.nextVehicleId, x);
        FindAppend(t.vehicles, [v], keep);
        assert Find([v], keep) == Some(v);
      case Refused(e, committed) =>
        FindAppend(t.vehicles, committed, keep);
        AmendPlateFirst(t.vehicles + committed, x);
    }
  }

  // -------------------------------------------------- remove a tag or an owner

  /** A vehicle row without its tag, and without its owner when unlinked. */
  function Cleared(v: Vehicle, unlinkOwner: bool): Vehicle
  {
    if unlinkOwner then v.(tag := None, ownerSeq := Some(0.0)) else v.(tag := None)
  }

  /** `UPDATE VEICULOS SET TAGVEICULO = NULL [, PROPRIETARIO = 0] WHERE SEQUENCIA = ?`. */
  function ClearVehicle(vs: seq<Vehicle>, n: real, unlinkOwner: bool): (r: seq<Vehicle>)
    ensures |r| == |vs|
    ensures forall i :: 0 <= i < |vs| ==> r[i] == if vs[i].id as real == n then Cleared(vs[i], unlinkOwner) else vs[i]
  {
    seq(|vs|, i requires 0 <= i < |vs| => if vs[i].id as real == n then Cleared(vs[i], unlinkOwner) else vs[i])
  }

  /** `Boolean(vehicle.TAGVEICULO)`. */
  predicate HasTag(v: Vehicle)
  {
    v.tag.Some? && v.tag.value != ""
  }

  /** `deleteTagByVehicleSeq` (and, with `unlinkOwner`,
    * `unlinkOwnerByVehicleSeq`): whether a tag was removed, and the tables
    * after the transaction. */
  function Detach(t: Tables, n: real, unlinkOwner: bool): (Result<bool, Thrown>, Tables)
  {
    match VehicleNumbered(t.vehicles, n)
    case None => (Err(VehicleNotFound), t)
    case Some(v) =>
      (Ok(|AccessesOf(t.accesses, n)| > 0 || HasTag(v)),
       t.(accesses := WithoutVehicle(t.accesses, n), vehicles := ClearVehicle(t.vehicles, n, unlinkOwner)))
  }

  /** After removal the vehicle has no access row; the vehicle row is
    * found where it was, cleared; the result says whether there was an
    * access row or a tag to remove. */
  lemma DetachClears(t: Tables, n: real, unlinkOwner: bool)
    ensures var (r, t2) := Detach(t, n, unlinkOwner);
      r.Ok? ==>
        && AccessesOf(t2.accesses, n) == []
        && VehicleNumbered(t2.vehicles, n) == Some(Cleared(VehicleNumbered(t.vehicles, n).value, unlinkOwner))
        && (r.value <==> AccessesOf(t.accesses, n) != [] || HasTag(VehicleNumbered(t.vehicles, n).value))
  {
    if VehicleNumbered(t.vehicles, n).Some? {
      NoneLeft(t.accesses, n);
      NumberedAfterClear(t.vehicles, n, unlinkOwner);
    }
  }

  /** Once a vehicle's rows are removed, none is left. */
  lemma NoneLeft(xs: seq<Access>, n: real)
    ensures AccessesOf(WithoutVehicle(xs, n), n) == []
  {
    var ys := WithoutVehicle(xs, n);
    forall i | 0 <= i < |ys| ensures !ForVehicle(n)(ys[i]) {
      assert ys[i] in ys;
    }
  }

  /** Clearing a vehicle leaves its row first among the rows with its
    * number. */
  lemma NumberedAfterClear(vs: seq<Vehicle>, n: real, unlinkOwner: bool)
    requires VehicleNumbered(vs, n).Some?
    ensures VehicleNumbered(ClearVehicle(vs, n, unlinkOwner), n) == Some(Cleared(VehicleNumbered(vs, n).value, unlinkOwner))
  {
    var isN := Numbered(n);
    var ws := ClearVehicle(vs, n, unlinkOwner);
    var i :| 0 <= i < |vs| && isN(vs[i]) && forall j :: 0 <= j < i ==> !isN(vs[j]) by {
      FirstKeptExists(vs, isN);
    }
    FindFirst(vs, isN, i);
    assert forall j :: 0 <= j < i ==> ws[j] == vs[j];
    FindFirst(ws, isN, i);
  }

  /** Removing a vehicle's rows again removes nothing. */
  lemma WithoutVehicleTwice(xs: seq<Access>, n: real)
    ensures WithoutVehicle(WithoutVehicle(xs, n), n) == WithoutVehicle(xs, n)
  {
    var ys := WithoutVehicle(xs, n);
    forall k | 0 <= k < |ys| ensures NotForVehicle(n)(ys[k]) {
      assert ys[k] in ys;
    }
    SelectAll(ys, NotForVehicle(n));
  }

  /** Clearing a vehicle again changes nothing. */
  lemma ClearVehicleTwice(vs: seq<Vehicle>, n: real, unlinkOwner: bool)
    ensures ClearVehicle(ClearVehicle(vs, n, unlinkOwner), n, unlinkOwner) == ClearVehicle(vs, n, unlinkOwner)
  {
  }

  /** Removing twice removes nothing more: the second call finds no tag and
    * leaves the tables as the first left them. */
  lemma DetachTwice(t: Tables, n: real, unlinkOwner: bool)
    ensures var (r, t2) := Detach(t, n, unlinkOwner);
      r.Ok? ==> Detach(t2, n, unlinkOwner) == (Ok(false), t2)
  {
    if VehicleNumbered(t.vehicles, n).Some? {
      DetachClears(t, n, unlinkOwner);
      WithoutVehicleTwice(t.accesses, n);
      ClearVehicleTwice(t.vehicles, n, unlinkOwner);
    }
  }

  /** Removal keeps the access table's key valid. */
  lemma DetachKeepsValid(t: Tables, n: real, unlinkOwner: bool)
    requires Valid(t)
    ensures Valid(Detach(t, n, unlinkOwner).1)
  {
    if VehicleNumbered(t.vehicles, n).Some? {
      var ys := WithoutVehicle(t.accesses, n);
      SelectKeepsDistinct(t.accesses, Id, NotForVehicle(n));
      forall i | 0 <= i < |ys| ensures ys[i].id < t.nextAccessId {
        assert ys[i] in t.accesses;
      }
    }
  }

  // ------------------------------------------------------------ the database

  /** The database the transactions run against. */
  class VehicleDb {
    var vehicles: seq<Vehicle>
    var accesses: seq<Access>
    var nextVehicleId: int
    var nextAccessId: int

    function Current(): Tables
      reads this
    {
      Tables(vehicles, accesses, nextVehicleId, nextAccessId)
    }

    constructor (t: Tables)
      ensures Current() == t
    {
      vehicles, accesses := t.vehicles, t.accesses;
      nextVehicleId, nextAccessId := t.nextVehicleId, t.nextAccessId;
    }

    /** `linkVehicleTag`: look the vehicle up, refuse a tag held elsewhere,
      * then decide and write. */
    method LinkVehicleTag(q: LinkRequest) returns (r: Result<LinkOutcome, Thrown>)
      modifies this
      ensures (r, Current()) == Link(old(Current()), q)
    {
      var vehicle := VehicleNumbered(vehicles, q.vehicleSeq);
      if vehicle.None? {
        return Err(VehicleNotFound);
      }
      if TagOnOtherVehicle(vehicles, q.tag, q.vehicleSeq) {
        return Ok(Blocked);
      }
      if TagOnOtherAccess(accesses, q.tag, q.vehicleSeq) {
        return Ok(Blocked);
      }
      r := InstallTag(q, vehicle.value);
    }

    /** The rest of `linkVehicleTag` once no conflict was found: ask for
      * confirmation before replacing another tag, then write the newest
      * access row (or a new one) and the vehicle's tag. */
    method InstallTag(q: LinkRequest, vehicle: Vehicle) returns (r: Result<LinkOutcome, Thrown>)
      modifies this
      ensures (r, Current()) == Install(old(Current()), q, vehicle)
    {
      var primary := Newest(AccessesOf(accesses, q.vehicleSeq));
      var current := CurrentTag(primary, vehicle);
      if current != "" && current != q.tag && !q.forceSwap {
        return Ok(RequiresConfirmation(current));
      }
      if primary.Some? {
        accesses := ReplaceAccess(accesses, primary.value.id, LinkedAccess(primary.value.id, q));
      } else {
        accesses := accesses + [LinkedAccess(nextAccessId, q)];
        nextAccessId := nextAccessId + 1;
      }
      vehicles := SetTag(vehicles, q.vehicleSeq, Some(q.tag));
      r := Ok(if current != "" && current != q.tag then Swapped else Linked);
    }

    /** `upsertVehicleByPlate`: update the row with the plate, or insert one;
      * a refused insert falls back to the update when the error is a unique
      * violation. A throw rolls the transaction's own writes back. */
    method UpsertVehicleByPlate(x: VehicleInput, insert: InsertOutcome) returns (r: Result<Saved, Thrown>)
      modifies this
      ensures (r, Current()) == Upsert(old(Current()), x, insert)
    {
      var existing := VehicleWithPlate(vehicles, x.plate);
      if existing.Some? {
        r := UpdateThenReread(x, UpdatedMissing);
        return;
      }
      match insert {
        case Inserted =>
          var before := vehicles;
          vehicles := vehicles + [NewVehicle(nextVehicleId, x)];
          var inserted := VehicleWithPlate(vehicles, x.plate);
          if inserted.None? {
            vehicles := before;
            return Err(CreatedMissing);
          }
          nextVehicleId := nextVehicleId + 1;
          r := Ok(Saved(true, inserted.value));
        case Refused(e, committed) =>
          vehicles := vehicles + committed;
          if !IsUniqueViolation(e) {
            return Err(e);
          }
          r := UpdateThenReread(x, MergedMissing);
      }
    }

    /** The update by plate and the re-read, undone when the re-read finds
      * nothing. */
    method UpdateThenReread(x: VehicleInput, missing: Thrown) returns (r: Result<Saved, Thrown>)
      modifies this
      ensures (r, Current()) == UpdateAndReread(old(Current()), x, missing)
    {
      var before := vehicles;
      vehicles := AmendPlate(vehicles, x);
      var reread := VehicleWithPlate(vehicles, x.plate);
      if reread.None? {
        vehicles := before;
        return Err(missing);
      }
      r := Ok(Saved(false, reread.value));
    }

    /** `deleteTagByVehicleSeq` and `unlinkOwnerByVehicleSeq`: delete the
      * vehicle's access rows one by one, then clear its tag (and owner). */
    method DetachVehicle(n: real, unlinkOwner: bool) returns (r: Result<bool, Thrown>)
      requires Valid(Current())
      modifies this
      ensures (r, Current()) == Detach(old(Current()), n, unlinkOwner)
    {
      var vehicle := VehicleNumbered(vehicles, n);
      if vehicle.None? {
        return Err(VehicleNotFound);
      }
      var rows := AccessesOf(accesses, n);
      DeleteRows(rows, n);
      vehicles := ClearVehicle(vehicles, n, unlinkOwner);
      r := Ok(|rows| > 0 || HasTag(vehicle.value));
    }

    /** `DELETE FROM IDACESSO WHERE SEQUENCIA = ?` for each of the rows of
      * vehicle `n`, in turn. */
    method DeleteRows(rows: seq<Access>, ghost n: real)
      requires Distinct(accesses, Id)
      requires rows == AccessesOf(accesses, n)
      modifies this
      ensures accesses == WithoutVehicle(old(accesses), n)
      ensures vehicles == old(vehicles) && nextVehicleId == old(nextVehicleId) && nextAccessId == old(nextAccessId)
    {
      ghost var all := accesses;
      assert IdsOf(rows[..0]) == [];
      SelectAll(all, NoneOfIds([]));
      var i := 0;
      while i < |rows|
        invariant 0 <= i <= |rows|
        invariant accesses == WithoutIds(all, IdsOf(rows[..i]))
        invariant vehicles == old(vehicles) && nextVehicleId == old(nextVehicleId) && nextAccessId == old(nextAccessId)
      {
        WithoutIdsStep(all, IdsOf(rows[..i]), rows[i].id);
        IdsOfPrefix(rows, i);
        accesses := WithoutId(accesses, rows[i].id);
        i := i + 1;
      }
      assert rows[..|rows|] == rows;
      DeletedIdsAreVehicleRows(all, n);
    }
  }

  /** The numbers of some rows. */
  function IdsOf(rows: seq<Access>): (r: seq<int>)
    ensures |r| == |rows| && forall i :: 0 <= i < |rows| ==> r[i] == rows[i].id
  {
    seq(|rows|, i requires 0 <= i < |rows| => rows[i].id)
  }

  /** One more row gives one more number. */
  lemma IdsOfPrefix(rows: seq<Access>, i: int)
    requires 0 <= i < |rows|
    ensures IdsOf(rows[..i + 1]) == IdsOf(rows[..i]) + [rows[i].id]
  {
    var a := IdsOf(rows[..i + 1]);
    var b := IdsOf(rows[..i]) + [rows[i].id];
    assert |a| == |b|;
    forall k | 0 <= k < |a| ensures a[k] == b[k] {
      assert rows[..i + 1][k] == rows[k];
    }
  }

  function OtherId(id: int): Access -> bool { (a: Access) => a.id != id }

  function NoneOfIds(ids: seq<int>): Access -> bool { (a: Access) => a.id !in ids }

  /** `DELETE FROM IDACESSO WHERE SEQUENCIA = ?`. */
  function WithoutId(xs: seq<Access>, id: int): seq<Access>
  {
    Select(xs, OtherId(id))
  }

  /** The rows whose number is none of `ids`. */
  function WithoutIds(xs: seq<Access>, ids: seq<int>): seq<Access>
  {
    Select(xs, NoneOfIds(ids))
  }

  /** One more delete removes one more number. */
  lemma WithoutIdsStep(xs: seq<Access>, ids: seq<int>, id: int)
    ensures WithoutId(WithoutIds(xs, ids), id) == WithoutIds(xs, ids + [id])
  {
    SelectSelect(xs, NoneOfIds(ids), OtherId(id), NoneOfIds(ids + [id]));
  }

  /** With distinct numbers, deleting the numbers of a vehicle's rows
    * deletes exactly that vehicle's rows. */
  lemma DeletedIdsAreVehicleRows(xs: seq<Access>, n: real)
    requires Distinct(xs, Id)
    ensures WithoutIds(xs, IdsOf(AccessesOf(xs, n))) == WithoutVehicle(xs, n)
  {
    var rows := AccessesOf(xs, n);
    var ids := IdsOf(rows);
    forall i | 0 <= i < |xs| ensures (xs[i].id !in ids) == (xs[i].vehicleSeq != Some(n)) {
      if xs[i].vehicleSeq == Some(n) {
        assert xs[i] in rows;
        var k :| 0 <= k < |rows| && rows[k] == xs[i];
        assert ids[k] == xs[i].id;
      } else {
        forall k | 0 <= k < |ids| ensures ids[k] != xs[i].id {
          assert rows[k] in xs && rows[k].vehicleSeq == Some(n);
          var j :| 0 <= j < |xs| && xs[j] == rows[k];
          assert j != i;
          assert Id(xs[i]) != Id(xs[j]);
        }
      }
    }
    SelectCongruent(xs, NoneOfIds(ids), NotForVehicle(n));
  }
}
