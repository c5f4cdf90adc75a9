/** The access-lock part of the legacy vehicle repository: block or unblock
  * every access row of a vehicle, and the sweep that marks the tag of every
  * access row not seen at a TAG reader lately with a trailing `B`.
  *
  * The sweep's two reads are inputs: the numbers of the access rows seen
  * with a tag since the cut-off date (`recent`, what the CIRCULACAODISP
  * query returns) and the person table (`people`), which the sweep filters
  * to the persons it needs. */
module VehicleRepository {
  import opened Wrappers
  import opened JsText
  import opened JsValues
  import opened Lists

  /** A row of IDACESSO: its number (SEQUENCIA), its second identifier
    * (ID2), its person (SEQPESSOA), its vehicle (VEICULO) and its usage
    * (TIPOUSO). */
  datatype AccessRow = AccessRow(id: int, id2: Option<string>, person: Option<int>, vehicle: Option<real>, usage: Option<string>)

  function RowId(a: AccessRow): int { a.id }

  /** A row of PESSOAS. */
  datatype PersonRow = PersonRow(id: int, name: string)

  /** What the sweep returns for each access row it locks. */
  datatype LockedItem = LockedItem(id: int, tag: Option<string>, person: Option<int>, name: string)

  function ItemId(it: LockedItem): int { it.id }

  const NotFoundName := "NÃO ENCONTRADO"

  // ------------------------------------------------------ block and unblock

  /** The rows of vehicle `n`, as `WHERE VEICULO = ?` with `Number(id)`
    * selects them. */
  predicate OfVehicle(a: AccessRow, n: Num)
  {
    n.Finite? && a.vehicle == Some(n.r)
  }

  /** `UPDATE IDACESSO SET TIPOUSO = ? WHERE VEICULO = ?`. */
  function SetUsage(xs: seq<AccessRow>, n: Num, usage: string): (r: seq<AccessRow>)
    ensures |r| == |xs|
    ensures forall i :: 0 <= i < |xs| ==> r[i] == if OfVehicle(xs[i], n) then xs[i].(usage := Some(usage)) else xs[i]
  {
    seq(|xs|, i requires 0 <= i < |xs| => if OfVehicle(xs[i], n) then xs[i].(usage := Some(usage)) else xs[i])
  }

  /** Blocking twice is blocking once, and unblocking after blocking is
    * unblocking alone: the last write to a vehicle's rows wins. */
  lemma LastUsageWins(xs: seq<AccessRow>, n: Num, first: string, second: string)
    ensures SetUsage(SetUsage(xs, n, first), n, second) == SetUsage(xs, n, second)
  {
  }

  /** After blocking, every row of the vehicle is blocked and every other
    * row is as it was. */
  lemma LockBlocksVehicle(xs: seq<AccessRow>, id: JsValue)
    ensures var ys := SetUsage(xs, NumberOf(id), "B");
      && (forall i :: 0 <= i < |ys| && OfVehicle(xs[i], NumberOf(id)) ==> ys[i].usage == Some("B"))
      && (forall i :: 0 <= i < |ys| && !OfVehicle(xs[i], NumberOf(id)) ==> ys[i] == xs[i])
  {
  }

  // ----------------------------------------------------------- the sweep

  /** The test of step 3: the row's number is not among the recent ones. */
  function NotRecent(recent: seq<int>): AccessRow -> bool { (a: AccessRow) => !(a.id in recent) }

  /** The access rows not seen with a tag lately, in table order. */
  function Inactive(rows: seq<AccessRow>, recent: seq<int>): (r: seq<AccessRow>)
    ensures forall a :: a in r <==> a in rows && !(a.id in recent)
  {
    Select(rows, NotRecent(recent))
  }

  /** The selection keeps table order: the inactive rows of two stretches
    * of the table are those of the first followed by those of the second. */
  lemma InactiveInOrder(xs: seq<AccessRow>, ys: seq<AccessRow>, recent: seq<int>)
    ensures Inactive(xs + ys, recent) == Inactive(xs, recent) + Inactive(ys, recent)
  {
    SelectAppend(xs, ys, NotRecent(recent));
  }

  /** `inactiveAccesses.map(a => a.SEQPESSOA)`. */
  function PersonsOf(rows: seq<AccessRow>): (r: seq<Option<int>>)
    ensures |r| == |rows| && forall i :: 0 <= i < |rows| ==> r[i] == rows[i].person
  {
    seq(|rows|, i requires 0 <= i < |rows| => rows[i].person)
  }

  /** `WHERE SEQUENCIA IN (...)`: a null in the list matches nothing. */
  function InIds(ids: seq<Option<int>>): PersonRow -> bool { (p: PersonRow) => Some(p.id) in ids }

  /** `p.SEQUENCIA === access.SEQPESSOA`. */
  function IsPerson(person: Option<int>): PersonRow -> bool { (p: PersonRow) => Some(p.id) == person }

  /** The name of the first person found, or the fixed placeholder. */
  function NameOf(found: seq<PersonRow>, person: Option<int>): string
  {
    match Find(found, IsPerson(person))
    case None => NotFoundName
    case Some(p) => p.name
  }

  /** The item of step 6 for one access row. */
  function ItemOf(a: AccessRow, found: seq<PersonRow>): LockedItem
  {
    LockedItem(a.id, a.id2, a.person, NameOf(found, a.person))
  }

  function Items(inactive: seq<AccessRow>, found: seq<PersonRow>): (r: seq<LockedItem>)
    ensures |r| == |inactive| && forall i :: 0 <= i < |inactive| ==> r[i] == ItemOf(inactive[i], found)
  {
    seq(|inactive|, i requires 0 <= i < |inactive| => ItemOf(inactive[i], found))
  }

  /** Steps 1 to 6 of `setLockVehicleByData`: the list it returns. */
  function LockList(rows: seq<AccessRow>, recent: seq<int>, people: seq<PersonRow>): seq<LockedItem>
  {
    var inactive := Inactive(rows, recent);
    var ids := Dedup(PersonsOf(inactive));
    if ids == [] then [] else Items(inactive, Select(people, InIds(ids)))
  }

  /** How a missing tag is written before the `B`: the empty string here,
    * the text `null` in the copy of the freedom routes. */
  datatype TagRule = EmptyForNull | TextForNull

  /** The ID2 written for a locked row: its tag, trimmed, then `B`. */
  function NewTag(rule: TagRule, tag: Option<string>): (r: string)
    ensures |r| >= 1 && r[|r| - 1] == 'B'
  {
    var text := match tag case Some(s) => s case None => if rule == EmptyForNull then "" else "null";
    Trim(text) + "B"
  }

  /** A tag with no surrounding blanks gets the `B` appended as it is. */
  lemma NewTagOfTrimmed(rule: TagRule, s: string)
    requires Trim(s) == s
    ensures NewTag(rule, Some(s)) == s + "B"
  {
  }

  /** `String(item.TAG ?? '').trim()`: a missing tag is locked as `B`. */
  lemma NullTagBecomesB()
    ensures NewTag(EmptyForNull, None) == "B"
  {
    assert Trim("") == "";
  }

  /** `UPDATE IDACESSO SET ID2 = ? WHERE SEQUENCIA = ?`. */
  function UpdateId2(xs: seq<AccessRow>, id: int, tag: string): (r: seq<AccessRow>)
    ensures |r| == |xs|
    ensures forall i :: 0 <= i < |xs| ==> r[i] == if xs[i].id == id then xs[i].(id2 := Some(tag)) else xs[i]
  {
    seq(|xs|, i requires 0 <= i < |xs| => if xs[i].id == id then xs[i].(id2 := Some(tag)) else xs[i])
  }

  /** The table after step 7 has issued the updates for `items`, in order. */
  function ApplyUpdates(xs: seq<AccessRow>, items: seq<LockedItem>, rule: TagRule): (r: seq<AccessRow>)
    ensures |r| == |xs| && forall k :: 0 <= k < |xs| ==> r[k].id == xs[k].id
  {
    if items == [] then xs
    else
      var last := items[|items| - 1];
      UpdateId2(ApplyUpdates(xs, items[..|items| - 1], rule), last.id, NewTag(rule, last.tag))
  }

  function HasId(id: int): LockedItem -> bool { (it: LockedItem) => it.id == id }

  /** With distinct item numbers, a row ends up with the tag of the item
    * bearing its number, if there is one, and untouched otherwise. */
  lemma {:induction false} ApplyUpdatesAt(xs: seq<AccessRow>, items: seq<LockedItem>, rule: TagRule, k: int)
    requires Distinct(items, ItemId) && 0 <= k < |xs|
    ensures ApplyUpdates(xs, items, rule)[k] ==
      match Find(items, HasId(xs[k].id))
      case None => xs[k]
      case Some(it) => xs[k].(id2 := Some(NewTag(rule, it.tag)))
  {
    if items != [] {
      var init := items[..|items| - 1];
      var last := items[|items| - 1];
      assert items == init + [last];
      assert Distinct(init, ItemId) by {
        forall i, j | 0 <= i < j < |init| ensures ItemId(init[i]) != ItemId(init[j]) {
          assert init[i] == items[i] && init[j] == items[j];
        }
      }
      ApplyUpdatesAt(xs, init, rule, k);
      var keep := HasId(xs[k].id);
      if keep(last) {
        forall i | 0 <= i < |init| ensures !keep(init[i]) {
          assert init[i] == items[i];
          assert ItemId(items[i]) != ItemId(items[|items| - 1]);
        }
        FindAppend(init, [last], keep);
        assert Find([last], keep) == Some(last);
      } else {
        FindSkipLast(init, last, keep);
      }
    }
  }

  /** The list is empty, and nothing is written, exactly when every access
    * row was seen lately. */
  lemma LockListEmpty(rows: seq<AccessRow>, recent: seq<int>, people: seq<PersonRow>, rule: TagRule)
    ensures LockList(rows, recent, people) == [] <==> forall a :: a in rows ==> a.id in recent
    ensures LockList(rows, recent, people) == [] ==> ApplyUpdates(rows, [], rule) == rows
  {
    var inactive := Inactive(rows, recent);
    if inactive != [] {
      assert PersonsOf(inactive)[0] in PersonsOf(inactive);
      assert inactive[0] in inactive;
    }
  }

  /** Each item is the inactive row at the same place, named after the
    * first person in the table with the row's person number, or the
    * placeholder when there is none. */
  lemma LockListItems(rows: seq<AccessRow>, recent: seq<int>, people: seq<PersonRow>)
    ensures var inactive := Inactive(rows, recent);
      var items := LockList(rows, recent, people);
      && |items| == |inactive|
      && forall i :: 0 <= i < |items| ==>
           && items[i].id == inactive[i].id && items[i].tag == inactive[i].id2 && items[i].person == inactive[i].person
           && items[i].name == NameOf(people, inactive[i].person)
  {
    var inactive := Inactive(rows, recent);
    var persons := PersonsOf(inactive);
    var ids := Dedup(persons);
    if |inactive| > 0 {
      assert persons[0] in persons;
      forall i | 0 <= i < |inactive| ensures NameOf(Select(people, InIds(ids)), inactive[i].person) == NameOf(people, inactive[i].person) {
        var person := inactive[i].person;
        assert person == persons[i] && person in ids;
        forall j | 0 <= j < |people| && IsPerson(person)(people[j]) ensures InIds(ids)(people[j]) {
        }
        FindOfSelect(people, InIds(ids), IsPerson(person));
      }
    }
  }

  /** The sweep locks exactly the rows not seen lately: on a table whose
    * numbers are distinct, each of them gets its own tag, trimmed, with a
    * `B` after it, and every other row is left as it was. */
  lemma LockMarksInactive(rows: seq<AccessRow>, recent: seq<int>, people: seq<PersonRow>, rule: TagRule)
    requires Distinct(rows, RowId)
    ensures var after := ApplyUpdates(rows, LockList(rows, recent, people), rule);
      && |after| == |rows|
      && forall k :: 0 <= k < |rows| ==>
           after[k] == if rows[k].id in recent then rows[k] else rows[k].(id2 := Some(NewTag(rule, rows[k].id2)))
  {
    var items := LockList(rows, recent, people);
    var inactive := Inactive(rows, recent);
    LockListItems(rows, recent, people);
    SelectKeepsDistinct(rows, RowId, NotRecent(recent));
    assert Distinct(items, ItemId) by {
      forall i, j | 0 <= i < j < |items| ensures ItemId(items[i]) != ItemId(items[j]) {
        assert RowId(inactive[i]) != RowId(inactive[j]);
      }
    }
    forall k | 0 <= k < |rows|
      ensures ApplyUpdates(rows, items, rule)[k] ==
        if rows[k].id in recent then rows[k] else rows[k].(id2 := Some(NewTag(rule, rows[k].id2)))
    {
      ApplyUpdatesAt(rows, items, rule, k);
      if rows[k].id in recent {
        RecentNotListed(inactive, items, recent, rows[k].id);
      } else {
        InactiveListed(rows, inactive, items, recent, k);
      }
    }
  }

  /** A recent number belongs to no item. */
  lemma RecentNotListed(inactive: seq<AccessRow>, items: seq<LockedItem>, recent: seq<int>, id: int)
    requires forall a :: a in inactive ==> !(a.id in recent)
    requires |items| == |inactive| && forall i :: 0 <= i < |items| ==> items[i].id == inactive[i].id
    requires id in recent
    ensures Find(items, HasId(id)) == None
  {
    forall i | 0 <= i < |items| ensures !HasId(id)(items[i]) {
      assert inactive[i] in inactive;
    }
  }

  /** A row not seen lately is found among the items, as the item made
    * from it. */
  lemma InactiveListed(rows: seq<AccessRow>, inactive: seq<AccessRow>, items: seq<LockedItem>, recent: seq<int>, k: int)
    requires 0 <= k < |rows| && !(rows[k].id in recent)
    requires forall a :: a in inactive <==> a in rows && !(a.id in recent)
    requires Distinct(inactive, RowId)
    requires |items| == |inactive|
    requires forall i :: 0 <= i < |items| ==> items[i].id == inactive[i].id && items[i].tag == inactive[i].id2
    ensures Find(items, HasId(rows[k].id)).Some?
    ensures Find(items, HasId(rows[k].id)).value.tag == rows[k].id2
  {
    assert rows[k] in inactive;
    var i :| 0 <= i < |inactive| && inactive[i] == rows[k];
    forall j | 0 <= j < i ensures !HasId(rows[k].id)(items[j]) {
      assert RowId(inactive[j]) != RowId(inactive[i]);
    }
    FindFirst(items, HasId(rows[k].id), i);
  }

  // -------------------------------------------------------------- the table

  /** The IDACESSO table the repository writes. */
  class AccessTable {
    var rows: seq<AccessRow>

    constructor (rows: seq<AccessRow>)
      ensures this.rows == rows
    {
      this.rows := rows;
    }

    /** `setLockVehicle`: TIPOUSO becomes `B` on every row of the vehicle. */
    method SetLockVehicle(id: JsValue)
      modifies this
      ensures rows == SetUsage(old(rows), NumberOf(id), "B")
    {
      rows := SetUsage(rows, NumberOf(id), "B");
    }

    /** `setUnlockVehicle`: TIPOUSO becomes `N` on every row of the vehicle. */
    method SetUnlockVehicle(id: JsValue)
      modifies this
      ensures rows == SetUsage(old(rows), NumberOf(id), "N")
    {
      rows := SetUsage(rows, NumberOf(id), "N");
    }

    /** `setLockVehicleByData`: build the list, then write each listed row's
      * new ID2, one update per item. */
    method LockInactive(recent: seq<int>, people: seq<PersonRow>, rule: TagRule) returns (result: seq<LockedItem>)
      modifies this
      ensures result == LockList(old(rows), recent, people)
      ensures rows == ApplyUpdates(old(rows), result, rule)
    {
      var inactive := Inactive(rows, recent);
      var ids := Dedup(PersonsOf(inactive));
      if ids == [] {
        return [];
      }
      result := Items(inactive, Select(people, InIds(ids)));
      WriteTags(result, rule);
    }

    /** Step 7: one `UPDATE ... SET ID2` per item, in order. */
    method WriteTags(items: seq<LockedItem>, rule: TagRule)
      modifies this
      ensures rows == ApplyUpdates(old(rows), items, rule)
    {
      var all := rows;
      var i := 0;
      while i < |items|
        invariant 0 <= i <= |items|
        invariant rows == ApplyUpdates(all, items[..i], rule)
      {
        var done := items[..i + 1];
        assert done[..i] == items[..i] && done[i] == items[i];
        rows := UpdateId2(rows, items[i].id, NewTag(rule, items[i].tag));
        i := i + 1;
      }
      assert items[..|items|] == items;
    }
  }
}
