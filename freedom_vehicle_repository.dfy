/** The copy of the lock sweep used by the freedom routes. It builds the
  * same list as the legacy vehicle repository and issues the same updates,
  * except that it writes the tag as `String(TAG).trim()`, so a row whose
  * ID2 is null is locked as `nullB` rather than `B`. */
module FreedomVehicleRepository {
  import opened Wrappers
  import opened JsText
  import opened Lists
  import opened VehicleRepository

  /** `setLockVehicleByData` of the freedom routes. */
  method LockInactive(table: AccessTable, recent: seq<int>, people: seq<PersonRow>) returns (result: seq<LockedItem>)
    modifies table
    ensures result == LockList(old(table.rows), recent, people)
    ensures table.rows == ApplyUpdates(old(table.rows), result, TextForNull)
  {
    result := table.LockInactive(recent, people, TextForNull);
  }

  /** `String(null).trim()` is `null`: a row with no tag is locked as
    * `nullB`. */
  lemma NullTagBecomesNullB()
    ensures NewTag(TextForNull, None) == "nullB"
  {
    assert Trim("null") == "null" by { TrimOfNoSpace("null"); }
  }

  /** The two copies write the same ID2 for every row that has a tag, and
    * differ only on rows without one. */
  lemma CopiesDifferOnlyOnNull(tag: Option<string>)
    ensures NewTag(TextForNull, tag) == NewTag(EmptyForNull, tag) <==> tag.Some?
  {
    if tag.None? {
      NullTagBecomesNullB();
      NullTagBecomesB();
    }
  }

  /** On a table with distinct numbers, the freedom sweep turns an untagged
    * row not seen lately into `nullB`. */
  lemma SweepWritesNullB(rows: seq<AccessRow>, recent: seq<int>, people: seq<PersonRow>, k: int)
    requires Distinct(rows, RowId)
    requires 0 <= k < |rows| && !(rows[k].id in recent) && rows[k].id2 == None
    ensures ApplyUpdates(rows, LockList(rows, recent, people), TextForNull)[k].id2 == Some("nullB")
  {
    LockMarksInactive(rows, recent, people, TextForNull);
    NullTagBecomesNullB();
  }
}
