/** The per-user settings files: one JSON document per user, holding the
  * time of the last update and a flat map from setting names to string
  * values. The directory is a map from file names to contents, with the
  * same file naming as the push subscriptions. */
module UserSettingsRepository {
  import opened Wrappers
  import opened JsValues
  import Subscriptions = PushSubscriptionRepository

  datatype Settings = Settings(user: string, updatedAt: int, items: map<string, string>)

  /** The string-valued entries of an object; the others are dropped. */
  function StringEntries(m: map<string, JsValue>): (r: map<string, string>)
    ensures forall k :: k in r <==> k in m && m[k].Str?
    ensures forall k :: k in r ==> r[k] == m[k].s
  {
    map k | k in m && m[k].Str? :: m[k].s
  }

  /** The loop over `Object.entries(rawItems)` that copies the string
    * values. */
  method KeepStrings(raw: map<string, JsValue>) returns (items: map<string, string>)
    ensures items == StringEntries(raw)
  {
    items := map[];
    var rest := raw.Keys;
    while rest != {}
      invariant rest <= raw.Keys
      invariant items == map k | k in raw.Keys - rest && raw[k].Str? :: raw[k].s
      decreases rest
    {
      var k :| k in rest;
      if raw[k].Str? {
        items := items[k := raw[k].s];
      }
      rest := rest - {k};
    }
  }

  /** A positive finite number, truncated; otherwise `fallback`. */
  function PositiveTrunc(v: JsValue, fallback: int): (r: int)
    ensures v.Number? && v.n.Finite? && v.n.r > 0.0 ==> r as real <= v.n.r < r as real + 1.0
    ensures !(v.Number? && v.n.Finite? && v.n.r > 0.0) ==> r == fallback
    ensures r >= 0 || r == fallback
  {
    if v.Number? && v.n.Finite? && v.n.r > 0.0 then Trunc(v.n.r) else fallback
  }

  /** `normalizeStoredData`: nothing for a value that is not an object;
    * otherwise a non-negative update time (0 unless a positive number was
    * stored) and the string-valued items. */
  function StoredSettings(user: string, value: JsValue): (r: Option<Settings>)
    ensures r.Some? <==> value.Obj?
    ensures r.Some? ==> r.value.user == user && r.value.updatedAt >= 0
    ensures r.Some? && !Get(value, "items").Obj? ==> r.value.items == map[]
    ensures r.Some? && Get(value, "items").Obj? ==> r.value.items == StringEntries(Get(value, "items").fields)
  {
    if !value.Obj? then None
    else
      var rawItems := Get(value, "items");
      Some(Settings(user, PositiveTrunc(Get(value, "updatedAt"), 0),
        if rawItems.Obj? then StringEntries(rawItems.fields) else map[]))
  }

  method NormalizeStoredData(user: string, value: JsValue) returns (r: Option<Settings>)
    ensures r == StoredSettings(user, value)
  {
    if !value.Obj? {
      return None;
    }
    var rawItems := Get(value, "items");
    var items: map<string, string> := map[];
    if rawItems.Obj? {
      items := KeepStrings(rawItems.fields);
    }
    r := Some(Settings(user, PositiveTrunc(Get(value, "updatedAt"), 0), items));
  }

  /** `readUserSettings`: no file, or a file that is not an object, reads
    * as no settings; unreadable JSON is an error. */
  function ReadSettings(files: map<string, Subscriptions.FileContent>, user: string): (r: Result<Option<Settings>, string>)
    ensures Subscriptions.FileName(user) !in files ==> r == Ok(None)
    ensures r.Err? <==> Subscriptions.FileName(user) in files && files[Subscriptions.FileName(user)].Corrupt?
    ensures r.Ok? && r.value.Some? ==> r.value.value.user == user && r.value.value.updatedAt >= 0
  {
    var name := Subscriptions.FileName(user);
    if name !in files then Ok(None)
    else match files[name]
      case Corrupt => Err(Subscriptions.Unreadable)
      case Json(v) => Ok(StoredSettings(user, v))
  }

  /** The JSON document written for a user. */
  function Encode(s: Settings): JsValue
  {
    Obj(map["user" := Str(s.user), "updatedAt" := Subscriptions.IntValue(s.updatedAt),
            "items" := Obj(map k | k in s.items :: Str(s.items[k]))])
  }

  /** The payload `writeUserSettings` stores: the given update time,
    * truncated, when it is a positive finite number, else the current
    * time. */
  function Payload(user: string, updatedAt: Num, items: map<string, string>, now: int): (s: Settings)
    ensures s.user == user && s.items == items
    ensures updatedAt.Finite? && updatedAt.r > 0.0 ==> s.updatedAt as real <= updatedAt.r < s.updatedAt as real + 1.0
    ensures !(updatedAt.Finite? && updatedAt.r > 0.0) ==> s.updatedAt == now
  {
    Settings(user, PositiveTrunc(Number(updatedAt), now), items)
  }

  /** What is written is read back, as long as the update time is not
    * negative. */
  lemma ReadAfterWrite(files: map<string, Subscriptions.FileContent>, s: Settings)
    requires s.updatedAt >= 0
    ensures ReadSettings(files[Subscriptions.FileName(s.user) := Subscriptions.Json(Encode(s))], s.user) == Ok(Some(s))
  {
    var v := Encode(s);
    assert Get(v, "updatedAt") == Subscriptions.IntValue(s.updatedAt);
    assert Get(v, "items") == Obj(map k | k in s.items :: Str(s.items[k]));
    var back := StringEntries(Get(v, "items").fields);
    assert back == s.items by {
      assert back.Keys == s.items.Keys;
    }
    assert PositiveTrunc(Subscriptions.IntValue(s.updatedAt), 0) == s.updatedAt;
  }

  /** The settings directory. */
  class SettingsStore {
    var files: map<string, Subscriptions.FileContent>

    constructor (files: map<string, Subscriptions.FileContent>)
      ensures this.files == files
    {
      this.files := files;
    }

    method ReadUserSettings(user: string) returns (r: Result<Option<Settings>, string>)
      ensures r == ReadSettings(files, user)
    {
      var name := Subscriptions.FileName(user);
      if name !in files {
        return Ok(None);
      }
      match files[name] {
        case Corrupt => r := Err(Subscriptions.Unreadable);
        case Json(v) =>
          var s := NormalizeStoredData(user, v);
          r := Ok(s);
      }
    }

    /** `writeUserSettings`: the payload replaces the user's file. */
    method WriteUserSettings(user: string, updatedAt: Num, items: map<string, string>, now: int) returns (s: Settings)
      modifies this
      ensures s == Payload(user, updatedAt, items, now)
      ensures files == old(files)[Subscriptions.FileName(user) := Subscriptions.Json(Encode(s))]
    {
      s := Settings(user, PositiveTrunc(Number(updatedAt), now), items);
      files := files[Subscriptions.FileName(user) := Subscriptions.Json(Encode(s))];
    }
  }
}
