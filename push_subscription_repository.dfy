/** The web-push subscriptions of each user, kept as one JSON file per user
  * in a storage directory. Reading a file normalises what it holds: items
  * that lack an endpoint or a key are dropped and only the last item per
  * endpoint is kept. Upsert and remove rewrite the whole file.
  *
  * The directory is a map from file name to what the file holds; the clock
  * is a parameter `now` read once per call. */
module PushSubscriptionRepository {
  import opened Wrappers
  import opened JsText
  import opened JsValues
  import opened Lists
  import OrderedMaps

  // -------------------------------------------------------------- file names

  /** The characters `[a-z0-9._-]` a file name keeps. */
  predicate FileNameChar(c: char)
  {
    IsLowerAscii(c) || IsDigit(c) || c == '.' || c == '_' || c == '-'
  }

  /** `sanitizeUserForFile`: trimmed, lower-cased, and every other character
    * replaced by `_`. */
  function SanitizeUserForFile(user: string): (r: string)
    ensures |r| == |Trim(user)|
    ensures forall i :: 0 <= i < |r| ==> FileNameChar(r[i])
    ensures forall i :: 0 <= i < |r| && FileNameChar(LowerChar(Trim(user)[i])) ==> r[i] == LowerChar(Trim(user)[i])
  {
    var t := ToLower(Trim(user));
    seq(|t|, i requires 0 <= i < |t| => if FileNameChar(t[i]) then t[i] else '_')
  }

  /** A sanitised name is its own sanitised name. */
  lemma SanitizeIdempotent(user: string)
    ensures SanitizeUserForFile(SanitizeUserForFile(user)) == SanitizeUserForFile(user)
  {
    var r := SanitizeUserForFile(user);
    assert NoSpace(r) by {
      forall i | 0 <= i < |r| ensures !IsSpace(r[i]) {
        assert FileNameChar(r[i]);
      }
    }
    TrimOfNoSpace(r);
    var r2 := SanitizeUserForFile(r);
    forall i | 0 <= i < |r| ensures r2[i] == r[i] {
      assert FileNameChar(r[i]) && LowerChar(r[i]) == r[i];
    }
  }

  /** The file a user's subscriptions live in. */
  function FileName(user: string): string
  {
    SanitizeUserForFile(user) + ".json"
  }

  // -------------------------------------------------------------- the items

  /** A stored subscription. */
  datatype Stored = Stored(
    endpoint: string, expirationTime: Option<int>, p256dh: string, auth: string,
    createdAt: int, updatedAt: int, ua: Option<string>, platform: Option<string>)

  function Endpoint(x: Stored): string { x.endpoint }

  /** `typeof v === 'string' ? v.trim() : ''`. */
  function TextOrEmpty(v: JsValue): (r: string)
    ensures Trim(r) == r
  {
    if v.Str? then TrimIdempotent(v.s); Trim(v.s) else ""
  }

  /** `typeof v === 'number' && Number.isFinite(v) ? Math.trunc(v) : null`. */
  function FiniteInt(v: JsValue): (r: Option<int>)
    ensures r.Some? <==> v.Number? && v.n.Finite?
  {
    if v.Number? && v.n.Finite? then Some(Trunc(v.n.r)) else None
  }

  /** `typeof v === 'string' && v.trim() ? v.trim() : null`. */
  function NonBlankText(v: JsValue): (r: Option<string>)
    ensures r.Some? ==> r.value != "" && Trim(r.value) == r.value
    ensures r.None? <==> !v.Str? || IsBlank(v.s)
  {
    if v.Str? && Trim(v.s) != "" then TrimIdempotent(v.s); Some(Trim(v.s)) else None
  }

  /** The three fields an item cannot do without. */
  predicate HasEssentials(value: JsValue)
  {
    && value.Obj?
    && TextOrEmpty(Get(value, "endpoint")) != ""
    && Get(value, "keys").Obj?
    && TextOrEmpty(Get(Get(value, "keys"), "p256dh")) != ""
    && TextOrEmpty(Get(Get(value, "keys"), "auth")) != ""
  }

  /** `normalizeItem`: an object with an endpoint and both keys, trimmed;
    * the creation time defaults to now and the update time to the creation
    * time. */
  function NormalizeItem(value: JsValue, now: int): (r: Option<Stored>)
    ensures r.Some? <==> HasEssentials(value)
    ensures r.Some? ==> WellFormedItem(r.value)
    ensures r.Some? && FiniteInt(Get(value, "updatedAt")).None? ==> r.value.updatedAt == r.value.createdAt
    ensures r.Some? && FiniteInt(Get(value, "createdAt")).None? ==> r.value.createdAt == now
  {
    if !HasEssentials(value) then None
    else
      var keys := Get(value, "keys");
      var createdAt := match FiniteInt(Get(value, "createdAt")) case Some(t) => t case None => now;
      var updatedAt := match FiniteInt(Get(value, "updatedAt")) case Some(t) => t case None => createdAt;
      Some(Stored(TextOrEmpty(Get(value, "endpoint")), FiniteInt(Get(value, "expirationTime")),
        TextOrEmpty(Get(keys, "p256dh")), TextOrEmpty(Get(keys, "auth")), createdAt, updatedAt,
        NonBlankText(Get(value, "ua")), NonBlankText(Get(value, "platform"))))
  }

  /** What a normalised item looks like: trimmed non-empty endpoint and
    * keys, and trimmed non-blank agent and platform when present. */
  predicate WellFormedItem(x: Stored)
  {
    && x.endpoint != "" && Trim(x.endpoint) == x.endpoint
    && x.p256dh != "" && Trim(x.p256dh) == x.p256dh
    && x.auth != "" && Trim(x.auth) == x.auth
    && (x.ua.Some? ==> x.ua.value != "" && Trim(x.ua.value) == x.ua.value)
    && (x.platform.Some? ==> x.platform.value != "" && Trim(x.platform.value) == x.platform.value)
  }

  /** The items that survive `normalizeItem`, in order. */
  function NormalizeAll(raws: seq<JsValue>, now: int): (r: seq<Stored>)
    ensures forall x :: x in r ==> WellFormedItem(x)
  {
    if raws == [] then []
    else
      NormalizeAll(raws[..|raws| - 1], now)
        + match NormalizeItem(raws[|raws| - 1], now) case None => [] case Some(x) => [x]
  }

  /** One more raw item adds its normalised form, if any. */
  lemma NormalizeAllStep(raws: seq<JsValue>, i: int, now: int)
    requires 0 <= i < |raws|
    ensures NormalizeAll(raws[..i + 1], now) ==
      NormalizeAll(raws[..i], now) + match NormalizeItem(raws[i], now) case None => [] case Some(x) => [x]
  {
    var seen := raws[..i + 1];
    assert seen[..i] == raws[..i] && seen[i] == raws[i];
  }

  /** The dedup map after `set(item.endpoint, item)` for every item. */
  function ByEndpoint(items: seq<Stored>): OrderedMaps.OrderedMap<Stored>
  {
    if items == [] then OrderedMaps.Empty()
    else
      var last := items[|items| - 1];
      OrderedMaps.Set(ByEndpoint(items[..|items| - 1]), last.endpoint, last)
  }

  lemma ByEndpointStep(items: seq<Stored>, x: Stored)
    ensures ByEndpoint(items + [x]) == OrderedMaps.Set(ByEndpoint(items), x.endpoint, x)
  {
    assert (items + [x])[..|items|] == items;
  }

  /** The last item with an endpoint. */
  function LastWith(items: seq<Stored>, e: string): (r: Option<Stored>)
    ensures r.Some? ==> r.value in items && r.value.endpoint == e
    ensures r.None? <==> forall i :: 0 <= i < |items| ==> items[i].endpoint != e
  {
    if items == [] then None
    else if items[|items| - 1].endpoint == e then Some(items[|items| - 1])
    else
      var r := LastWith(items[..|items| - 1], e);
      assert forall i :: 0 <= i < |items| - 1 ==> items[..|items| - 1][i] == items[i];
      r
  }

  /** Each endpoint maps to the last item with that endpoint. */
  lemma {:induction false} ByEndpointEntries(items: seq<Stored>, e: string)
    ensures OrderedMaps.Get(ByEndpoint(items), e) == LastWith(items, e)
  {
    if items != [] {
      ByEndpointEntries(items[..|items| - 1], e);
    }
  }

  /** The items kept: one per endpoint, in the order each endpoint first
    * appeared. */
  function Deduplicated(items: seq<Stored>): seq<Stored>
  {
    OrderedMaps.Values(ByEndpoint(items))
  }

  /** Each kept item is stored under its own endpoint and is the last item
    * with that endpoint. */
  lemma KeptEntries(items: seq<Stored>)
    ensures var m := ByEndpoint(items);
      forall k :: k in m.keys ==> m.entries[k].endpoint == k && LastWith(items, k) == Some(m.entries[k])
  {
    var m := ByEndpoint(items);
    forall k | k in m.keys ensures m.entries[k].endpoint == k && LastWith(items, k) == Some(m.entries[k]) {
      ByEndpointEntries(items, k);
    }
  }

  /** No endpoint is kept twice. */
  lemma KeptDistinct(items: seq<Stored>)
    ensures Distinct(Deduplicated(items), Endpoint)
  {
    var m := ByEndpoint(items);
    var r := OrderedMaps.Values(m);
    forall i, j | 0 <= i < j < |r| ensures Endpoint(r[i]) != Endpoint(r[j]) {
      OrderedMaps.DistinctAt(m.keys, i, j);
      var ki, kj := m.keys[i], m.keys[j];
      ByEndpointEntries(items, ki);
      ByEndpointEntries(items, kj);
      assert r[i] == m.entries[ki] && m.entries[ki].endpoint == ki;
      assert r[j] == m.entries[kj] && m.entries[kj].endpoint == kj;
    }
  }

  /** Every endpoint present is kept. */
  lemma KeptCovers(items: seq<Stored>)
    ensures forall x :: x in items ==> exists y :: y in Deduplicated(items) && y.endpoint == x.endpoint
  {
    var m := ByEndpoint(items);
    var r := OrderedMaps.Values(m);
    KeptEntries(items);
    forall x | x in items ensures exists y :: y in r && y.endpoint == x.endpoint {
      ByEndpointEntries(items, x.endpoint);
      var i :| 0 <= i < |m.keys| && m.keys[i] == x.endpoint;
      assert r[i] in r;
    }
  }

  /** Some item has endpoint `a` before the first item with endpoint `b`. */
  predicate AppearsBefore(items: seq<Stored>, a: string, b: string)
  {
    forall q :: 0 <= q < |items| && items[q].endpoint == b ==> exists p :: 0 <= p < q && items[p].endpoint == a
  }

  /** An endpoint is a key exactly when some item has it. */
  lemma KeyPresent(items: seq<Stored>, e: string)
    ensures e in ByEndpoint(items).keys <==> exists p :: 0 <= p < |items| && items[p].endpoint == e
  {
    ByEndpointEntries(items, e);
  }

  /** The keys follow the order in which their endpoints first appear: a
    * `Map` keeps the place of a key set again. */
  lemma {:induction false} KeysInFirstOrder(items: seq<Stored>)
    ensures var ks := ByEndpoint(items).keys;
      forall i, j :: 0 <= i < j < |ks| ==> AppearsBefore(items, ks[i], ks[j])
  {
    if items != [] {
      var init := items[..|items| - 1];
      KeysInFirstOrder(init);
      var ks := ByEndpoint(items).keys;
      forall i, j | 0 <= i < j < |ks| ensures AppearsBefore(items, ks[i], ks[j]) {
        FirstOrderStep(items, init, i, j);
      }
    }
  }

  lemma FirstOrderStep(items: seq<Stored>, init: seq<Stored>, i: nat, j: nat)
    requires items != [] && init == items[..|items| - 1]
    requires var ks := ByEndpoint(init).keys;
      forall i, j :: 0 <= i < j < |ks| ==> AppearsBefore(init, ks[i], ks[j])
    requires i < j < |ByEndpoint(items).keys|
    ensures var ks := ByEndpoint(items).keys; AppearsBefore(items, ks[i], ks[j])
  {
    var x := items[|items| - 1];
    var old_ks := ByEndpoint(init).keys;
    var ks := ByEndpoint(items).keys;
    assert ks == old_ks || ks == old_ks + [x.endpoint];
    var a, b := ks[i], ks[j];
    KeyPresent(init, a);
    KeyPresent(init, b);
    if j < |old_ks| {
      assert a == old_ks[i] && b == old_ks[j];
      BeforeCarried(items, init, a, b);
    } else {
      assert a == old_ks[i] && b == x.endpoint && b !in old_ks;
      BeforeNew(items, init, a);
    }
  }

  /** Order already seen among the earlier items survives one more item. */
  lemma BeforeCarried(items: seq<Stored>, init: seq<Stored>, a: string, b: string)
    requires items != [] && init == items[..|items| - 1]
    requires AppearsBefore(init, a, b)
    requires exists q0 :: 0 <= q0 < |init| && init[q0].endpoint == b
    ensures AppearsBefore(items, a, b)
  {
    var n := |items|;
    forall q | 0 <= q < n && items[q].endpoint == b ensures exists p :: 0 <= p < q && items[p].endpoint == a {
      var q0 := if q < n - 1 then q else var q0 :| 0 <= q0 < n - 1 && init[q0].endpoint == b; q0;
      assert init[q0].endpoint == b;
      var p :| 0 <= p < q0 && init[p].endpoint == a;
      assert items[p] == init[p];
    }
  }

  /** An endpoint seen before comes before the endpoint the last item
    * brings first. */
  lemma BeforeNew(items: seq<Stored>, init: seq<Stored>, a: string)
    requires items != [] && init == items[..|items| - 1]
    requires forall q :: 0 <= q < |init| ==> init[q].endpoint != items[|items| - 1].endpoint
    requires exists p :: 0 <= p < |init| && init[p].endpoint == a
    ensures AppearsBefore(items, a, items[|items| - 1].endpoint)
  {
    var n := |items|;
    var p :| 0 <= p < n - 1 && init[p].endpoint == a;
    assert items[p] == init[p];
    assert forall q :: 0 <= q < n - 1 ==> items[q] == init[q];
  }

  /** No endpoint is kept twice, every item kept is the last one with its
    * endpoint, every endpoint present is kept, and the kept items come in
    * the order their endpoints first appeared. */
  lemma DeduplicatedItems(items: seq<Stored>)
    ensures var r := Deduplicated(items);
      && Distinct(r, Endpoint)
      && (forall x :: x in r ==> LastWith(items, x.endpoint) == Some(x))
      && (forall x :: x in items ==> exists y :: y in r && y.endpoint == x.endpoint)
      && (forall i, j :: 0 <= i < j < |r| ==> AppearsBefore(items, r[i].endpoint, r[j].endpoint))
  {
    var m := ByEndpoint(items);
    var r := OrderedMaps.Values(m);
    KeptDistinct(items);
    KeptCovers(items);
    KeptEntries(items);
    KeptInFirstOrder(items);
    forall x | x in r ensures LastWith(items, x.endpoint) == Some(x) {
      var i :| 0 <= i < |r| && r[i] == x;
    }
  }

  lemma KeptInFirstOrder(items: seq<Stored>)
    ensures var r := Deduplicated(items);
      forall i, j :: 0 <= i < j < |r| ==> AppearsBefore(items, r[i].endpoint, r[j].endpoint)
  {
    var m := ByEndpoint(items);
    var r := OrderedMaps.Values(m);
    KeptEntries(items);
    KeysInFirstOrder(items);
    forall i, j | 0 <= i < j < |r| ensures AppearsBefore(items, r[i].endpoint, r[j].endpoint) {
      assert r[i].endpoint == m.keys[i] && r[j].endpoint == m.keys[j];
    }
  }

  /** Dropping the last of items with distinct endpoints leaves distinct
    * endpoints, none of them the last item's. */
  lemma DistinctInit(items: seq<Stored>)
    requires items != [] && Distinct(items, Endpoint)
    ensures Distinct(items[..|items| - 1], Endpoint)
    ensures LastWith(items[..|items| - 1], items[|items| - 1].endpoint).None?
  {
    var init := items[..|items| - 1];
    forall i, j | 0 <= i < j < |init| ensures Endpoint(init[i]) != Endpoint(init[j]) {
      assert init[i] == items[i] && init[j] == items[j];
    }
    forall i | 0 <= i < |init| ensures init[i].endpoint != items[|items| - 1].endpoint {
      assert Endpoint(items[i]) != Endpoint(items[|items| - 1]);
    }
  }

  /** Items with distinct endpoints are kept as they are. */
  lemma {:induction false} DeduplicatedDistinct(items: seq<Stored>)
    requires Distinct(items, Endpoint)
    ensures Deduplicated(items) == items
  {
    if items != [] {
      var init := items[..|items| - 1];
      var last := items[|items| - 1];
      DistinctInit(items);
      DeduplicatedDistinct(init);
      ByEndpointEntries(init, last.endpoint);
      OrderedMaps.ValuesAfterInsert(ByEndpoint(init), last.endpoint, last);
      assert init + [last] == items;
    }
  }

  /** A user's file as read: the user, its update time and its items. */
  datatype Data = Data(user: string, updatedAt: int, items: seq<Stored>)

  /** `normalizeStoredData`: nothing for a value that is not an object;
    * otherwise the update time (0 unless a finite number) and the
    * deduplicated items of the `items` array. */
  function StoredData(user: string, value: JsValue, now: int): (d: Data)
    ensures d.user == user
    ensures !value.Obj? ==> d == Data(user, 0, [])
  {
    if !value.Obj? then Data(user, 0, [])
    else
      var items := Get(value, "items");
      Data(user, match FiniteInt(Get(value, "updatedAt")) case Some(t) => t case None => 0,
        Deduplicated(NormalizeAll(if items.Arr? then items.items else [], now)))
  }

  /** `normalizeStoredData` as written. */
  method NormalizeStoredData(user: string, value: JsValue, now: int) returns (d: Data)
    ensures d == StoredData(user, value, now)
  {
    if !value.Obj? {
      return Data(user, 0, []);
    }
    var updatedAt := match FiniteInt(Get(value, "updatedAt")) case Some(t) => t case None => 0;
    var rawItems := if Get(value, "items").Arr? then Get(value, "items").items else [];
    var items := DedupItems(rawItems, now);
    d := Data(user, updatedAt, items);
  }

  /** The loop of `normalizeStoredData` that fills the dedup map, item by
    * item, and then takes its values. */
  method DedupItems(rawItems: seq<JsValue>, now: int) returns (items: seq<Stored>)
    ensures items == Deduplicated(NormalizeAll(rawItems, now))
  {
    var dedup: OrderedMaps.OrderedMap<Stored> := OrderedMaps.Empty();
    ghost var kept: seq<Stored> := [];
    var i := 0;
    while i < |rawItems|
      invariant 0 <= i <= |rawItems|
      invariant kept == NormalizeAll(rawItems[..i], now)
      invariant dedup == ByEndpoint(kept)
    {
      NormalizeAllStep(rawItems, i, now);
      var item := NormalizeItem(rawItems[i], now);
      if item.Some? {
        ByEndpointStep(kept, item.value);
        dedup := OrderedMaps.Set(dedup, item.value.endpoint, item.value);
        kept := kept + [item.value];
      } else {
        assert kept + [] == kept;
      }
      i := i + 1;
    }
    assert rawItems[..|rawItems|] == rawItems;
    items := OrderedMaps.Values(dedup);
  }

  // ----------------------------------------------------------- JSON written

  function IntValue(i: int): JsValue { Number(Finite(i as real)) }

  function OptionalInt(x: Option<int>): JsValue { match x case None => Null case Some(i) => IntValue(i) }

  function OptionalStr(x: Option<string>): JsValue { match x case None => Null case Some(s) => Str(s) }

  /** An item as `JSON.stringify` writes it (and `JSON.parse` reads it back). */
  function EncodeItem(x: Stored): JsValue
  {
    Obj(map[
      "endpoint" := Str(x.endpoint), "expirationTime" := OptionalInt(x.expirationTime),
      "keys" := Obj(map["p256dh" := Str(x.p256dh), "auth" := Str(x.auth)]),
      "createdAt" := IntValue(x.createdAt), "updatedAt" := IntValue(x.updatedAt),
      "ua" := OptionalStr(x.ua), "platform" := OptionalStr(x.platform)])
  }

  /** The `items` array as written, one value per item in order. */
  function EncodeItems(items: seq<Stored>): (r: seq<JsValue>)
    ensures |r| == |items|
  {
    if items == [] then [] else EncodeItems(items[..|items| - 1]) + [EncodeItem(items[|items| - 1])]
  }

  /** A user's data as the file holds it. */
  function Encode(d: Data): JsValue
  {
    Obj(map["user" := Str(d.user), "updatedAt" := IntValue(d.updatedAt), "items" := Arr(EncodeItems(d.items))])
  }

  /** The fields `normalizeItem` reads from a written item. */
  lemma EncodedFields(x: Stored)
    ensures var v := EncodeItem(x);
      && Get(v, "endpoint") == Str(x.endpoint) && Get(v, "expirationTime") == OptionalInt(x.expirationTime)
      && Get(v, "keys") == Obj(map["p256dh" := Str(x.p256dh), "auth" := Str(x.auth)])
      && Get(Get(v, "keys"), "p256dh") == Str(x.p256dh) && Get(Get(v, "keys"), "auth") == Str(x.auth)
      && Get(v, "createdAt") == IntValue(x.createdAt) && Get(v, "updatedAt") == IntValue(x.updatedAt)
      && Get(v, "ua") == OptionalStr(x.ua) && Get(v, "platform") == OptionalStr(x.platform)
  {
  }

  /** A normalised item survives a write and a read unchanged. */
  lemma ItemRoundTrip(x: Stored, now: int)
    requires WellFormedItem(x)
    ensures NormalizeItem(EncodeItem(x), now) == Some(x)
  {
    EncodedFields(x);
    assert Trunc(x.createdAt as real) == x.createdAt && Trunc(x.updatedAt as real) == x.updatedAt;
    if x.expirationTime.Some? {
      assert Trunc(x.expirationTime.value as real) == x.expirationTime.value;
    }
  }

  /** A list of normalised items survives a write and a read unchanged. */
  lemma {:induction false} ItemsRoundTrip(items: seq<Stored>, now: int)
    requires forall i :: 0 <= i < |items| ==> WellFormedItem(items[i])
    ensures NormalizeAll(EncodeItems(items), now) == items
  {
    if items != [] {
      var init := items[..|items| - 1];
      var last := items[|items| - 1];
      assert forall i :: 0 <= i < |init| ==> init[i] == items[i];
      ItemsRoundTrip(init, now);
      ItemsRoundTripStep(init, last, now);
      InitLast(items);
    }
  }

  /** One more item written is one more item read. */
  lemma ItemsRoundTripStep(init: seq<Stored>, last: Stored, now: int)
    requires WellFormedItem(last) && NormalizeAll(EncodeItems(init), now) == init
    ensures NormalizeAll(EncodeItems(init + [last]), now) == init + [last]
  {
    assert (init + [last])[..|init|] == init;
    ItemRoundTrip(last, now);
    NormalizeAllLast(EncodeItems(init), EncodeItem(last), last, now);
  }

  /** A raw item that normalises to `x`, added last, adds `x` last. */
  lemma NormalizeAllLast(raws: seq<JsValue>, v: JsValue, x: Stored, now: int)
    requires NormalizeItem(v, now) == Some(x)
    ensures NormalizeAll(raws + [v], now) == NormalizeAll(raws, now) + [x]
  {
    assert (raws + [v])[..|raws|] == raws;
  }

  /** What normalisation gives: well-formed items, one per endpoint. */
  predicate WellFormedData(d: Data)
  {
    Distinct(d.items, Endpoint) && forall x :: x in d.items ==> WellFormedItem(x)
  }

  /** Reading back what was written gives the data written. */
  lemma ReadAfterWrite(d: Data, now: int)
    requires WellFormedData(d)
    ensures StoredData(d.user, Encode(d), now) == d
  {
    var v := Encode(d);
    assert Get(v, "items") == Arr(EncodeItems(d.items));
    assert Get(v, "updatedAt") == IntValue(d.updatedAt);
    assert Trunc(d.updatedAt as real) == d.updatedAt;
    assert forall i :: 0 <= i < |d.items| ==> d.items[i] in d.items;
    ItemsRoundTrip(d.items, now);
    DeduplicatedDistinct(d.items);
  }

  /** Normalised data is well formed. */
  lemma StoredDataWellFormed(user: string, value: JsValue, now: int)
    ensures WellFormedData(StoredData(user, value, now))
  {
    if value.Obj? {
      var items := Get(value, "items");
      var all := NormalizeAll(if items.Arr? then items.items else [], now);
      DeduplicatedItems(all);
      forall x | x in Deduplicated(all) ensures WellFormedItem(x) {
        assert LastWith(all, x.endpoint) == Some(x);
      }
    }
  }

  // ---------------------------------------------------------- upsert, remove

  /** The subscription to store, as the push controller parsed it. */
  datatype SubscriptionInput = SubscriptionInput(endpoint: string, expirationTime: JsValue, p256dh: string, auth: string)

  /** The optional client details: user agent and platform. */
  datatype Meta = Meta(ua: JsValue, platform: JsValue)

  function WithEndpoint(e: string): Stored -> bool { (x: Stored) => x.endpoint == e }

  function OtherEndpoint(e: string): Stored -> bool { (x: Stored) => x.endpoint != e }

  /** A detail given in the call wins over the stored one. */
  function Prefer(given: JsValue, previous: Option<string>): Option<string>
  {
    match NonBlankText(given) case Some(s) => Some(s) case None => previous
  }

  /** The item `upsertPushSubscription` writes. */
  function NextItem(current: Option<Stored>, sub: SubscriptionInput, meta: Meta, now: int): Stored
  {
    Stored(sub.endpoint, FiniteInt(sub.expirationTime), sub.p256dh, sub.auth,
      match current case Some(c) => c.createdAt case None => now, now,
      Prefer(meta.ua, match current case Some(c) => c.ua case None => None),
      Prefer(meta.platform, match current case Some(c) => c.platform case None => None))
  }

  /** `upsertPushSubscription` on the data read: the other items, in order,
    * then the new item. */
  function Upserted(d: Data, sub: SubscriptionInput, meta: Meta, now: int): Data
  {
    var current := Find(d.items, WithEndpoint(sub.endpoint));
    Data(d.user, now, Select(d.items, OtherEndpoint(sub.endpoint)) + [NextItem(current, sub, meta, now)])
  }

  /** After an upsert exactly one item has the endpoint, the last one; the
    * others are the earlier items without that endpoint, in order; the
    * creation time is kept from the item replaced and both update times
    * are now. */
  lemma UpsertedItems(d: Data, sub: SubscriptionInput, meta: Meta, now: int)
    ensures var u := Upserted(d, sub, meta, now);
      var n := |u.items|;
      && n >= 1 && u.items[n - 1].endpoint == sub.endpoint
      && u.items[..n - 1] == Select(d.items, OtherEndpoint(sub.endpoint))
      && (forall i :: 0 <= i < n - 1 ==> u.items[i].endpoint != sub.endpoint)
      && u.updatedAt == now && u.items[n - 1].updatedAt == now
      && (forall x :: x in d.items && x.endpoint != sub.endpoint ==> x in u.items)
      && u.items[n - 1].createdAt ==
           (match Find(d.items, WithEndpoint(sub.endpoint)) case Some(c) => c.createdAt case None => now)
  {
    var u := Upserted(d, sub, meta, now);
    var rest := Select(d.items, OtherEndpoint(sub.endpoint));
    assert u.items[..|u.items| - 1] == rest;
    forall i | 0 <= i < |rest| ensures rest[i].endpoint != sub.endpoint {
      assert rest[i] in rest;
    }
    forall x | x in d.items && x.endpoint != sub.endpoint ensures x in u.items {
      assert OtherEndpoint(sub.endpoint)(x);
      assert x in rest;
    }
  }

  /** The agent and platform: the trimmed value given, else the stored
    * one, else none. */
  lemma UpsertedDetails(d: Data, sub: SubscriptionInput, meta: Meta, now: int)
    ensures var u := Upserted(d, sub, meta, now);
      var current := Find(d.items, WithEndpoint(sub.endpoint));
      var last := u.items[|u.items| - 1];
      && (meta.ua.Str? && !IsBlank(meta.ua.s) ==> last.ua == Some(Trim(meta.ua.s)))
      && (!(meta.ua.Str? && !IsBlank(meta.ua.s)) ==> last.ua == (match current case Some(c) => c.ua case None => None))
      && (meta.platform.Str? && !IsBlank(meta.platform.s) ==> last.platform == Some(Trim(meta.platform.s)))
      && (!(meta.platform.Str? && !IsBlank(meta.platform.s)) ==> last.platform == (match current case Some(c) => c.platform case None => None))
  {
  }

  /** Upserting a trimmed subscription into well-formed data gives
    * well-formed data. */
  lemma UpsertedWellFormed(d: Data, sub: SubscriptionInput, meta: Meta, now: int)
    requires WellFormedData(d)
    requires sub.endpoint != "" && Trim(sub.endpoint) == sub.endpoint
    requires sub.p256dh != "" && Trim(sub.p256dh) == sub.p256dh
    requires sub.auth != "" && Trim(sub.auth) == sub.auth
    ensures WellFormedData(Upserted(d, sub, meta, now))
  {
    var u := Upserted(d, sub, meta, now);
    UpsertedItems(d, sub, meta, now);
    var rest := Select(d.items, OtherEndpoint(sub.endpoint));
    SelectKeepsDistinct(d.items, Endpoint, OtherEndpoint(sub.endpoint));
    var current := Find(d.items, WithEndpoint(sub.endpoint));
    assert WellFormedItem(NextItem(current, sub, meta, now)) by {
      if current.Some? { assert current.value in d.items; }
    }
    assert u.items == rest + [NextItem(current, sub, meta, now)];
    forall i, j | 0 <= i < j < |u.items| ensures Endpoint(u.items[i]) != Endpoint(u.items[j]) {
      if j < |u.items| - 1 {
        assert u.items[i] == rest[i] && u.items[j] == rest[j];
      }
    }
  }

  /** `removePushSubscriptionByEndpoint` on the data read: the items
    * without the endpoint, and whether any was dropped; the update time
    * moves only when one was. */
  function Removed(d: Data, endpoint: string, now: int): (Data, bool)
  {
    var items := Select(d.items, OtherEndpoint(endpoint));
    var removed := |d.items| != |items|;
    (Data(d.user, if removed then now else d.updatedAt, items), removed)
  }

  /** Something is removed exactly when an item had the endpoint; no item
    * with it is left; with nothing removed the data are unchanged. */
  lemma RemovedItems(d: Data, endpoint: string, now: int)
    ensures var (r, removed) := Removed(d, endpoint, now);
      && (removed <==> exists i :: 0 <= i < |d.items| && d.items[i].endpoint == endpoint)
      && (forall x :: x in r.items ==> x.endpoint != endpoint)
      && (forall x :: x in d.items && x.endpoint != endpoint ==> x in r.items)
      && (!removed ==> r == d)
  {
    SelectKeepsLength(d.items, OtherEndpoint(endpoint));
    var (r, removed) := Removed(d, endpoint, now);
    if !removed {
      SelectAll(d.items, OtherEndpoint(endpoint));
    }
    forall x | x in d.items && x.endpoint != endpoint ensures x in r.items {
      assert OtherEndpoint(endpoint)(x);
    }
  }

  // ---------------------------------------------------------- the directory

  /** What a file holds: a JSON value, or text `JSON.parse` refuses. */
  datatype FileContent = Json(value: JsValue) | Corrupt

  /** The error `readFileData` passes on: the file is there but unreadable
    * as JSON. */
  const Unreadable := "Unexpected token in JSON"

  /** `readFileData`: no file reads as no subscriptions. */
  function ReadData(files: map<string, FileContent>, user: string, now: int): (r: Result<Data, string>)
    ensures r.Ok? ==> r.value.user == user && WellFormedData(r.value)
    ensures FileName(user) !in files ==> r == Ok(Data(user, 0, []))
  {
    var name := FileName(user);
    if name !in files then Ok(Data(user, 0, []))
    else match files[name]
      case Corrupt => Err(Unreadable)
      case Json(v) => StoredDataWellFormed(user, v, now); Ok(StoredData(user, v, now))
  }

  /** The storage directory. */
  class PushStore {
    var files: map<string, FileContent>

    constructor (files: map<string, FileContent>)
      ensures this.files == files
    {
      this.files := files;
    }

    method ReadFileData(user: string, now: int) returns (r: Result<Data, string>)
      ensures r == ReadData(files, user, now)
    {
      var name := FileName(user);
      if name !in files {
        return Ok(Data(user, 0, []));
      }
      match files[name] {
        case Corrupt => r := Err(Unreadable);
        case Json(v) =>
          var d := NormalizeStoredData(user, v, now);
          r := Ok(d);
      }
    }

    /** `upsertPushSubscription`: read, replace the item with the endpoint
      * by the new one at the end, write. */
    method UpsertPushSubscription(user: string, sub: SubscriptionInput, meta: Meta, now: int) returns (r: Result<Data, string>)
      modifies this
      ensures r == match ReadData(old(files), user, now) case Err(e) => Err(e) case Ok(d) => Ok(Upserted(d, sub, meta, now))
      ensures files == if r.Ok? then old(files)[FileName(user) := Json(Encode(r.value))] else old(files)
    {
      var read := ReadFileData(user, now);
      if read.Err? {
        return Err(read.error);
      }
      var updated := Upserted(read.value, sub, meta, now);
      files := files[FileName(user) := Json(Encode(updated))];
      r := Ok(updated);
    }

    /** `removePushSubscriptionByEndpoint`: read, drop the endpoint, and
      * write only when something was dropped. */
    method RemovePushSubscriptionByEndpoint(user: string, endpoint: string, now: int) returns (r: Result<(Data, bool), string>)
      modifies this
      ensures r == match ReadData(old(files), user, now) case Err(e) => Err(e) case Ok(d) => Ok(Removed(d, endpoint, now))
      ensures files == if r.Ok? && r.value.1 then old(files)[FileName(user) := Json(Encode(r.value.0))] else old(files)
    {
      var read := ReadFileData(user, now);
      if read.Err? {
        return Err(read.error);
      }
      var (updated, removed) := Removed(read.value, endpoint, now);
      if removed {
        files := files[FileName(user) := Json(Encode(updated))];
      }
      r := Ok((updated, removed));
    }
  }

  /** After an upsert of a trimmed subscription the next read finds the
    * data the upsert returned. */
  lemma UpsertThenRead(files: map<string, FileContent>, user: string, sub: SubscriptionInput, meta: Meta, now: int, later: int)
    requires sub.endpoint != "" && Trim(sub.endpoint) == sub.endpoint
    requires sub.p256dh != "" && Trim(sub.p256dh) == sub.p256dh
    requires sub.auth != "" && Trim(sub.auth) == sub.auth
    requires ReadData(files, user, now).Ok?
    ensures var u := Upserted(ReadData(files, user, now).value, sub, meta, now);
      ReadData(files[FileName(user) := Json(Encode(u))], user, later) == Ok(u)
  {
    var d := ReadData(files, user, now).value;
    UpsertedWellFormed(d, sub, meta, now);
    ReadAfterWrite(Upserted(d, sub, meta, now), later);
  }
}
