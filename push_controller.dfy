/** The push routes: the public key, subscribing and unsubscribing a user's
  * browser, and the fire-alarm event that notifies every subscription,
  * at most once per cooldown period. */
module PushController {
  import opened Wrappers
  import opened JsText
  import opened JsValues
  import opened Lists
  import opened HttpReplies
  import opened PushSubscriptionRepository
  import opened PushService

  /** `normalizeUser`: `String(value ?? '')`, trimmed and upper-cased. */
  function NormalizeUser(v: JsValue): (r: string)
    ensures NoLower(r)
    ensures r == [] <==> IsBlank(ToStr(Coalesce(v, Str(""))))
    ensures |r| == |Trim(ToStr(Coalesce(v, Str(""))))|
  {
    ToUpperHasNoLower(Trim(ToStr(Coalesce(v, Str("")))));
    ToUpper(Trim(ToStr(Coalesce(v, Str("")))))
  }

  /** A normalised user name normalises to itself. */
  lemma NormalizeUserIdempotent(v: JsValue)
    ensures NormalizeUser(Str(NormalizeUser(v))) == NormalizeUser(v)
  {
    var u := NormalizeUser(v);
    assert ToStr(Coalesce(Str(u), Str(""))) == u;
    UpperTrimIdempotent(ToStr(Coalesce(v, Str(""))));
  }

  // ---------------------------------------------------------------- input

  /** `typeof v === 'string' ? v.trim() : ''`. */
  function TrimmedText(v: JsValue): (r: string)
    ensures Trim(r) == r
    ensures r != "" <==> IsNonBlankString(v)
  {
    if v.Str? then TrimIdempotent(v.s); Trim(v.s) else ""
  }

  /** `parseSubscription`: an object with a non-blank endpoint and non-blank
    * `keys.p256dh` and `keys.auth`, all three trimmed; an expiration time
    * is kept, truncated, only when it is a finite number. */
  function ParseSubscription(v: JsValue): (r: Option<SubscriptionInput>)
    ensures r.Some? <==> (v.Obj? && IsNonBlankString(Get(v, "endpoint"))
      && IsNonBlankString(Get(Get(v, "keys"), "p256dh")) && IsNonBlankString(Get(Get(v, "keys"), "auth")))
    ensures r.Some? ==>
      && r.value.endpoint == Trim(Get(v, "endpoint").s)
      && r.value.p256dh == Trim(Get(Get(v, "keys"), "p256dh").s)
      && r.value.auth == Trim(Get(Get(v, "keys"), "auth").s)
    ensures r.Some? ==> (r.value.endpoint != "" && Trim(r.value.endpoint) == r.value.endpoint
      && r.value.p256dh != "" && Trim(r.value.p256dh) == r.value.p256dh
      && r.value.auth != "" && Trim(r.value.auth) == r.value.auth)
    ensures r.Some? ==> var x := Get(v, "expirationTime");
      r.value.expirationTime == if x.Number? && x.n.Finite? then Number(Finite(Trunc(x.n.r) as real)) else Null
  {
    if !v.Obj? then None
    else
      var endpoint := TrimmedText(Get(v, "endpoint"));
      if endpoint == "" then None
      else
        var keys := Get(v, "keys");
        var p256dh := TrimmedText(Get(keys, "p256dh"));
        var auth := TrimmedText(Get(keys, "auth"));
        if p256dh == "" || auth == "" then None
        else
          var x := Get(v, "expirationTime");
          var expirationTime := if x.Number? && x.n.Finite? then Number(Finite(Trunc(x.n.r) as real)) else Null;
          Some(SubscriptionInput(endpoint, expirationTime, p256dh, auth))
  }

  /** `req.body?.user || req.actor || req.headers['x-user']`, normalised. */
  function UserOf(body: JsValue, actor: JsValue, headers: JsValue): string
  {
    NormalizeUser(Or(Or(Get(body, "user"), actor), Get(headers, "x-user")))
  }

  /** The client details: the body's `meta.ua`, else the `user-agent`
    * header, else none; the body's `meta.platform`, else `web`. */
  function MetaOf(body: JsValue, headers: JsValue): (m: Meta)
    ensures var ua := Get(Get(body, "meta"), "ua");
      var agent := Get(headers, "user-agent");
      && (ua.Str? ==> m.ua == ua)
      && (!ua.Str? && agent.Str? ==> m.ua == agent)
      && (!ua.Str? && !agent.Str? ==> m.ua == Null)
    ensures Get(Get(body, "meta"), "platform").Str? ==> m.platform == Get(Get(body, "meta"), "platform")
    ensures !Get(Get(body, "meta"), "platform").Str? ==> m.platform == Str("web")
  {
    var ua := Get(Get(body, "meta"), "ua");
    var platform := Get(Get(body, "meta"), "platform");
    Meta(if ua.Str? then ua else if Get(headers, "user-agent").Str? then Get(headers, "user-agent") else Null,
         if platform.Str? then platform else Str("web"))
  }

  // ---------------------------------------------------------------- routes

  const UserRequiredMessage := "Usuario e obrigatorio."
  const SubscriptionMessage := "Campo \"subscription\" invalido."
  const EndpointMessage := "Campo \"endpoint\" e obrigatorio."
  const SaveFailedMessage := "Falha ao salvar subscription de push."
  const RemoveFailedMessage := "Falha ao remover subscription de push."
  const PublicKeyFailedMessage := "Falha ao carregar chave publica de push."
  const AlarmFailedMessage := "Falha ao enviar push de alarme."

  datatype Subscribed = Subscribed(user: string, updatedAt: int, totalSubscriptions: nat)

  datatype Unsubscribed = Unsubscribed(user: string, updatedAt: int, totalSubscriptions: nat, removed: bool)

  type Files = map<string, FileContent>

  /** `pushPublicKeyController`. */
  function PublicKeyRoute(key: Result<string, string>): (r: Response<string>)
    ensures key.Ok? ==> r == OkResponse(key.value)
    ensures key.Err? ==> r.Failure? && r.status == 500
  {
    match key
    case Ok(k) => OkResponse(k)
    case Err(m) => Failure(500, if m == "" then PublicKeyFailedMessage else m, Null)
  }

  /** `pushSubscribeController` on the directory: the reply, and the
    * directory after the call. */
  function SubscribeRoute(files: Files, body: JsValue, actor: JsValue, headers: JsValue, now: int): (Response<Subscribed>, Files)
  {
    var user := UserOf(body, actor, headers);
    if user == "" then (BadRequest(UserRequiredMessage), files)
    else match ParseSubscription(Get(body, "subscription"))
      case None => (BadRequest(SubscriptionMessage), files)
      case Some(sub) => Save(files, user, sub, MetaOf(body, headers), now)
  }

  /** The storing part of the subscribe route, once the input is valid. */
  function Save(files: Files, user: string, sub: SubscriptionInput, meta: Meta, now: int): (Response<Subscribed>, Files)
  {
    match ReadData(files, user, now)
    case Err(e) => (ServerError(SaveFailedMessage, e), files)
    case Ok(d) =>
      var u := Upserted(d, sub, meta, now);
      (OkResponse(Subscribed(u.user, u.updatedAt, |u.items|)), files[FileName(user) := Json(Encode(u))])
  }

  /** A request without a user or without a valid subscription is refused
    * with 400 and leaves the directory as it was; a valid one is stored. */
  lemma SubscribeRouteRefusals(files: Files, body: JsValue, actor: JsValue, headers: JsValue, now: int)
    ensures var (resp, after) := SubscribeRoute(files, body, actor, headers, now);
      var user := UserOf(body, actor, headers);
      var sub := ParseSubscription(Get(body, "subscription"));
      && (user == "" ==> resp == BadRequest(UserRequiredMessage) && after == files)
      && (user != "" && sub.None? ==> resp == BadRequest(SubscriptionMessage) && after == files)
      && (user != "" && sub.Some? ==> (resp, after) == Save(files, user, sub.value, MetaOf(body, headers), now))
  {
  }

  /** Storing a parsed subscription answers with the user's subscription
    * count, and the next read of the user's file finds the subscription,
    * once and last. */
  lemma SaveThenRead(files: Files, user: string, v: JsValue, meta: Meta, now: int, later: int)
    requires ParseSubscription(v).Some? && ReadData(files, user, now).Ok?
    ensures var sub := ParseSubscription(v).value;
      var (resp, after) := Save(files, user, sub, meta, now);
      && resp.Success? && resp.data.user == user
      && ReadData(after, user, later).Ok?
      && var items := ReadData(after, user, later).value.items;
         |items| == resp.data.totalSubscriptions && items[|items| - 1].endpoint == sub.endpoint
         && forall i :: 0 <= i < |items| - 1 ==> items[i].endpoint != sub.endpoint
  {
    var sub := ParseSubscription(v).value;
    var d := ReadData(files, user, now).value;
    UpsertThenRead(files, user, sub, meta, now, later);
    UpsertedItems(d, sub, meta, now);
  }

  function UnsubscribeRoute(files: Files, body: JsValue, actor: JsValue, headers: JsValue, now: int): (Response<Unsubscribed>, Files)
  {
    var user := UserOf(body, actor, headers);
    if user == "" then (BadRequest(UserRequiredMessage), files)
    else
      var endpoint := TrimmedText(Get(body, "endpoint"));
      if endpoint == "" then (BadRequest(EndpointMessage), files)
      else Drop(files, user, endpoint, now)
  }

  /** The storing part of the unsubscribe route. */
  function Drop(files: Files, user: string, endpoint: string, now: int): (Response<Unsubscribed>, Files)
  {
    match ReadData(files, user, now)
    case Err(e) => (ServerError(RemoveFailedMessage, e), files)
    case Ok(d) =>
      var (u, removed) := Removed(d, endpoint, now);
      (OkResponse(Unsubscribed(u.user, u.updatedAt, |u.items|, removed)),
       if removed then files[FileName(user) := Json(Encode(u))] else files)
  }

  /** Unsubscribing needs a user and a non-blank endpoint, else 400 and no
    * write. */
  lemma UnsubscribeRouteRefusals(files: Files, body: JsValue, actor: JsValue, headers: JsValue, now: int)
    ensures var (resp, after) := UnsubscribeRoute(files, body, actor, headers, now);
      var user := UserOf(body, actor, headers);
      && (user == "" ==> resp == BadRequest(UserRequiredMessage) && after == files)
      && (user != "" && !IsNonBlankString(Get(body, "endpoint")) ==> resp == BadRequest(EndpointMessage) && after == files)
      && (user != "" && IsNonBlankString(Get(body, "endpoint")) ==>
            (resp, after) == Drop(files, user, Trim(Get(body, "endpoint").s), now))
  {
  }

  /** The file is rewritten only when a subscription was removed, and
    * afterwards the user's file holds no subscription with the endpoint. */
  lemma DropThenRead(files: Files, user: string, endpoint: string, now: int)
    ensures var (resp, after) := Drop(files, user, endpoint, now);
      && (resp.Success? && !resp.data.removed ==> after == files)
      && (resp.Success? <==> ReadData(files, user, now).Ok?)
      && (resp.Success? ==> (ReadData(after, user, now).Ok?
            && forall x :: x in ReadData(after, user, now).value.items ==> x.endpoint != endpoint))
  {
    if ReadData(files, user, now).Ok? {
      var d := ReadData(files, user, now).value;
      var (u, removed) := Removed(d, endpoint, now);
      RemovedItems(d, endpoint, now);
      if removed {
        assert WellFormedData(u) by {
          SelectKeepsDistinct(d.items, Endpoint, OtherEndpoint(endpoint));
        }
        ReadAfterWrite(u, now);
      }
    }
  }

  // ---------------------------------------------------------------- fire alarm

  const DefaultCooldownMs := 60000

  /** `Number(process.env.PUSH_FIRE_ALARM_COOLDOWN_MS || 60000)`. */
  function CooldownSetting(raw: JsValue): (n: Num)
    ensures Truthy(raw) ==> n == NumberOf(raw)
    ensures !Truthy(raw) ==> n == Finite(60000.0)
  {
    NumberOf(Or(raw, Number(Finite(DefaultCooldownMs as real))))
  }

  /** `parseCooldown`: anything not a finite, non-negative number gives the
    * default of one minute; otherwise the value truncated. */
  function ParseCooldown(n: Num): (c: nat)
    ensures !n.Finite? || n.r < 0.0 ==> c == DefaultCooldownMs
    ensures n.Finite? && n.r >= 0.0 ==> c as real <= n.r < c as real + 1.0
  {
    if !n.Finite? || n.r < 0.0 then DefaultCooldownMs else Trunc(n.r)
  }

  /** An alarm is held back while an earlier one was sent less than the
    * cooldown ago. */
  predicate InCooldown(last: int, now: int, cooldown: int)
  {
    last > 0 && now - last < cooldown
  }

  /** The event passed to the dispatch: the body's source, trigger time and
    * counters when it is an object and they have the right types. */
  function EventOf(body: JsValue, nowIso: string): (e: Event)
    ensures !body.Obj? ==> e == Event(DefaultSource, nowIso, Undefined)
    ensures body.Obj? && Get(body, "source").Str? ==> e.source == Get(body, "source").s
    ensures body.Obj? && !Get(body, "source").Str? ==> e.source == DefaultSource
    ensures body.Obj? && Get(body, "triggeredAt").Str? ==> e.triggeredAt == Get(body, "triggeredAt").s
    ensures body.Obj? && !Get(body, "triggeredAt").Str? ==> e.triggeredAt == nowIso
    ensures body.Obj? && Get(body, "counters").Obj? ==> e.counters == Get(body, "counters")
    ensures e.counters.Obj? || e.counters == Undefined
  {
    if body.Obj? then
      var source := Get(body, "source");
      var triggeredAt := Get(body, "triggeredAt");
      var counters := Get(body, "counters");
      Event(if source.Str? then source.s else DefaultSource,
            if triggeredAt.Str? then triggeredAt.s else nowIso,
            if counters.Obj? then counters else Undefined)
    else Event(DefaultSource, nowIso, Undefined)
  }

  datatype FireAlarmReply =
    | Skipped(cooldownMs: int, elapsedMs: int, nextAllowedAt: int)
    | Dispatched(cooldownMs: int, sentAt: int, dispatch: Summary)

  /** One fire-alarm event as it reaches the handler: its time, and whether
    * the dispatch would succeed. */
  datatype Arrival = Arrival(now: int, succeeds: bool)

  /** The times at which a sequence of events is actually dispatched,
    * starting from the last dispatch time `last`. */
  function SentTimes(last: int, xs: seq<Arrival>, cooldown: nat): seq<int>
    decreases |xs|
  {
    if xs == [] then []
    else if InCooldown(last, xs[0].now, cooldown) || !xs[0].succeeds then SentTimes(last, xs[1..], cooldown)
    else [xs[0].now] + SentTimes(xs[0].now, xs[1..], cooldown)
  }

  /** With a clock that reads positive times, two dispatches are always at
    * least the cooldown apart, and the first one at least the cooldown
    * after an earlier one. */
  lemma {:induction false} SentTimesSpaced(last: int, xs: seq<Arrival>, cooldown: nat)
    requires forall i :: 0 <= i < |xs| ==> xs[i].now > 0
    ensures var s := SentTimes(last, xs, cooldown);
      && (last > 0 && s != [] ==> s[0] - last >= cooldown)
      && (forall i :: 0 <= i < |s| - 1 ==> s[i + 1] - s[i] >= cooldown)
    decreases |xs|
  {
    if xs != [] {
      var a := xs[0];
      if InCooldown(last, a.now, cooldown) || !a.succeeds {
        assert SentTimes(last, xs, cooldown) == SentTimes(last, xs[1..], cooldown);
        SentTimesSpaced(last, xs[1..], cooldown);
      } else {
        SentTimesSpaced(a.now, xs[1..], cooldown);
        var rest := SentTimes(a.now, xs[1..], cooldown);
        var s := SentTimes(last, xs, cooldown);
        assert s == [a.now] + rest;
        forall i | 0 <= i < |s| - 1 ensures s[i + 1] - s[i] >= cooldown {
          if i > 0 { assert s[i] == rest[i - 1] && s[i + 1] == rest[i]; }
        }
      }
    }
  }

  /** The module state of the push controller: the cooldown read from the
    * environment and the time of the last successful dispatch (0 when
    * none). */
  class FireAlarmGate {
    const cooldownSetting: Num
    var lastFireAlarmSentAt: int

    constructor (raw: JsValue)
      ensures cooldownSetting == CooldownSetting(raw) && lastFireAlarmSentAt == 0
    {
      cooldownSetting := CooldownSetting(raw);
      lastFireAlarmSentAt := 0;
    }

    /** `pushFireAlarmEventController`: inside the cooldown the event is
      * skipped and nothing changes; otherwise it is dispatched, and only a
      * successful dispatch moves the last-sent time to now. */
    method FireAlarmEvent(sender: PushSender, body: JsValue, now: int, nowIso: string, subs: seq<Stored>,
                          send: (Stored, Notification) -> Delivery, removedFor: string -> nat)
      returns (resp: Response<FireAlarmReply>)
      modifies this, sender
      ensures var cooldown := ParseCooldown(cooldownSetting);
        var last := old(lastFireAlarmSentAt);
        if InCooldown(last, now, cooldown) then
          && resp == OkResponse(Skipped(cooldown, now - last, last + cooldown))
          && lastFireAlarmSentAt == last && sender.configured == old(sender.configured)
        else if old(sender.configured) || sender.HasVapidDetails() then
          && resp == OkResponse(Dispatched(cooldown, now, Tally(subs, ToNotificationPayload(EventOf(body, nowIso), nowIso), send, removedFor)))
          && lastFireAlarmSentAt == now && sender.configured
        else
          && resp == Failure(500, NotConfiguredMessage, Str(NotConfiguredMessage))
          && lastFireAlarmSentAt == last && !sender.configured
    {
      var cooldown := ParseCooldown(cooldownSetting);
      var elapsed := now - lastFireAlarmSentAt;
      if lastFireAlarmSentAt > 0 && elapsed < cooldown {
        return OkResponse(Skipped(cooldown, elapsed, lastFireAlarmSentAt + cooldown));
      }
      var dispatch := sender.SendFireAlarmPushToAll(subs, EventOf(body, nowIso), nowIso, send, removedFor);
      if dispatch.Err? {
        var message := if dispatch.error == "" then AlarmFailedMessage else dispatch.error;
        return Failure(500, message, Str(message));
      }
      lastFireAlarmSentAt := now;
      resp := OkResponse(Dispatched(cooldown, now, dispatch.value));
    }
  }

  /** `pushSubscribeController` on the directory. */
  method Subscribe(store: PushStore, body: JsValue, actor: JsValue, headers: JsValue, now: int)
    returns (resp: Response<Subscribed>)
    modifies store
    ensures (resp, store.files) == SubscribeRoute(old(store.files), body, actor, headers, now)
  {
    SubscribeRouteRefusals(store.files, body, actor, headers, now);
    var user := UserOf(body, actor, headers);
    if user == "" {
      return BadRequest(UserRequiredMessage);
    }
    var sub := ParseSubscription(Get(body, "subscription"));
    if sub.None? {
      return BadRequest(SubscriptionMessage);
    }
    resp := SaveSubscription(store, user, sub.value, MetaOf(body, headers), now);
  }

  /** `pushUnsubscribeController` on the directory. */
  method Unsubscribe(store: PushStore, body: JsValue, actor: JsValue, headers: JsValue, now: int)
    returns (resp: Response<Unsubscribed>)
    modifies store
    ensures (resp, store.files) == UnsubscribeRoute(old(store.files), body, actor, headers, now)
  {
    UnsubscribeRouteRefusals(store.files, body, actor, headers, now);
    var user := UserOf(body, actor, headers);
    if user == "" {
      return BadRequest(UserRequiredMessage);
    }
    var endpoint := TrimmedText(Get(body, "endpoint"));
    if endpoint == "" {
      return BadRequest(EndpointMessage);
    }
    resp := DropSubscription(store, user, endpoint, now);
  }

  method SaveSubscription(store: PushStore, user: string, sub: SubscriptionInput, meta: Meta, now: int)
    returns (resp: Response<Subscribed>)
    modifies store
    ensures (resp, store.files) == Save(old(store.files), user, sub, meta, now)
  {
    var r := store.UpsertPushSubscription(user, sub, meta, now);
    match r {
      case Err(e) => resp := ServerError(SaveFailedMessage, e);
      case Ok(d) => resp := OkResponse(Subscribed(d.user, d.updatedAt, |d.items|));
    }
  }

  method DropSubscription(store: PushStore, user: string, endpoint: string, now: int)
    returns (resp: Response<Unsubscribed>)
    modifies store
    ensures (resp, store.files) == Drop(old(store.files), user, endpoint, now)
  {
    var r := store.RemovePushSubscriptionByEndpoint(user, endpoint, now);
    match r {
      case Err(e) => resp := ServerError(RemoveFailedMessage, e);
      case Ok(result) =>
        var (d, removed) := result;
        resp := OkResponse(Unsubscribed(d.user, d.updatedAt, |d.items|, removed));
    }
  }
}
