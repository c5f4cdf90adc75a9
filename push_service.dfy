/** The fire-alarm push notifications: the notification built from an alarm
  * event, the one-time Web Push configuration, and the dispatch to every
  * stored subscription with its summary of deliveries.
  *
  * Delivery itself is foreign I/O: it is a parameter `send` that says how
  * the push service answered for one subscription. The subscriptions come
  * in the order the listing of the storage directory gives them. */
module PushService {
  import opened Wrappers
  import opened JsText
  import opened JsValues
  import opened Lists
  import opened PushSubscriptionRepository

  /** The alarm event the controller passes on. `latestAlarmLogs` is not
    * used by the notification and is not kept. */
  datatype Event = Event(source: string, triggeredAt: string, counters: JsValue)

  datatype Counters = Counters(alarme: Num, falha: Num, supervisao: Num, bloqueio: Num)

  /** The notification payload sent (as JSON) to every subscription. */
  datatype Notification = Notification(
    title: string, body: string, tag: string, renotify: bool, requireInteraction: bool,
    icon: string, badge: string, url: string, source: string, triggeredAt: string,
    counters: Counters)

  const Title := "Alarme de Incendio"
  const QuietBody := "Evento de alarme recebido da central."
  const AlarmPrefix := "Alarme ativo ("
  const DefaultSource := "CIE2500"
  const AlarmTag := "fire-alarm"
  const Icon := "/icons/icon-192.png"
  const DashboardUrl := "/dashboard/central-incendio"

  /** `Number(counters?.[key] || 0)`. */
  function CounterOf(counters: JsValue, key: string): (n: Num)
    ensures !Truthy(Get(counters, key)) ==> n == Finite(0.0)
    ensures Get(counters, key).Number? && Truthy(Get(counters, key)) ==> n == Get(counters, key).n
  {
    NumberOf(Or(Get(counters, key), Number(Finite(0.0))))
  }

  function AlarmBody(alarme: Num): string
  {
    AlarmPrefix + NumToStr(alarme) + "). Acesse a central imediatamente."
  }

  /** `toNotificationPayload`: missing counters read as 0, an empty source as
    * the panel's name, an empty trigger time as the current time; the body
    * gives the alarm count only when it is positive. */
  function ToNotificationPayload(e: Event, nowIso: string): (r: Notification)
    ensures r.source == (if e.source == "" then DefaultSource else e.source) && r.source != ""
    ensures r.triggeredAt == (if e.triggeredAt == "" then nowIso else e.triggeredAt)
    ensures StartsWith(r.body, AlarmPrefix) <==> Greater(r.counters.alarme, 0.0)
    ensures Greater(r.counters.alarme, 0.0) ==> r.body == AlarmBody(r.counters.alarme)
    ensures !Greater(r.counters.alarme, 0.0) ==> r.body == QuietBody
    ensures r.counters == Counters(CounterOf(e.counters, "alarme"), CounterOf(e.counters, "falha"),
      CounterOf(e.counters, "supervisao"), CounterOf(e.counters, "bloqueio"))
    ensures r.title == Title && r.tag == AlarmTag && r.renotify && r.requireInteraction && r.url == DashboardUrl
  {
    var counters := Counters(CounterOf(e.counters, "alarme"), CounterOf(e.counters, "falha"),
      CounterOf(e.counters, "supervisao"), CounterOf(e.counters, "bloqueio"));
    var body := if Greater(counters.alarme, 0.0) then AlarmBody(counters.alarme) else QuietBody;
    assert QuietBody[0] != AlarmPrefix[0];
    Notification(Title, body, AlarmTag, true, true, Icon, Icon, DashboardUrl,
      if e.source == "" then DefaultSource else e.source,
      if e.triggeredAt == "" then nowIso else e.triggeredAt,
      counters)
  }

  /** An event without counters announces no alarm and reports every
    * counter as 0. */
  lemma EventWithoutCounters(source: string, triggeredAt: string, nowIso: string)
    ensures var r := ToNotificationPayload(Event(source, triggeredAt, Undefined), nowIso);
      && r.counters == Counters(Finite(0.0), Finite(0.0), Finite(0.0), Finite(0.0))
      && r.body == QuietBody
  {
  }

  // ---------------------------------------------------------------- delivery

  /** How the push service answered for one subscription: delivered, or an
    * error with the HTTP status code it carried, if any. */
  datatype Delivery = Delivered | Refused(statusCode: Option<int>)

  /** `isInvalidEndpointError`: the subscription is gone (404) or expired
    * (410). */
  predicate IsInvalidEndpointError(d: Delivery)
  {
    d.Refused? && (d.statusCode == Some(404) || d.statusCode == Some(410))
  }

  datatype Summary = Summary(totalSubscriptions: nat, sent: nat, failed: nat, removedInvalid: nat)

  /** The outcome of one subscription. */
  function Tally1(s: Summary, x: Stored, d: Delivery, removedFor: string -> nat): Summary
  {
    match d
    case Delivered => s.(totalSubscriptions := s.totalSubscriptions + 1, sent := s.sent + 1)
    case Refused(_) =>
      s.(totalSubscriptions := s.totalSubscriptions + 1, failed := s.failed + 1,
        removedInvalid := s.removedInvalid + if IsInvalidEndpointError(d) then removedFor(x.endpoint) else 0)
  }

  /** The dispatch summary over `subs`, one subscription after another;
    * `removedFor(e)` is what the repository reports removing for
    * endpoint `e`. Every subscription is counted once, as sent or as
    * failed. */
  function Tally(subs: seq<Stored>, payload: Notification, send: (Stored, Notification) -> Delivery,
                 removedFor: string -> nat): (s: Summary)
    ensures s.totalSubscriptions == |subs|
    ensures s.sent + s.failed == |subs|
    decreases |subs|
  {
    if subs == [] then Summary(0, 0, 0, 0)
    else
      var x := subs[|subs| - 1];
      Tally1(Tally(subs[..|subs| - 1], payload, send, removedFor), x, send(x, payload), removedFor)
  }

  /** Extending the subscriptions by one adds that subscription's outcome. */
  lemma TallyStep(subs: seq<Stored>, i: nat, payload: Notification, send: (Stored, Notification) -> Delivery,
                  removedFor: string -> nat)
    requires i < |subs|
    ensures Tally(subs[..i + 1], payload, send, removedFor)
         == Tally1(Tally(subs[..i], payload, send, removedFor), subs[i], send(subs[i], payload), removedFor)
  {
    assert subs[..i + 1][..i] == subs[..i];
  }

  /** The send loop of `sendFireAlarmPushToAll`: one notification to every
    * subscription, counting the outcomes as they come back. */
  method Dispatch(subs: seq<Stored>, payload: Notification, send: (Stored, Notification) -> Delivery,
                  removedFor: string -> nat)
    returns (summary: Summary)
    ensures summary == Tally(subs, payload, send, removedFor)
  {
    var sent: nat, failed: nat, removedInvalid: nat := 0, 0, 0;
    var i := 0;
    while i < |subs|
      invariant 0 <= i <= |subs|
      invariant Summary(i, sent, failed, removedInvalid) == Tally(subs[..i], payload, send, removedFor)
    {
      TallyStep(subs, i, payload, send, removedFor);
      var d := send(subs[i], payload);
      if d.Delivered? {
        sent := sent + 1;
      } else {
        failed := failed + 1;
        if IsInvalidEndpointError(d) {
          removedInvalid := removedInvalid + removedFor(subs[i].endpoint);
        }
      }
      i := i + 1;
    }
    assert subs[..i] == subs;
    summary := Summary(|subs|, sent, failed, removedInvalid);
  }

  function DeliveredTo(payload: Notification, send: (Stored, Notification) -> Delivery): Stored -> bool
  {
    (x: Stored) => send(x, payload).Delivered?
  }

  /** `sent` counts exactly the subscriptions that were delivered; nothing
    * is reported removed unless some delivery failed as an invalid
    * endpoint. */
  lemma {:induction false} TallyCounts(subs: seq<Stored>, payload: Notification, send: (Stored, Notification) -> Delivery,
                                       removedFor: string -> nat)
    ensures var s := Tally(subs, payload, send, removedFor);
      && s.sent == |Select(subs, DeliveredTo(payload, send))|
      && (s.removedInvalid > 0 ==> exists i :: 0 <= i < |subs| && IsInvalidEndpointError(send(subs[i], payload)))
    decreases |subs|
  {
    if subs != [] {
      var init := subs[..|subs| - 1];
      var x := subs[|subs| - 1];
      TallyCounts(init, payload, send, removedFor);
      InitLast(subs);
      SelectAppend(init, [x], DeliveredTo(payload, send));
      var s := Tally(subs, payload, send, removedFor);
      if s.removedInvalid > 0 && !IsInvalidEndpointError(send(x, payload)) {
        var i :| 0 <= i < |init| && IsInvalidEndpointError(send(init[i], payload));
        assert subs[i] == init[i];
      }
    }
  }

  /** When every delivery succeeds, nothing failed and nothing was
    * removed. */
  lemma {:induction false} AllDelivered(subs: seq<Stored>, payload: Notification, send: (Stored, Notification) -> Delivery,
                                        removedFor: string -> nat)
    requires forall i :: 0 <= i < |subs| ==> send(subs[i], payload).Delivered?
    ensures Tally(subs, payload, send, removedFor) == Summary(|subs|, |subs|, 0, 0)
    decreases |subs|
  {
    if subs != [] {
      AllDelivered(subs[..|subs| - 1], payload, send, removedFor);
    }
  }

  // ---------------------------------------------------------------- the service

  const NotConfiguredMessage := "Web Push nao configurado. Defina WEB_PUSH_VAPID_PUBLIC_KEY, WEB_PUSH_VAPID_PRIVATE_KEY e WEB_PUSH_VAPID_SUBJECT."
  const NoPublicKeyMessage := "WEB_PUSH_VAPID_PUBLIC_KEY nao configurada."

  /** The VAPID details read (and trimmed) once from the environment, with
    * the flag that says Web Push was configured. */
  class PushSender {
    const publicKey: string
    const privateKey: string
    const subject: string
    var configured: bool

    /** An unset variable reads as the empty string. */
    constructor (publicRaw: string, privateRaw: string, subjectRaw: string)
      ensures publicKey == Trim(publicRaw) && privateKey == Trim(privateRaw) && subject == Trim(subjectRaw)
      ensures !configured
    {
      publicKey := Trim(publicRaw);
      privateKey := Trim(privateRaw);
      subject := Trim(subjectRaw);
      configured := false;
    }

    predicate HasVapidDetails()
    {
      publicKey != "" && privateKey != "" && subject != ""
    }

    /** `ensureWebPushConfigured`: a no-op once configured; otherwise it
      * fails while any VAPID value is blank and else sets the flag. */
    method EnsureConfigured() returns (error: Option<string>)
      modifies this
      ensures old(configured) ==> error == None && configured
      ensures !old(configured) ==> (error.Some? <==> !HasVapidDetails())
      ensures error.Some? ==> error == Some(NotConfiguredMessage) && !configured
      ensures configured == (old(configured) || HasVapidDetails())
    {
      if configured {
        return None;
      }
      if publicKey == "" || privateKey == "" || subject == "" {
        return Some(NotConfiguredMessage);
      }
      configured := true;
      error := None;
    }

    /** `getPublicPushKey`. */
    function PublicKey(): (r: Result<string, string>)
      ensures r.Ok? <==> publicKey != ""
      ensures r.Ok? ==> r.value == publicKey
      ensures r.Err? ==> r.error == NoPublicKeyMessage
    {
      if publicKey == "" then Err(NoPublicKeyMessage) else Ok(publicKey)
    }

    /** `sendFireAlarmPushToAll`: configure, then send the same notification
      * to every subscription and count the outcomes. */
    method SendFireAlarmPushToAll(subs: seq<Stored>, e: Event, nowIso: string,
                                  send: (Stored, Notification) -> Delivery, removedFor: string -> nat)
      returns (r: Result<Summary, string>)
      modifies this
      ensures configured == (old(configured) || HasVapidDetails())
      ensures r.Err? <==> !old(configured) && !HasVapidDetails()
      ensures r.Err? ==> r.error == NotConfiguredMessage
      ensures r.Ok? ==> r.value == Tally(subs, ToNotificationPayload(e, nowIso), send, removedFor)
    {
      var error := EnsureConfigured();
      if error.Some? {
        return Err(error.value);
      }
      if |subs| == 0 {
        return Ok(Summary(0, 0, 0, 0));
      }
      var summary := Dispatch(subs, ToNotificationPayload(e, nowIso), send, removedFor);
      r := Ok(summary);
    }
  }
}
