/** The user-settings routes: read a user's settings (an absent file reads
  * as empty settings) and replace them with the string-valued items of a
  * request body. */
module UserSettingsController {
  import opened Wrappers
  import opened JsValues
  import opened HttpReplies
  import opened PushController
  import Subscriptions = PushSubscriptionRepository
  import opened UserSettingsRepository

  const UserRequiredMessage := "Usuário é obrigatório."
  const ItemsMessage := "O campo \"items\" é obrigatório e deve ser um objeto."
  const LoadFailedMessage := "Erro ao carregar configurações do usuário."

  type Files = map<string, Subscriptions.FileContent>

  /** The reply; `found` is the `exists` flag of the source. */
  datatype SettingsReply = SettingsReply(user: string, found: bool, updatedAt: int, items: map<string, string>)

  /** `getUserSettingsControl`. The user is normalised as in the push
    * routes (`normalizeUser` is the same function in both controllers). */
  function GetRoute(files: Files, userParam: JsValue): (r: Response<SettingsReply>)
    ensures NormalizeUser(userParam) == "" ==> r == BadRequest(UserRequiredMessage)
    ensures var user := NormalizeUser(userParam);
      user != "" && Subscriptions.FileName(user) !in files ==> r == OkResponse(SettingsReply(user, false, 0, map[]))
    ensures r.Success? ==> r.data.user == NormalizeUser(userParam) && r.data.updatedAt >= 0
    ensures r.Failure? && r.status != 400 ==> r.status == 500 && r.message == LoadFailedMessage
  {
    var user := NormalizeUser(userParam);
    if user == "" then BadRequest(UserRequiredMessage)
    else match ReadSettings(files, user)
      case Err(e) => ServerError(LoadFailedMessage, e)
      case Ok(None) => OkResponse(SettingsReply(user, false, 0, map[]))
      case Ok(Some(d)) => OkResponse(SettingsReply(d.user, true, d.updatedAt, d.items))
  }

  /** The update time the route hands to the repository: a positive finite
    * number from the body, truncated, else the current time. */
  function GivenUpdatedAt(body: JsValue, now: int): int
  {
    PositiveTrunc(Get(body, "updatedAt"), now)
  }

  /** `upsertUserSettingsControl` on the directory: the reply and the
    * directory after the call. */
  function UpsertRoute(files: Files, userParam: JsValue, body: JsValue, now: int): (Response<SettingsReply>, Files)
  {
    var user := NormalizeUser(userParam);
    if user == "" then (BadRequest(UserRequiredMessage), files)
    else
      var rawItems := if body.Obj? then Get(body, "items") else Null;
      if !rawItems.Obj? then (BadRequest(ItemsMessage), files)
      else
        var s := Payload(user, Finite(GivenUpdatedAt(body, now) as real), StringEntries(rawItems.fields), now);
        (OkResponse(SettingsReply(s.user, true, s.updatedAt, s.items)),
         files[Subscriptions.FileName(user) := Subscriptions.Json(Encode(s))])
  }

  /** The update time stored is the body's when it is a finite number of at
    * least 1 (truncated), and the current time otherwise: a body value
    * between 0 and 1 truncates to 0, which the repository replaces by the
    * current time. */
  lemma StoredUpdatedAt(files: Files, userParam: JsValue, body: JsValue, now: int)
    requires NormalizeUser(userParam) != "" && body.Obj? && Get(body, "items").Obj?
    ensures var (resp, _) := UpsertRoute(files, userParam, body, now);
      var raw := Get(body, "updatedAt");
      && resp.Success?
      && (raw.Number? && raw.n.Finite? && raw.n.r >= 1.0 ==> resp.data.updatedAt as real <= raw.n.r < resp.data.updatedAt as real + 1.0)
      && (!(raw.Number? && raw.n.Finite? && raw.n.r >= 1.0) ==> resp.data.updatedAt == now)
  {
    var raw := Get(body, "updatedAt");
    var given := GivenUpdatedAt(body, now);
    if raw.Number? && raw.n.Finite? && raw.n.r >= 1.0 {
      assert given >= 1;
    } else if raw.Number? && raw.n.Finite? && raw.n.r > 0.0 {
      assert given == 0;
    }
  }

  /** A request without a user, or whose items are not an object, is
    * refused with 400 and writes nothing; otherwise the string items are
    * stored and a later read of the same user finds exactly what the
    * route answered. */
  lemma UpsertThenGet(files: Files, userParam: JsValue, body: JsValue, now: nat)
    ensures var (resp, after) := UpsertRoute(files, userParam, body, now);
      && (resp.Failure? ==> resp.status == 400 && after == files)
      && (NormalizeUser(userParam) != "" && !(body.Obj? && Get(body, "items").Obj?) ==> resp == BadRequest(ItemsMessage))
      && (resp.Success? ==> (resp.data.items == StringEntries(Get(body, "items").fields)
                             && GetRoute(after, userParam) == resp))
  {
    var user := NormalizeUser(userParam);
    if user != "" && body.Obj? && Get(body, "items").Obj? {
      var s := Payload(user, Finite(GivenUpdatedAt(body, now) as real), StringEntries(Get(body, "items").fields), now);
      assert s.updatedAt >= 0;
      ReadAfterWrite(files, s);
    }
  }

  /** The settings routes over the settings directory. */
  method GetSettings(store: SettingsStore, userParam: JsValue) returns (resp: Response<SettingsReply>)
    ensures resp == GetRoute(store.files, userParam)
  {
    var user := NormalizeUser(userParam);
    if user == "" {
      return BadRequest(UserRequiredMessage);
    }
    var data := store.ReadUserSettings(user);
    match data {
      case Err(e) => resp := ServerError(LoadFailedMessage, e);
      case Ok(None) => resp := OkResponse(SettingsReply(user, false, 0, map[]));
      case Ok(Some(d)) => resp := OkResponse(SettingsReply(d.user, true, d.updatedAt, d.items));
    }
  }

  method UpsertSettings(store: SettingsStore, userParam: JsValue, body: JsValue, now: int) returns (resp: Response<SettingsReply>)
    modifies store
    ensures (resp, store.files) == UpsertRoute(old(store.files), userParam, body, now)
  {
    var user := NormalizeUser(userParam);
    if user == "" {
      return BadRequest(UserRequiredMessage);
    }
    var rawItems := if body.Obj? then Get(body, "items") else Null;
    if !rawItems.Obj? {
      return BadRequest(ItemsMessage);
    }
    var items := KeepStrings(rawItems.fields);
    var updatedAt := GivenUpdatedAt(body, now);
    var s := store.WriteUserSettings(user, Finite(updatedAt as real), items, now);
    resp := OkResponse(SettingsReply(s.user, true, s.updatedAt, s.items));
  }
}
