/** The access-control routes: open or restart a TAG gate through its TAG
  * service, open a facial door through the device itself, list the gates
  * and the doors, and return the status monitor's cache.
  *
  * The database lookups (each the query's result, or what it threw) and the
  * outgoing POST requests are parameters. The door's `Authorization` header
  * is given as the `user:password` text it encodes; the Base64 encoding is
  * not modelled. */
module ControlController {
  import opened Wrappers
  import opened JsText
  import opened JsValues
  import opened HttpReplies
  import opened ControlRepository
  import opened AccessControlService

  const DefaultControlHost := "192.168.0.252"
  const DefaultAutoCloseTime := 15.0

  const IdRequiredMessage := "Parâmetro id é obrigatório."
  const IdInvalidMessage := "Parâmetro id inválido."
  const GateNotFoundMessage := "Portão não encontrado ou inativo."
  const AutoCloseInvalidMessage := "Parâmetro autoCloseTime inválido."
  const OpenGateFailedMessage := "Erro ao acionar abertura do portão."
  const RestartGateFailedMessage := "Erro ao reiniciar portão."
  const DoorNotFoundMessage := "Porta não encontrada ou inativa."
  const DoorIpMissingMessage := "IP da porta não configurado."
  const DoorCredentialsMessage := "Credenciais da porta não configuradas."
  const OpenDoorFailedMessage := "Erro ao acionar abertura da porta."
  const ListDoorsFailedMessage := "Erro ao listar portas."
  const ListGatesFailedMessage := "Erro ao listar portões."
  const ControlUnexpectedMessage := "Erro inesperado ao chamar serviço de controle."

  /** The routes' configuration: the TAG host, its base port and the request
    * timeout. */
  datatype ControlConfig = ControlConfig(host: string, basePort: Num, timeout: Num)

  function ConfigOf(hostEnv: Option<string>, basePortEnv: JsValue, timeoutEnv: JsValue): (c: ControlConfig)
    ensures hostEnv.Some? && !IsBlank(hostEnv.value) ==> c.host == Trim(hostEnv.value)
    ensures hostEnv.None? || IsBlank(hostEnv.value) ==> c.host == DefaultControlHost
    ensures Greater(c.basePort, 0.0) && Greater(c.timeout, 0.0)
    ensures Truthy(basePortEnv) && Greater(NumberOf(basePortEnv), 0.0) ==> c.basePort == NumberOf(basePortEnv)
    ensures !(Truthy(basePortEnv) && Greater(NumberOf(basePortEnv), 0.0)) ==> c.basePort == Finite(DefaultBasePort)
    ensures Truthy(timeoutEnv) && Greater(NumberOf(timeoutEnv), 0.0) ==> c.timeout == NumberOf(timeoutEnv)
    ensures !(Truthy(timeoutEnv) && Greater(NumberOf(timeoutEnv), 0.0)) ==> c.timeout == Finite(DefaultTimeoutMs)
  {
    ControlConfig(TagControlHost(hostEnv, DefaultControlHost), ResolveTagBasePort(basePortEnv),
                  ResolveControlTimeout(timeoutEnv))
  }

  /** With no host configured, the routes command a gate on one host while
    * the status monitor probes the same gate on another. */
  lemma DefaultHostsDiffer(basePortEnv: JsValue, timeoutEnv: JsValue, n: real)
    ensures var open := GateBaseUrl(ConfigOf(None, basePortEnv, timeoutEnv).host, ResolveTagBasePort(basePortEnv), n).url;
      var monitor := AccessControlMonitorConfig(None, basePortEnv);
      !StartsWith(BuildGateHealthcheckUrl(monitor.host, monitor.basePort, n), open)
  {
    assert DefaultControlHost[12] == '2' && DefaultStatusHost[12] == '0';
    ProbeNotUnder(DefaultControlHost, DefaultStatusHost, ResolveTagBasePort(basePortEnv), n, 12);
  }

  /** The configuration the status monitor is built with. */
  function AccessControlMonitorConfig(hostEnv: Option<string>, basePortEnv: JsValue): Config
  {
    Config(TagControlHost(hostEnv, DefaultStatusHost), ResolveTagBasePort(basePortEnv))
  }

  /** What `resolveIdNumber` returns: `null`, `NaN` or a positive number. */
  datatype IdNumber = NoId | InvalidId | Id(n: real)

  /** `resolveIdNumber`: nothing for `undefined`, `null` and `''`; else the
    * value as a number when it is finite and positive, else NaN. */
  function ResolveIdNumber(v: JsValue): (id: IdNumber)
    ensures id.NoId? <==> v == Undefined || v == Null || v == Str("")
    ensures id.Id? ==> id.n > 0.0 && NumberOf(v) == Finite(id.n)
    ensures id.InvalidId? <==> !id.NoId? && !(NumberOf(v).Finite? && NumberOf(v).r > 0.0)
  {
    if v == Undefined || v == Null || v == Str("") then NoId
    else
      var parsed := NumberOf(v);
      if !parsed.Finite? || parsed.r <= 0.0 then InvalidId else Id(parsed.r)
  }

  /** `req.body?.[name] ?? req.query?.[name]`. */
  function Param(body: JsValue, query: JsValue, name: string): JsValue
  {
    Coalesce(Get(body, name), Get(query, name))
  }

  /** The `autoCloseTime` sent to the gate: 15 when none is given (absent,
    * `null` or `''`), the given number when it is finite and positive, and
    * nothing (the request is refused) otherwise. */
  function AutoCloseTime(raw: JsValue): (t: Option<real>)
    ensures raw == Undefined || raw == Null || raw == Str("") ==> t == Some(DefaultAutoCloseTime)
    ensures t.Some? ==> t.value > 0.0
    ensures !(raw == Undefined || raw == Null || raw == Str("")) ==>
      (t.Some? <==> NumberOf(raw).Finite? && NumberOf(raw).r > 0.0) && (t.Some? ==> t.value == NumberOf(raw).r)
  {
    if raw == Undefined || raw == Null || raw == Str("") then Some(DefaultAutoCloseTime)
    else
      var parsed := NumberOf(raw);
      if !parsed.Finite? || parsed.r <= 0.0 then None else Some(parsed.r)
  }

  /** A POST request: the URL, the JSON body, the `user:password` of a Basic
    * `Authorization` header when one is sent, and the timeout. */
  datatype PostRequest = PostRequest(url: string, body: JsValue, basicAuth: Option<string>, timeout: Num)

  /** `res.fail(message, mapped.status, mapped.message)` for an error the
    * route caught. */
  function CaughtFailure<T>(message: string, e: ControlError): (r: Response<T>)
    ensures r.Failure? && r.message == message && r.status != 0
    ensures !e.Axios? ==> r.status == 500
  {
    var mapped := MapAxiosError(e, ControlUnexpectedMessage);
    Failure(mapped.status, message, mapped.message)
  }

  datatype GateReply = GateReply(id: real, port: Num, response: JsValue)

  /** The request that opens a gate. */
  function OpenGateRequest(cfg: ControlConfig, g: GateDevice, autoClose: real): PostRequest
  {
    PostRequest(GateBaseUrl(cfg.host, cfg.basePort, g.numeroDispositivo).url + "/v2/api/gate/open",
                Obj(map["autoCloseTime" := Number(Finite(autoClose))]), None, cfg.timeout)
  }

  /** `openGateControl`: check the id, find the active gate, check
    * `autoCloseTime`, then ask the gate's TAG service to open it. */
  function OpenGateRoute(cfg: ControlConfig, body: JsValue, query: JsValue,
                         findGate: real -> Result<JsValue, ControlError>,
                         post: PostRequest -> Result<JsValue, ControlError>): (r: Response<GateReply>)
    ensures ResolveIdNumber(Param(body, query, "id")).NoId? ==> r == BadRequest(IdRequiredMessage)
    ensures ResolveIdNumber(Param(body, query, "id")).InvalidId? ==> r == BadRequest(IdInvalidMessage)
    ensures r.Success? ==> r.status == 200 && r.data.port == AddNum(cfg.basePort, r.data.id)
  {
    match ResolveIdNumber(Param(body, query, "id"))
    case NoId => BadRequest(IdRequiredMessage)
    case InvalidId => BadRequest(IdInvalidMessage)
    case Id(n) =>
      match findGate(n)
      case Err(e) => CaughtFailure(OpenGateFailedMessage, e)
      case Ok(rows) =>
        match GetGateByNumeroDispositivo(rows)
        case None => Failure(404, GateNotFoundMessage, Null)
        case Some(g) =>
          match AutoCloseTime(Param(body, query, "autoCloseTime"))
          case None => BadRequest(AutoCloseInvalidMessage)
          case Some(t) =>
            var address := GateBaseUrl(cfg.host, cfg.basePort, g.numeroDispositivo);
            match post(OpenGateRequest(cfg, g, t))
            case Err(e) => CaughtFailure(OpenGateFailedMessage, e)
            case Ok(data) => OkResponse(GateReply(g.numeroDispositivo, address.port, data))
  }

  /** A missing or invalid id, an unknown gate and an invalid
    * `autoCloseTime` are answered before any request to the gate: the
    * answer is the same whatever the gate would have said. */
  lemma OpenGateRejectsBeforeRequest(cfg: ControlConfig, body: JsValue, query: JsValue,
                                     findGate: real -> Result<JsValue, ControlError>,
                                     post1: PostRequest -> Result<JsValue, ControlError>,
                                     post2: PostRequest -> Result<JsValue, ControlError>)
    requires var id := ResolveIdNumber(Param(body, query, "id"));
      || !id.Id?
      || (findGate(id.n).Ok? && GetGateByNumeroDispositivo(findGate(id.n).value).None?)
      || AutoCloseTime(Param(body, query, "autoCloseTime")).None?
    ensures OpenGateRoute(cfg, body, query, findGate, post1) == OpenGateRoute(cfg, body, query, findGate, post2)
    ensures OpenGateRoute(cfg, body, query, findGate, post1).Failure?
  {
  }

  /** When the gate opens, the TAG service was asked at the gate's port with
    * the given `autoCloseTime`, or 15 when none was given. */
  lemma OpenGateRequestSent(cfg: ControlConfig, body: JsValue, query: JsValue,
                            findGate: real -> Result<JsValue, ControlError>,
                            post: PostRequest -> Result<JsValue, ControlError>)
    requires OpenGateRoute(cfg, body, query, findGate, post).Success?
    requires Param(body, query, "autoCloseTime") == Undefined
    ensures var id := ResolveIdNumber(Param(body, query, "id"));
      && id.Id? && findGate(id.n).Ok?
      && var g := GetGateByNumeroDispositivo(findGate(id.n).value);
      && g.Some?
      && post(OpenGateRequest(cfg, g.value, DefaultAutoCloseTime)).Ok?
      && OpenGateRequest(cfg, g.value, DefaultAutoCloseTime).body == Obj(map["autoCloseTime" := Number(Finite(15.0))])
  {
  }

  /** `restartGateControl`: check the id, find the active gate and ask its
    * TAG service to restart, with an empty body. */
  function RestartGateRoute(cfg: ControlConfig, body: JsValue, query: JsValue,
                            findGate: real -> Result<JsValue, ControlError>,
                            post: PostRequest -> Result<JsValue, ControlError>): (r: Response<GateReply>)
    ensures ResolveIdNumber(Param(body, query, "id")).NoId? ==> r == BadRequest(IdRequiredMessage)
    ensures ResolveIdNumber(Param(body, query, "id")).InvalidId? ==> r == BadRequest(IdInvalidMessage)
    ensures r.Success? ==> r.status == 200 && r.data.port == AddNum(cfg.basePort, r.data.id)
  {
    match ResolveIdNumber(Param(body, query, "id"))
    case NoId => BadRequest(IdRequiredMessage)
    case InvalidId => BadRequest(IdInvalidMessage)
    case Id(n) =>
      match findGate(n)
      case Err(e) => CaughtFailure(RestartGateFailedMessage, e)
      case Ok(rows) =>
        match GetGateByNumeroDispositivo(rows)
        case None => Failure(404, GateNotFoundMessage, Null)
        case Some(g) =>
          var address := GateBaseUrl(cfg.host, cfg.basePort, g.numeroDispositivo);
          match post(PostRequest(address.url + "/v2/api/gate/restart", Null, None, cfg.timeout))
          case Err(e) => CaughtFailure(RestartGateFailedMessage, e)
          case Ok(data) => OkResponse(GateReply(g.numeroDispositivo, address.port, data))
  }

  datatype DoorReply = DoorReply(id: real, porta: real, deviceId: real, response: JsValue)

  /** The request that opens a facial door: the device's own `OpenDoor`
    * action on channel 0, authenticated with its API credentials. */
  function OpenDoorRequest(d: DoorDevice, timeout: Num): PostRequest
  {
    var info := Obj(map["DeviceID" := Str(NumToStr(Finite(d.deviceId))), "CHN" := Number(Finite(0.0)),
                        "status" := Number(Finite(1.0)), "msg" := Str("")]);
    PostRequest("http://" + d.ip + "/action/OpenDoor", Obj(map["operator" := Str("OpenDoor"), "info" := info]),
                Some(d.usuarioApi + ":" + d.senhaApi), timeout)
  }

  /** `openDoorControl`: check the id, find the active door, require its IP
    * and both credentials, then ask the door to open. */
  function OpenDoorRoute(cfg: ControlConfig, body: JsValue, query: JsValue,
                         findDoor: real -> Result<JsValue, ControlError>,
                         post: PostRequest -> Result<JsValue, ControlError>): (r: Response<DoorReply>)
    ensures ResolveIdNumber(Param(body, query, "id")).NoId? ==> r == BadRequest(IdRequiredMessage)
    ensures ResolveIdNumber(Param(body, query, "id")).InvalidId? ==> r == BadRequest(IdInvalidMessage)
  {
    match ResolveIdNumber(Param(body, query, "id"))
    case NoId => BadRequest(IdRequiredMessage)
    case InvalidId => BadRequest(IdInvalidMessage)
    case Id(n) =>
      match findDoor(n)
      case Err(e) => CaughtFailure(OpenDoorFailedMessage, e)
      case Ok(rows) =>
        match GetDoorById(rows)
        case None => Failure(404, DoorNotFoundMessage, Null)
        case Some(d) =>
          if d.ip == "" then BadRequest(DoorIpMissingMessage)
          else if d.usuarioApi == "" || d.senhaApi == "" then BadRequest(DoorCredentialsMessage)
          else
            match post(OpenDoorRequest(d, cfg.timeout))
            case Err(e) => CaughtFailure(OpenDoorFailedMessage, e)
            case Ok(data) => OkResponse(DoorReply(d.sequencia, d.porta, d.deviceId, data))
  }

  /** A door without an IP or without either credential is refused with 400
    * before any request to it; a door that opens had both, and the request
    * went to its own IP with them. */
  lemma OpenDoorChecksDevice(cfg: ControlConfig, body: JsValue, query: JsValue,
                             findDoor: real -> Result<JsValue, ControlError>,
                             post1: PostRequest -> Result<JsValue, ControlError>,
                             post2: PostRequest -> Result<JsValue, ControlError>)
    requires var id := ResolveIdNumber(Param(body, query, "id"));
      id.Id? && findDoor(id.n).Ok? && GetDoorById(findDoor(id.n).value).Some?
    ensures var d := GetDoorById(findDoor(ResolveIdNumber(Param(body, query, "id")).n).value).value;
      var r := OpenDoorRoute(cfg, body, query, findDoor, post1);
      && (d.ip == "" || d.usuarioApi == "" || d.senhaApi == "" ==>
            r.Failure? && r.status == 400 && r == OpenDoorRoute(cfg, body, query, findDoor, post2))
      && (r.Success? ==> d.ip != "" && d.usuarioApi != "" && d.senhaApi != ""
                         && OpenDoorRequest(d, cfg.timeout).url == "http://" + d.ip + "/action/OpenDoor"
                         && r.data.deviceId == d.deviceId)
  {
  }

  /** `error instanceof Error ? error.message : error`. */
  function ErrorDetail(e: ControlError): (v: JsValue)
    ensures !e.NonError? ==> v == Str(e.message)
  {
    match e
    case NonError(v) => v
    case _ => Str(e.message)
  }

  /** `listDoorsControl` on the outcome of the door listing query. */
  function ListDoorsRoute(result: Result<JsValue, ControlError>): (r: Response<seq<DoorDevice>>)
    ensures result.Ok? ==> r == OkResponse(ListAvailableDoors(result.value))
    ensures result.Err? ==> r.Failure? && r.status == 500 && r.message == ListDoorsFailedMessage
  {
    match result
    case Ok(rows) => OkResponse(ListAvailableDoors(rows))
    case Err(e) => Failure(500, ListDoorsFailedMessage, ErrorDetail(e))
  }

  /** `listGatesControl` on the outcome of the gate listing query. */
  function ListGatesRoute(result: Result<JsValue, ControlError>): (r: Response<seq<GateDevice>>)
    ensures result.Ok? ==> r == OkResponse(ListAvailableGates(result.value))
    ensures result.Err? ==> r.Failure? && r.status == 500 && r.message == ListGatesFailedMessage
  {
    match result
    case Ok(rows) => OkResponse(ListAvailableGates(rows))
    case Err(e) => Failure(500, ListGatesFailedMessage, ErrorDetail(e))
  }

  /** `statusGatesAndDoorsControl`: the monitor's cache as it stands. */
  method StatusGatesAndDoorsControl(monitor: AccessControlMonitor) returns (r: Response<Cache>)
    ensures r == OkResponse(monitor.cache)
  {
    var cache := monitor.GetAccessControlStatusCache();
    r := OkResponse(cache);
  }
}
