/** The access-control status monitor: once a minute it lists the TAG gates
  * and the facial doors, probes each one over HTTP (a gate at its
  * healthcheck endpoint, a door at its IP) and replaces a status cache that
  * the status route returns as it stands. A refresh that fails keeps the
  * last gates and doors and records only the error.
  *
  * The two listing queries, the probes, the clock and `JSON.stringify` are
  * parameters. */
module AccessControlService {
  import opened Wrappers
  import opened JsText
  import opened JsValues
  import opened ControlRepository

  const DefaultTimeoutMs := 5000.0
  const DefaultBasePort := 4000.0
  const DefaultStatusHost := "192.168.0.250"
  const HealthcheckPath := "/v2/api/healthcheck"
  const WaitingMessage := "Aguardando dados serem atualizados."
  const NoDoorIpMessage := "IP da porta nao configurado."
  const UnexpectedMessage := "Erro inesperado ao chamar servico de controle."

  // ---------------------------------------------------------------------
  // Configuration
  // ---------------------------------------------------------------------

  /** A configured number, or `fallback` when it is NaN or not positive
    * (`Number.isNaN(n) || n <= 0`); positive infinity is kept. */
  function PositiveOr(n: Num, fallback: real): (r: Num)
    ensures n.NaN? || n.NegInf? || (n.Finite? && n.r <= 0.0) ==> r == Finite(fallback)
    ensures n.PosInf? || (n.Finite? && n.r > 0.0) ==> r == n
  {
    if Greater(n, 0.0) then n else Finite(fallback)
  }

  /** `resolveControlTimeout` on `Number(env || '5000')`: a set variable
    * that reads as a positive number is kept, anything else gives 5000 ms. */
  function ResolveControlTimeout(env: JsValue): (ms: Num)
    ensures Greater(ms, 0.0)
    ensures Truthy(env) && Greater(NumberOf(env), 0.0) ==> ms == NumberOf(env)
    ensures !(Truthy(env) && Greater(NumberOf(env), 0.0)) ==> ms == Finite(DefaultTimeoutMs)
  {
    NumeralReads(5000, "5000");
    PositiveOr(NumberOf(Or(env, Str("5000"))), DefaultTimeoutMs)
  }

  /** `resolveTagBasePort` on `Number(env || '4000')`: a set variable that
    * reads as a positive number is kept, anything else gives port 4000. */
  function ResolveTagBasePort(env: JsValue): (port: Num)
    ensures Greater(port, 0.0)
    ensures Truthy(env) && Greater(NumberOf(env), 0.0) ==> port == NumberOf(env)
    ensures !(Truthy(env) && Greater(NumberOf(env), 0.0)) ==> port == Finite(DefaultBasePort)
  {
    NumeralReads(4000, "4000");
    PositiveOr(NumberOf(Or(env, Str("4000"))), DefaultBasePort)
  }

  /** `process.env.TAG_CONTROL_HOST?.trim() || fallback`. */
  function TagControlHost(env: Option<string>, fallback: string): (host: string)
    ensures env.Some? && !IsBlank(env.value) ==> host == Trim(env.value)
    ensures env.None? || IsBlank(env.value) ==> host == fallback
  {
    if env.Some? && Trim(env.value) != [] then Trim(env.value) else fallback
  }

  /** `a + x` for a finite `x`. */
  function AddNum(a: Num, x: real): (s: Num)
    ensures a.Finite? ==> s == Finite(a.r + x)
    ensures !a.Finite? ==> s == a
  {
    match a
    case Finite(r) => Finite(r + x)
    case _ => a
  }

  /** Where a gate's TAG service listens. */
  datatype GateAddress = GateAddress(url: string, port: Num)

  /** `http://<host>:<port>` with `port = basePort + numeroDispositivo`
    * (the control routes' `buildGateBaseUrl`). */
  function GateBaseUrl(host: string, basePort: Num, numeroDispositivo: real): (a: GateAddress)
    ensures a.port == AddNum(basePort, numeroDispositivo)
    ensures StartsWith(a.url, "http://" + host + ":") && EndsWith(a.url, NumToStr(a.port))
  {
    var port := AddNum(basePort, numeroDispositivo);
    var prefix := "http://" + host + ":";
    assert (prefix + NumToStr(port))[..|prefix|] == prefix;
    GateAddress(prefix + NumToStr(port), port)
  }

  /** Two hosts that differ at some position give a probe address that does
    * not lie under the other host's gate address. */
  lemma ProbeNotUnder(h1: string, h2: string, basePort: Num, n: real, k: nat)
    requires k < |h1| && k < |h2| && h1[k] != h2[k]
    ensures !StartsWith(BuildGateHealthcheckUrl(h2, basePort, n), GateBaseUrl(h1, basePort, n).url)
  {
    var p1 := "http://" + h1 + ":";
    var p2 := "http://" + h2 + ":";
    assert p1[7 + k] == h1[k];
    assert p2[7 + k] == h2[k];
  }

  /** `buildGateHealthcheckUrl`: the gate's base URL followed by the
    * healthcheck path. */
  function BuildGateHealthcheckUrl(host: string, basePort: Num, numeroDispositivo: real): (url: string)
    ensures EndsWith(url, HealthcheckPath)
    ensures StartsWith(url, GateBaseUrl(host, basePort, numeroDispositivo).url)
  {
    var base := GateBaseUrl(host, basePort, numeroDispositivo).url;
    assert (base + HealthcheckPath)[..|base|] == base;
    base + HealthcheckPath
  }

  // ---------------------------------------------------------------------
  // Errors and probes
  // ---------------------------------------------------------------------

  datatype AxiosResponse = AxiosResponse(status: nat, data: JsValue)

  /** What a request or a query throws: an axios error (with the response,
    * when one came back), any other `Error`, or a value that is not an
    * `Error` at all. */
  datatype ControlError =
    | Axios(message: string, response: Option<AxiosResponse>)
    | Plain(message: string)
    | NonError(value: JsValue)

  datatype Mapped = Mapped(status: nat, message: JsValue)

  /** `mapAxiosError`: 500 with a fixed message for anything but an axios
    * error; for an axios error, the response status (502 when there is no
    * response or its status is 0) and the response body, or the error
    * message when the body is falsy. */
  function MapAxiosError(e: ControlError, unexpected: string): (m: Mapped)
    ensures !e.Axios? ==> m == Mapped(500, Str(unexpected))
    ensures e.Axios? && e.response.Some? && e.response.value.status != 0 ==> m.status == e.response.value.status
    ensures e.Axios? && (e.response.None? || e.response.value.status == 0) ==> m.status == 502
    ensures e.Axios? && (e.response.None? || !Truthy(e.response.value.data)) ==> m.message == Str(e.message)
    ensures m.status != 0
  {
    match e
    case Axios(message, response) =>
      var status := if response.Some? && response.value.status != 0 then response.value.status else 502;
      var body := if response.Some? then response.value.data else Undefined;
      Mapped(status, Or(body, Str(message)))
    case _ => Mapped(500, Str(unexpected))
  }

  /** The outcome of one probe: a response with any status, or an error. */
  datatype Probe = Answered(status: nat) | Failed(error: ControlError)

  datatype HttpStatus = HttpStatus(online: bool, statusCode: Option<nat>, error: Option<string>)

  /** `resolveHttpStatus`: online exactly when the answer is 200; a failed
    * probe is offline with the mapped status and the mapped message as text
    * (`JSON.stringify` when it is not a string). */
  function ResolveHttpStatus(outcome: Probe, stringify: JsValue -> string): (s: HttpStatus)
    ensures s.online <==> outcome == Answered(200)
    ensures outcome.Answered? ==> s.statusCode == Some(outcome.status) && s.error.None?
    ensures outcome.Failed? ==> s.statusCode == Some(MapAxiosError(outcome.error, UnexpectedMessage).status) && s.error.Some?
  {
    match outcome
    case Answered(status) => HttpStatus(status == 200, Some(status), None)
    case Failed(e) =>
      var mapped := MapAxiosError(e, UnexpectedMessage);
      HttpStatus(false, Some(mapped.status), Some(if mapped.message.Str? then mapped.message.s else stringify(mapped.message)))
  }

  // ---------------------------------------------------------------------
  // Statuses
  // ---------------------------------------------------------------------

  datatype GateStatus = GateStatus(id: real, nome: string, numeroDispositivo: real, ip: string, porta: real,
                                   healthcheckUrl: string, online: bool, statusCode: Option<nat>, error: Option<string>)

  datatype DoorStatus = DoorStatus(id: real, nome: string, ip: string, porta: real, url: Option<string>,
                                   online: bool, statusCode: Option<nat>, error: Option<string>)

  /** Where and how the monitor probes: the host and base port of the TAG
    * services. */
  datatype Config = Config(host: string, basePort: Num)

  /** The status of one gate, probed at its healthcheck URL. */
  function GateStatusOf(cfg: Config, g: GateDevice, probe: string -> Probe, stringify: JsValue -> string): (s: GateStatus)
    ensures s.id == g.sequencia && s.numeroDispositivo == g.numeroDispositivo && s.nome == g.nome
    ensures s.healthcheckUrl == BuildGateHealthcheckUrl(cfg.host, cfg.basePort, g.numeroDispositivo)
    ensures s.online <==> probe(s.healthcheckUrl) == Answered(200)
  {
    var url := BuildGateHealthcheckUrl(cfg.host, cfg.basePort, g.numeroDispositivo);
    var status := ResolveHttpStatus(probe(url), stringify);
    GateStatus(g.sequencia, g.nome, g.numeroDispositivo, g.ip, g.porta, url, status.online, status.statusCode, status.error)
  }

  /** The status of one door: without an IP it is offline with a fixed
    * error and is not probed; otherwise it is probed at `http://<ip>`. */
  function DoorStatusOf(d: DoorDevice, probe: string -> Probe, stringify: JsValue -> string): (s: DoorStatus)
    ensures s.id == d.sequencia && s.ip == d.ip && s.nome == d.nome
    ensures d.ip == "" ==> s == DoorStatus(d.sequencia, d.nome, d.ip, d.porta, None, false, None, Some(NoDoorIpMessage))
    ensures d.ip != "" ==> s.url == Some("http://" + d.ip) && (s.online <==> probe("http://" + d.ip) == Answered(200))
  {
    if d.ip == "" then DoorStatus(d.sequencia, d.nome, d.ip, d.porta, None, false, None, Some(NoDoorIpMessage))
    else
      var url := "http://" + d.ip;
      var status := ResolveHttpStatus(probe(url), stringify);
      DoorStatus(d.sequencia, d.nome, d.ip, d.porta, Some(url), status.online, status.statusCode, status.error)
  }

  /** A door without an IP is never probed: its status is the same whatever
    * the network would have answered. */
  lemma DoorWithoutIpNotProbed(d: DoorDevice, probe1: string -> Probe, probe2: string -> Probe,
                               stringify: JsValue -> string)
    requires d.ip == ""
    ensures DoorStatusOf(d, probe1, stringify) == DoorStatusOf(d, probe2, stringify)
    ensures !DoorStatusOf(d, probe1, stringify).online
  {
  }

  // ---------------------------------------------------------------------
  // The cache
  // ---------------------------------------------------------------------

  datatype Cache = Cache(updatedAt: Option<string>, gates: seq<GateStatus>, doors: seq<DoorStatus>, error: Option<string>)

  const InitialCache := Cache(None, [], [], Some(WaitingMessage))

  /** The error text recorded: an `Error`'s message, else `String(error)`. */
  function ErrorText(e: ControlError): string
  {
    match e
    case Axios(message, _) => message
    case Plain(message) => message
    case NonError(v) => ToStr(v)
  }

  /** The gate statuses of a gate listing, in its order. */
  function GateStatuses(cfg: Config, gates: seq<GateDevice>, probe: string -> Probe, stringify: JsValue -> string): (ss: seq<GateStatus>)
    ensures |ss| == |gates|
    ensures forall i :: 0 <= i < |gates| ==> ss[i] == GateStatusOf(cfg, gates[i], probe, stringify)
  {
    seq(|gates|, i requires 0 <= i < |gates| => GateStatusOf(cfg, gates[i], probe, stringify))
  }

  /** The door statuses of a door listing, in its order. */
  function DoorStatuses(doors: seq<DoorDevice>, probe: string -> Probe, stringify: JsValue -> string): (ss: seq<DoorStatus>)
    ensures |ss| == |doors|
    ensures forall i :: 0 <= i < |doors| ==> ss[i] == DoorStatusOf(doors[i], probe, stringify)
  {
    seq(|doors|, i requires 0 <= i < |doors| => DoorStatusOf(doors[i], probe, stringify))
  }

  /** `updateAccessControlStatusCache` on the cache: the two listings (each
    * the query's result, or what it threw) both succeed and the cache is
    * replaced, stamped with `now`; or one fails and only its error is
    * recorded. When both fail, the gate listing's error is the one kept. */
  function Refreshed(c: Cache, cfg: Config, gatesQuery: Result<JsValue, ControlError>, doorsQuery: Result<JsValue, ControlError>,
                     probe: string -> Probe, stringify: JsValue -> string, now: string): Cache
  {
    match (gatesQuery, doorsQuery)
    case (Err(e), _) => c.(error := Some(ErrorText(e)))
    case (Ok(_), Err(e)) => c.(error := Some(ErrorText(e)))
    case (Ok(gateRows), Ok(doorRows)) =>
      Cache(Some(now), GateStatuses(cfg, ListAvailableGates(gateRows), probe, stringify),
            DoorStatuses(ListAvailableDoors(doorRows), probe, stringify), None)
  }

  /** A successful refresh replaces everything and clears the error, one
    * status per listed device in listing order; a failed one keeps the
    * previous gates, doors and time and records an error. */
  lemma RefreshOutcome(c: Cache, cfg: Config, gatesQuery: Result<JsValue, ControlError>, doorsQuery: Result<JsValue, ControlError>,
                       probe: string -> Probe, stringify: JsValue -> string, now: string)
    ensures var r := Refreshed(c, cfg, gatesQuery, doorsQuery, probe, stringify, now);
      && (gatesQuery.Ok? && doorsQuery.Ok? ==>
            && r.updatedAt == Some(now) && r.error.None?
            && |r.gates| == |ListAvailableGates(gatesQuery.value)|
            && |r.doors| == |ListAvailableDoors(doorsQuery.value)|
            && (forall i :: 0 <= i < |r.gates| ==> r.gates[i].id == ListAvailableGates(gatesQuery.value)[i].sequencia)
            && (forall i :: 0 <= i < |r.doors| ==> r.doors[i].id == ListAvailableDoors(doorsQuery.value)[i].sequencia))
      && (gatesQuery.Err? || doorsQuery.Err? ==>
            && r.updatedAt == c.updatedAt && r.gates == c.gates && r.doors == c.doors && r.error.Some?)
  {
  }

  /** A failed refresh after a successful one still shows the devices found
    * by the successful one. */
  lemma FailureKeepsLastStatus(c: Cache, cfg: Config, gateRows: JsValue, doorRows: JsValue, e: ControlError,
                               probe: string -> Probe, stringify: JsValue -> string, now: string, later: string)
    ensures var ok := Refreshed(c, cfg, Ok(gateRows), Ok(doorRows), probe, stringify, now);
      var failed := Refreshed(ok, cfg, Err(e), Ok(doorRows), probe, stringify, later);
      && failed.gates == ok.gates && failed.doors == ok.doors && failed.updatedAt == Some(now)
      && failed.error == Some(ErrorText(e))
  {
  }

  /** The status monitor: the configuration it was started with and the
    * cache it keeps. */
  class AccessControlMonitor {
    const cfg: Config
    var cache: Cache

    constructor (hostEnv: Option<string>, basePortEnv: JsValue)
      ensures cfg == Config(TagControlHost(hostEnv, DefaultStatusHost), ResolveTagBasePort(basePortEnv))
      ensures cache == InitialCache
    {
      cfg := Config(TagControlHost(hostEnv, DefaultStatusHost), ResolveTagBasePort(basePortEnv));
      cache := InitialCache;
    }

    /** `updateAccessControlStatusCache`. */
    method UpdateAccessControlStatusCache(gatesQuery: Result<JsValue, ControlError>, doorsQuery: Result<JsValue, ControlError>,
                                          probe: string -> Probe, stringify: JsValue -> string, now: string)
      modifies this
      ensures cache == Refreshed(old(cache), cfg, gatesQuery, doorsQuery, probe, stringify, now)
    {
      if gatesQuery.Err? {
        cache := cache.(error := Some(ErrorText(gatesQuery.error)));
      } else if doorsQuery.Err? {
        cache := cache.(error := Some(ErrorText(doorsQuery.error)));
      } else {
        var gates := ListAvailableGates(gatesQuery.value);
        var doors := ListAvailableDoors(doorsQuery.value);
        var gatesStatus := GateStatuses(cfg, gates, probe, stringify);
        var doorsStatus := DoorStatuses(doors, probe, stringify);
        cache := Cache(Some(now), gatesStatus, doorsStatus, None);
      }
    }

    /** `getAccessControlStatusCache`. */
    function GetAccessControlStatusCache(): (c: Cache)
      reads this
      ensures c == cache
    {
      cache
    }
  }
}
