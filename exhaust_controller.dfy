/** The HTTP handlers of the exhaust-fan routes. Each checks the request
  * body, answers 400 before touching the service when a check fails, and
  * otherwise calls the service once and wraps its result or its error. */
module ExhaustController {
  import opened Wrappers
  import opened JsValues
  import opened OrderedMaps
  import opened ExhaustUnits
  import opened ExhaustService
  import opened ExhaustMachine
  import opened RelayRequests
  import opened HttpReplies

  /** The data of a successful turn-on. */
  datatype TurnedOn = TurnedOn(id: string, status: string, autoOffMinutes: Option<real>, result: JsValue, memory: Option<MemoryView>)

  /** The data of a successful turn-off. */
  datatype TurnedOff = TurnedOff(id: string, status: string, result: TurnOffResult)

  /** The data of the status route: one unit, or every module. */
  datatype StatusAnswer =
    | UnitStatus(view: StatusView)
    | ModulesStatus(modules: map<string, CacheEntry>, memory: seq<MemoryEntry>)

  const ConfigureMissingMessage := "Parâmetros obrigatórios: módulo e comando."

  /** `serializeMemory(getExhaustMemory(id))`. */
  function SerializeState(m: Option<ExhaustState>): (r: Option<MemoryView>)
    ensures r.None? <==> m.None?
    ensures m.Some? ==> r.value == Serialize(m.value.id, m.value.unit, m.value.expiresAt)
  {
    match m
    case None => None
    case Some(s) => Some(Serialize(s.id, s.unit, s.expiresAt))
  }

  /** What the turn-on handler answers once the service has run on `c`. */
  function TurnOnAnswer(c: TurnOnCall, r: Result<JsValue, Fault>, w: World, k: Keying): Response<TurnedOn>
  {
    match r
    case Ok(result) => OkResponse(TurnedOn(c.id, "on", c.minutes, result, SerializeState(GetExhaustMemory(w, c.id, k))))
    case Err(f) => FailWith("Erro ao ligar exhaust", FaultThrown(f))
  }

  /** After a successful turn-on the answer shows the entry just stored:
    * the unit the id names, with the expiry of the requested minutes. */
  lemma TurnOnAnswerShowsEntry(env: Env, w: World, c: TurnOnCall, k: Keying)
    ensures var (r, w2) := TurnOnSpec(env, w, c.id, c.minutes, k);
      r.Ok? ==>
        var nid := NormalizeApartmentId(c.id);
        && ParseApartment(nid).Ok?
        && TurnOnAnswer(c, r, w2, k).data.memory
           == Some(Serialize(StateKey(k, nid, ParseApartment(nid).value), ParseApartment(nid).value, ExpiryFor(c.minutes, env.now)))
  {
    var nid := NormalizeApartmentId(c.id);
    var p := ParseApartment(nid);
    if p.Ok? {
      NormalizeIdempotent(c.id);
      TurnOnUnitEffect(env, w, StateKey(k, nid, p.value), p.value, c.minutes);
    }
  }

  /** `turnOnExhaustController`. */
  method TurnOnHandler(svc: Service, body: JsValue, now: nat) returns (resp: Response<TurnedOn>)
    modifies svc, svc.bus
    ensures TurnOnRequest(body).Err? ==>
      resp == BadRequest(TurnOnRequest(body).error) && unchanged(svc, svc.bus)
    ensures TurnOnRequest(body).Ok? ==>
      var c := TurnOnRequest(body).value;
      var (r, w) := TurnOnSpec(svc.EnvAt(now), old(svc.Current()), c.id, c.minutes, svc.keying);
      svc.Current() == w && resp == TurnOnAnswer(c, r, w, svc.keying)
  {
    var req := TurnOnRequest(body);
    if req.Err? {
      return BadRequest(req.error);
    }
    var r := svc.TurnOn(req.value.id, req.value.minutes, now);
    resp := TurnOnAnswer(req.value, r, svc.Current(), svc.keying);
  }

  /** `turnOffExhaustController`. */
  method TurnOffHandler(svc: Service, body: JsValue, now: nat) returns (resp: Response<TurnedOff>)
    modifies svc, svc.bus
    ensures TurnOffRequest(body).Err? ==>
      resp == BadRequest(MissingUnitMessage) && unchanged(svc, svc.bus)
    ensures TurnOffRequest(body).Ok? ==>
      var id := TurnOffRequest(body).value;
      var (r, w) := TurnOffSpec(svc.EnvAt(now), old(svc.Current()), id, svc.keying);
      svc.Current() == w
      && resp == match r
                 case Ok(result) => OkResponse(TurnedOff(id, "off", result))
                 case Err(f) => FailWith("Erro ao desligar exhaust", FaultThrown(f))
  {
    var req := TurnOffRequest(body);
    if req.Err? {
      return BadRequest(req.error);
    }
    var r := svc.TurnOff(req.value, now);
    if r.Ok? {
      resp := OkResponse(TurnedOff(req.value, "off", r.value));
    } else {
      resp := FailWith("Erro ao desligar exhaust", FaultThrown(r.error));
    }
  }

  /** The id of the status route: the path parameter when it is a
    * non-empty string, else the query parameter when it is one. */
  function StatusTarget(paramId: JsValue, queryId: JsValue): (r: Option<string>)
    ensures r.Some? ==> r.value != ""
    ensures paramId.Str? && paramId.s != "" ==> r == Some(paramId.s)
    ensures !(paramId.Str? && paramId.s != "") && queryId.Str? && queryId.s != "" ==> r == Some(queryId.s)
    ensures r.None? <==> !(paramId.Str? && paramId.s != "") && !(queryId.Str? && queryId.s != "")
  {
    if paramId.Str? && paramId.s != "" then Some(paramId.s)
    else if queryId.Str? && queryId.s != "" then Some(queryId.s)
    else None
  }

  /** `getExhaustStatusController`: one unit's status when an id is given,
    * else the status of every module. */
  method StatusHandler(svc: Service, paramId: JsValue, queryId: JsValue, now: nat) returns (resp: Response<StatusAnswer>)
    modifies svc, svc.bus
    ensures StatusTarget(paramId, queryId).Some? ==>
      unchanged(svc, svc.bus)
      && resp == match GetExhaustStatus(svc.Current(), StatusTarget(paramId, queryId).value, svc.keying, now)
                 case Ok(v) => OkResponse(UnitStatus(v))
                 case Err(f) => FailWith("Erro ao consultar status do exhaust", FaultThrown(f))
    ensures StatusTarget(paramId, queryId).None? ==>
      var ((modules, memory), w) := GetAllModulesStatus(svc.EnvAt(now), old(svc.Current()));
      svc.Current() == w && resp == OkResponse(ModulesStatus(modules, memory)) && svc.Flags() == old(svc.Flags())
  {
    var id := StatusTarget(paramId, queryId);
    if id.Some? {
      var v := GetExhaustStatus(svc.Current(), id.value, svc.keying, now);
      if v.Ok? {
        resp := OkResponse(UnitStatus(v.value));
      } else {
        resp := FailWith("Erro ao consultar status do exhaust", FaultThrown(v.error));
      }
    } else {
      var modules, memory := svc.AllModulesStatus(now);
      resp := OkResponse(ModulesStatus(modules, memory));
    }
  }

  /** The data of the process-status route (its time stamp is left out). */
  datatype ProcessStatus = ProcessStatus(total: nat, memory: seq<MemoryEntry>)

  /** `getExhaustProcessStatusController`: the memory of the table and its
    * size, read without touching the service. */
  method ProcessStatusHandler(svc: Service, now: nat) returns (resp: Response<ProcessStatus>)
    ensures resp.Success? && resp.status == 200
    ensures resp.data.total == |svc.states.keys| == |resp.data.memory|
    ensures forall i :: 0 <= i < |resp.data.memory| ==>
      resp.data.memory[i].id == svc.states.entries[svc.states.keys[i]].id
  {
    var w := svc.Current();
    var (total, memory) := GetExhaustProcessStatus(w, now);
    ProcessStatusCounts(w, now);
    resp := OkResponse(ProcessStatus(total, memory));
  }

  /** `configureExhaustController`. */
  method ConfigureHandler(svc: Service, body: JsValue, now: nat) returns (resp: Response<JsValue>)
    modifies svc.bus
    ensures ConfigureRequest(body).None? ==>
      resp == BadRequest(ConfigureMissingMessage) && unchanged(svc.bus)
    ensures ConfigureRequest(body).Some? ==>
      var (m, c) := ConfigureRequest(body).value;
      var (r, w) := ConfigureSpec(svc.EnvAt(now), old(svc.Current()), m, c);
      svc.Current() == w
      && resp == match r
                 case Ok(data) => OkResponse(data)
                 case Err(f) => FailWith("Erro ao configurar módulo", FaultThrown(f))
  {
    var req := ConfigureRequest(body);
    if req.None? {
      return BadRequest(ConfigureMissingMessage);
    }
    var r := svc.Configure(req.value.0, req.value.1, now);
    if r.Ok? {
      resp := OkResponse(r.value);
    } else {
      resp := FailWith("Erro ao configurar módulo", FaultThrown(r.error));
    }
  }
}
