/** The HTTP handlers of the exaustor routes: the same checks as the exhaust
  * handlers, over the timer-driven service. The status route ignores any id
  * and always reports every module. */
module ExaustorController {
  import opened Wrappers
  import opened JsValues
  import opened ExhaustUnits
  import ES = ExhaustService
  import opened ExaustorService
  import opened ExaustorMachine
  import opened RelayRequests
  import opened HttpReplies

  /** The data of a successful turn-on. */
  datatype TurnedOn = TurnedOn(id: string, status: string, autoOffMinutes: Option<real>, result: JsValue, memory: Option<MemoryView>)

  /** The data of a successful turn-off. */
  datatype TurnedOff = TurnedOff(id: string, status: string, result: TurnOffResult)

  /** The data of the status route. */
  datatype ModulesStatus = ModulesStatus(modules: map<string, ModuleReport>, memory: seq<ES.MemoryEntry>)

  const ConfigureMissingMessage := "Parâmetros obrigatórios: modulo e comando."

  /** `serializeMemory(getExaustorMemory(id))`: the entry without its timer
    * handle. */
  function SerializeState(m: Option<ExaustorState>): (r: Option<MemoryView>)
    ensures r.None? <==> m.None?
  {
    match m
    case None => None
    case Some(s) => Some(Serialize(s.id, s.unit, s.expiresAt))
  }

  /** The timer handle is exactly what serialising drops: two entries give
    * the same view if and only if they differ at most in their timer. */
  lemma SerializeDropsOnlyTimer(s1: ExaustorState, s2: ExaustorState)
    ensures SerializeState(Some(s1)) == SerializeState(Some(s2)) <==> s1.(timer := None) == s2.(timer := None)
  {
    SerializeInjective(s1.id, s1.unit, s1.expiresAt, s2.id, s2.unit, s2.expiresAt);
  }

  /** What the turn-on handler answers once the service has run on `c`. */
  function TurnOnAnswer(c: TurnOnCall, r: Result<JsValue, Fault>, w: World): Response<TurnedOn>
  {
    match r
    case Ok(result) => OkResponse(TurnedOn(c.id, "on", c.minutes, result, SerializeState(GetMemory(w, c.id))))
    case Err(f) => FailWith("Erro ao ligar exaustor", FaultThrown(f))
  }

  /** With entries stored under the normalised id, as the service does,
    * the answer to a successful turn-on shows the unit just switched on
    * with the expiry of the requested minutes. */
  lemma TurnOnAnswerShowsEntry(env: ES.Env, w: World, c: TurnOnCall, p: TimerPolicy)
    ensures var (r, w2) := TurnOnSpec(env, w, c.id, c.minutes, ES.AsWritten, p);
      r.Ok? ==>
        var nid := NormalizeApartmentId(c.id);
        && ParseApartment(nid).Ok?
        && TurnOnAnswer(c, r, w2).data.memory
           == Some(Serialize(nid, ParseApartment(nid).value, ES.ExpiryFor(c.minutes, env.now)))
  {
    var nid := NormalizeApartmentId(c.id);
    var q := ParseApartment(nid);
    if q.Ok? {
      TurnOnEffect(env, w, nid, q.value, c.minutes, p);
    }
  }

  /** `turnOnExaustorController`. */
  method TurnOnHandler(svc: Exaustor, body: JsValue, now: nat) returns (resp: Response<TurnedOn>)
    modifies svc, svc.bus
    ensures TurnOnRequest(body).Err? ==>
      resp == BadRequest(TurnOnRequest(body).error) && unchanged(svc, svc.bus)
    ensures TurnOnRequest(body).Ok? ==>
      var c := TurnOnRequest(body).value;
      var (r, w) := TurnOnSpec(svc.EnvAt(now), old(svc.Current()), c.id, c.minutes, svc.keying, svc.policy);
      svc.Current() == w && resp == TurnOnAnswer(c, r, w)
  {
    var req := TurnOnRequest(body);
    if req.Err? {
      return BadRequest(req.error);
    }
    var r := svc.TurnOn(req.value.id, req.value.minutes, now);
    resp := TurnOnAnswer(req.value, r, svc.Current());
  }

  /** `turnOffExaustorController`. */
  method TurnOffHandler(svc: Exaustor, body: JsValue, now: nat) returns (resp: Response<TurnedOff>)
    modifies svc, svc.bus
    ensures TurnOffRequest(body).Err? ==>
      resp == BadRequest(MissingUnitMessage) && unchanged(svc, svc.bus)
    ensures TurnOffRequest(body).Ok? ==>
      var id := TurnOffRequest(body).value;
      var (r, w) := TurnOffSpec(svc.EnvAt(now), old(svc.Current()), id, svc.keying);
      svc.Current() == w
      && resp == match r
                 case Ok(result) => OkResponse(TurnedOff(id, "off", result))
                 case Err(f) => FailWith("Erro ao desligar exaustor", FaultThrown(f))
  {
    var req := TurnOffRequest(body);
    if req.Err? {
      return BadRequest(req.error);
    }
    var r := svc.TurnOff(req.value, now);
    if r.Ok? {
      resp := OkResponse(TurnedOff(req.value, "off", r.value));
    } else {
      resp := FailWith("Erro ao desligar exaustor", FaultThrown(r.error));
    }
  }

  /** `getExaustorStatusController`: the status of every module, whatever
    * the request says. */
  method StatusHandler(svc: Exaustor, now: nat) returns (resp: Response<ModulesStatus>)
    modifies svc.bus
    ensures var ((modules, memory), w) := GetAllModulesStatus(svc.EnvAt(now), old(svc.Current()));
      svc.Current() == w && resp == OkResponse(ModulesStatus(modules, memory))
  {
    var modules, memory := svc.AllModulesStatus(now);
    resp := OkResponse(ModulesStatus(modules, memory));
  }

  /** `configureExaustorController`. */
  method ConfigureHandler(svc: Exaustor, body: JsValue, now: nat) returns (resp: Response<JsValue>)
    modifies svc.bus
    ensures ConfigureRequest(body).None? ==>
      resp == BadRequest(ConfigureMissingMessage) && unchanged(svc.bus)
    ensures ConfigureRequest(body).Some? ==>
      var (m, c) := ConfigureRequest(body).value;
      var (r, w) := ConfigureSpec(svc.EnvAt(now), old(svc.Current()), m, c);
      svc.Current() == w
      && resp == match r
                 case Ok(data) => OkResponse(data)
                 case Err(f) => FailWith("Erro ao configurar módulo", FaultThrown(f))
  {
    var req := ConfigureRequest(body);
    if req.None? {
      return BadRequest(ConfigureMissingMessage);
    }
    var r := svc.Configure(req.value.0, req.value.1, now);
    if r.Ok? {
      resp := OkResponse(r.value);
    } else {
      resp := FailWith("Erro ao configurar módulo", FaultThrown(r.error));
    }
  }
}
