/** The older exhaust-fan service as the module it is: the table of units
  * and the pending auto-off timers are fields updated in place, the relay
  * bus is a `Device` whose log the service extends, and the restore loop of
  * a turn-off and the status round are loops. Each method is proved to leave
  * the table, the timers and the log exactly as the matching function of
  * `ExaustorService` says, so the properties proved there hold of the
  * service; with `CancelPrevious` the methods also keep the timers in
  * agreement with the table. */
module ExaustorMachine {
  import opened Wrappers
  import opened JsValues
  import opened OrderedMaps
  import opened RelayBus
  import opened ExhaustUnits
  import ES = ExhaustService
  import opened ExaustorService

  /** One step of the restore loop, from position `i` of the column. */
  lemma RearmAt(env: ES.Env, w: World, todo: seq<ExaustorState>, i: nat, acc: seq<(string, JsValue)>)
    requires i < |todo|
    ensures var step := RearmStep(env, w, todo[i]);
      RearmSpec(env, w, todo[i..], acc)
        == if step.Stop? then (Err(step.fault), step.w)
           else RearmSpec(env, step.w, todo[i + 1..], acc + [step.outcome])
  {
    assert todo[i..][0] == todo[i];
    assert todo[i..][1..] == todo[i + 1..];
  }

  /** One module of the status round, from position `i` of the list. */
  lemma StatusAt(env: ES.Env, at: nat, ms: seq<(string, string)>, i: nat, acc: map<string, ModuleReport>)
    requires i < |ms|
    ensures StatusAll(env, at, ms[i..], acc)
      == StatusAll(env, at + 1, ms[i + 1..], acc[ms[i].0 := Report(ms[i].0, env.respond(ms[i].1, Status, at))])
  {
    assert ms[i..][0] == ms[i];
    assert ms[i..][1..] == ms[i + 1..];
  }

  class Exaustor {
    /** `exaustorStates`. */
    var states: OrderedMap<ExaustorState>
    /** The pending `setTimeout` callbacks, by handle. */
    var timers: map<nat, Timer>
    /** The handle the next `setTimeout` returns. */
    var nextTimer: nat
    /** `EXAUSTOR_HOSTS`, read once from the environment. */
    const hosts: HostTable
    const bus: Device
    const keying: ES.Keying
    /** Whether switching a unit on cancels the timer of the entry it
      * replaces. */
    const policy: TimerPolicy

    /** The table, the timers and the bus log, as the functions of
      * `ExaustorService` see them. */
    function Current(): World
      reads this, bus
    {
      World(states, timers, nextTimer, bus.log)
    }

    function EnvAt(now: nat): ES.Env
    {
      ES.Env(hosts, bus.respond, now)
    }

    constructor (hosts: HostTable, bus: Device, keying: ES.Keying, policy: TimerPolicy)
      ensures this.hosts == hosts && this.bus == bus && this.keying == keying && this.policy == policy
      ensures states == Empty() && timers == map[] && nextTimer == 0
      ensures TimersAgree(Current())
    {
      this.hosts := hosts;
      this.bus := bus;
      this.keying := keying;
      this.policy := policy;
      states := Empty();
      timers := map[];
      nextTimer := 0;
    }

    // ------------------------------------------------------------ the table

    /** `scheduleOffTimer`: the state's own timer is cancelled and a fresh
      * one armed; the updated state is returned. */
    method ScheduleOffTimer(s: ExaustorState, minutes: real, now: nat) returns (s1: ExaustorState)
      modifies this
      ensures (s1, Current()) == Schedule(old(Current()), s, minutes, now)
    {
      if s.timer.Some? {
        timers := timers - {s.timer.value};
      }
      var at := ExpiryAfter(now, minutes);
      var h := nextTimer;
      timers := timers[h := Timer(s.id, at)];
      nextTimer := h + 1;
      s1 := s.(expiresAt := Some(at), timer := Some(h));
    }

    /** `setState`. */
    method Store(s: ExaustorState, minutes: Option<real>, now: nat)
      modifies this
      ensures Current() == SetState(old(Current()), s, minutes, now)
    {
      if minutes.Some? && minutes.value > 0.0 {
        var s1 := ScheduleOffTimer(s, minutes.value, now);
        states := Set(states, s1.id, s1);
      } else {
        states := Set(states, s.id, s.(expiresAt := None));
      }
    }

    /** `clearState` on an id already normalised. */
    method Clear(key: string)
      modifies this
      ensures Current() == ClearState(old(Current()), key)
    {
      var t := TimerOf(states, key);
      if t.Some? {
        timers := timers - {t.value};
      }
      states := Delete(states, key);
    }

    // ---------------------------------------------------------- turn on/off

    /** `turnOnExaustor`. */
    method TurnOn(id: string, minutes: Option<real>, now: nat) returns (r: Result<JsValue, Fault>)
      modifies this, bus
      ensures (r, Current()) == TurnOnSpec(EnvAt(now), old(Current()), id, minutes, keying, policy)
      ensures policy == CancelPrevious && old(TimersAgree(Current())) ==> TimersAgree(Current())
    {
      ghost var w0 := Current();
      var nid := NormalizeApartmentId(id);
      var parsed := ParseApartment(nid);
      if parsed.Err? {
        r := Err(parsed.error);
      } else {
        r := SwitchOn(ES.StateKey(keying, nid, parsed.value), parsed.value, minutes, now);
      }
      if policy == CancelPrevious && TimersAgree(w0) {
        TurnOnKeepsTimers(EnvAt(now), w0, id, minutes, keying);
      }
    }

    /** `turnOnExaustor` once the id is parsed: `Power<relay> On` to the
      * unit's module, and only when it answers a new state under `key`. */
    method SwitchOn(key: string, u: Unit, minutes: Option<real>, now: nat) returns (r: Result<JsValue, Fault>)
      modifies this, bus
      ensures (r, Current()) == TurnOnUnit(EnvAt(now), old(Current()), key, u, minutes, policy)
    {
      var host := ResolveModuleHost(hosts, u.moduleId);
      if host.Err? {
        return Err(host.error);
      }
      var reply := bus.Send(host.value, PowerOn(u.relay));
      if reply.Failed? {
        return Err(DeviceError(reply.status, reply.reason));
      }
      ghost var w1 := Current();
      if policy == CancelPrevious {
        var t := TimerOf(states, key);
        if t.Some? {
          timers := timers - {t.value};
        }
      }
      ghost var w2 := Current();
      assert w2 == if policy.CancelPrevious? then w1.(timers := Cancel(w1.timers, TimerOf(w1.states, key))) else w1;
      Store(ExaustorState(key, u, None, None), minutes, now);
      r := Ok(Arr([reply.data]));
    }

    /** `turnOffExaustor`. */
    method TurnOff(id: string, now: nat) returns (r: Result<TurnOffResult, Fault>)
      modifies this, bus
      ensures (r, Current()) == TurnOffSpec(EnvAt(now), old(Current()), id, keying)
      ensures old(TimersAgree(Current())) ==> TimersAgree(Current())
    {
      ghost var w0 := Current();
      var nid := NormalizeApartmentId(id);
      var parsed := ParseApartment(nid);
      if parsed.Err? {
        r := Err(parsed.error);
      } else {
        r := SwitchOff(ES.StateKey(keying, nid, parsed.value), parsed.value, now);
      }
      if TimersAgree(w0) {
        TurnOffKeepsTimers(EnvAt(now), w0, id, keying);
      }
    }

    /** `turnOffExaustor` once the id is parsed: the PWR relay of the tower
      * cuts the supply, the unit and its timer are cleared, and the rest of
      * its tower and group is switched on again. */
    method SwitchOff(key: string, u: Unit, now: nat) returns (r: Result<TurnOffResult, Fault>)
      modifies this, bus
      ensures (r, Current()) == TurnOffUnit(EnvAt(now), old(Current()), key, u)
    {
      var pwrHost := ResolveModuleHost(hosts, PwrModuleOf(u.group));
      if pwrHost.Err? {
        return Err(pwrHost.error);
      }
      var off := bus.Send(pwrHost.value, PowerOn(PwrRelayForTower(u.tower)));
      if off.Failed? {
        return Err(DeviceError(off.status, off.reason));
      }
      Clear(key);
      var column := Column(Values(states), u.tower, u.group);
      var restored := RearmColumn(column, now);
      match restored
      case Err(f) => r := Err(f);
      case Ok(rs) => r := Ok(TurnOffResult(Arr([off.data]), rs));
    }

    /** The `for` loop of `turnOffExaustor` over the rest of the unit's
      * tower and group. */
    method RearmColumn(column: seq<ExaustorState>, now: nat) returns (r: Result<seq<(string, JsValue)>, Fault>)
      modifies this, bus
      ensures (r, Current()) == RearmSpec(EnvAt(now), old(Current()), column, [])
    {
      ghost var env := EnvAt(now);
      ghost var spec := RearmSpec(env, Current(), column, []);
      var restores: seq<(string, JsValue)> := [];
      var i := 0;
      while i < |column|
        invariant i <= |column|
        invariant spec == RearmSpec(env, Current(), column[i..], restores)
      {
        ghost var step := RearmStep(env, Current(), column[i]);
        RearmAt(env, Current(), column, i, restores);
        var outcome := RearmUnit(column[i], now);
        if outcome.Err? {
          assert spec == (Err(outcome.error), Current());
          return Err(outcome.error);
        }
        assert spec == RearmSpec(env, Current(), column[i + 1..], restores + [outcome.value]);
        restores := restores + [outcome.value];
        i := i + 1;
      }
      assert column[i..] == [];
      r := Ok(restores);
    }

    /** One pass of that loop: `setRelay` on the unit's module, then, when
      * the unit has minutes remaining, `scheduleOffTimer` for them on the
      * state the table holds. */
    method RearmUnit(s: ExaustorState, now: nat) returns (r: Result<(string, JsValue), Fault>)
      modifies this, bus
      ensures var step := RearmStep(EnvAt(now), old(Current()), s);
        Current() == step.w && if step.Stop? then r == Err(step.fault) else r == Ok(step.outcome)
    {
      ghost var w0 := Current();
      ghost var step := RearmStep(EnvAt(now), w0, s);
      var host := ResolveModuleHost(hosts, s.unit.moduleId);
      if host.Err? {
        assert step == Stop(host.error, w0);
        return Err(host.error);
      }
      var reply := bus.Send(host.value, PowerOn(s.unit.relay));
      ghost var w1 := Current();
      assert (reply, w1) == SendW(EnvAt(now), w0, host.value, PowerOn(s.unit.relay));
      if reply.Failed? {
        assert step == Stop(DeviceError(reply.status, reply.reason), w1);
        return Err(DeviceError(reply.status, reply.reason));
      }
      var rem := RemainingMinutes(s.expiresAt, now);
      if rem.Some? {
        var s1 := ScheduleOffTimer(s, rem.value as real, now);
        states := Set(states, s.id, s1);
      }
      assert Current() == Reschedule(w1, s, now);
      assert step == Continue(Reschedule(w1, s, now), (s.id, Arr([reply.data])));
      r := Ok((s.id, Arr([reply.data])));
    }

    /** The callback of the armed timer `h`: it is no longer pending, and the
      * unit it was armed for is switched off; a failure is only logged. */
    method Fire(h: nat, now: nat)
      requires h in timers
      modifies this, bus
      ensures Current() == FireSpec(EnvAt(now), old(Current()), h, keying)
      ensures old(TimersAgree(Current())) ==> TimersAgree(Current())
    {
      ghost var w0 := Current();
      var id := timers[h].id;
      timers := timers - {h};
      var _ := TurnOff(id, now);
      if TimersAgree(w0) {
        FireKeepsTimers(EnvAt(now), w0, h, keying);
      }
    }

    // --------------------------------------------------------------- status

    /** `sendCommand(host, command)` and its answer. */
    method Ask(host: string, c: Command, now: nat) returns (r: Result<JsValue, Fault>)
      modifies bus
      ensures (r, Current()) == Query(EnvAt(now), old(Current()), host, c)
    {
      var reply := bus.Send(host, c);
      r := if reply.Failed? then Err(DeviceError(reply.status, reply.reason)) else Ok(reply.data);
    }

    /** `getExaustorStatus`. */
    method Status(id: string, now: nat) returns (r: Result<JsValue, Fault>)
      modifies bus
      ensures (r, Current()) == StatusSpec(EnvAt(now), old(Current()), id)
    {
      var n := NormalizeApartmentId(id);
      match ModuleOfId(n) {
        case Some(m) =>
          var host := ResolveModuleHost(hosts, m);
          if host.Err? {
            return Err(host.error);
          }
          r := Ask(host.value, Command.Status, now);
        case None =>
          var parsed := ParseApartment(n);
          if parsed.Err? {
            return Err(parsed.error);
          }
          var host := ResolveModuleHost(hosts, parsed.value.moduleId);
          if host.Err? {
            return Err(host.error);
          }
          r := Ask(host.value, PowerQuery(parsed.value.relay), now);
      }
    }

    /** `getAllModulesStatus`: `Status` to each configured module in turn,
      * then the memory of the table. */
    method AllModulesStatus(now: nat) returns (modules: map<string, ModuleReport>, memory: seq<ES.MemoryEntry>)
      modifies bus
      ensures ((modules, memory), Current()) == GetAllModulesStatus(EnvAt(now), old(Current()))
    {
      var ms := ListModules(hosts);
      modules := AskAll(ms, now);
      memory := Snapshot(states, now);
    }

    /** The round of `Status` commands, one module after the other. */
    method AskAll(ms: seq<(string, string)>, now: nat) returns (modules: map<string, ModuleReport>)
      modifies bus
      ensures modules == StatusAll(EnvAt(now), |old(bus.log)|, ms, map[])
      ensures bus.log == old(bus.log) + StatusSends(ms)
    {
      ghost var env := EnvAt(now);
      ghost var spec := StatusAll(env, |bus.log|, ms, map[]);
      ghost var log0 := bus.log;
      modules := map[];
      var i := 0;
      while i < |ms|
        invariant i <= |ms|
        invariant |bus.log| == |log0| + i && bus.log[..|log0|] == log0
        invariant forall j :: 0 <= j < i ==> bus.log[|log0| + j] == Sent(ms[j].1, Command.Status)
        invariant spec == StatusAll(env, |bus.log|, ms[i..], modules)
      {
        StatusAt(env, |bus.log|, ms, i, modules);
        var reply := bus.Send(ms[i].1, Command.Status);
        modules := modules[ms[i].0 := Report(ms[i].0, reply)];
        i := i + 1;
      }
      assert ms[i..] == [];
      assert bus.log == log0 + StatusSends(ms);
    }

    /** `configureExaustorModule`. */
    method Configure(moduleName: string, command: string, now: nat) returns (r: Result<JsValue, Fault>)
      modifies bus
      ensures (r, Current()) == ConfigureSpec(EnvAt(now), old(Current()), moduleName, command)
    {
      var host := ResolveHostByModule(hosts, moduleName);
      if host.Err? {
        return Err(host.error);
      }
      r := Ask(host.value, Raw(command), now);
    }
  }
}
