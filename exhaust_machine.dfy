/** The exhaust-fan service as the module it is: the two tables and the three
  * flags of the loop are fields updated in place, the relay bus is a
  * `Device` whose log the service extends, and every loop of the source is a
  * loop here. Each method is proved to leave the tables and the log exactly
  * as the matching function of `ExhaustService` says, so the properties
  * proved there hold of the service. */
module ExhaustMachine {
  import opened Wrappers
  import opened JsValues
  import opened OrderedMaps
  import opened RelayBus
  import opened ExhaustUnits
  import opened ExhaustService

  /** One step of the restore loop, from position `i` of the pending list. */
  lemma RestoreAt(env: Env, w: World, todo: seq<Pending>, i: nat, nd: bool, acc: seq<(string, Restore)>)
    requires i < |todo|
    ensures var step := RestoreStep(env, w, todo[i], nd);
      RestoreSpec(env, w, todo[i..], nd, acc)
        == if step.Stop? then (Err(step.fault), step.w)
           else RestoreSpec(env, step.w, todo[i + 1..], step.needsDelay, acc + [step.outcome])
  {
    assert todo[i..][0] == todo[i];
    assert todo[i..][1..] == todo[i + 1..];
  }

  class Service {
    /** `exhaustStates`. */
    var states: OrderedMap<ExhaustState>
    /** `modulesStatusCache`. */
    var cache: map<string, CacheEntry>
    /** `exhaustServiceRunning`. */
    var running: bool
    /** `exhaustServiceInitialized`. */
    var initialized: bool
    /** `exhaustServiceLoop` has been set. */
    var loopStarted: bool
    /** `EXHAUST_HOSTS`, read once from the environment. */
    const hosts: HostTable
    const bus: Device
    const keying: Keying

    /** The tables and the bus log, as the functions of `ExhaustService` see
      * them. */
    function Current(): World
      reads this, bus
    {
      World(states, cache, bus.log)
    }

    function EnvAt(now: nat): Env
    {
      Env(hosts, bus.respond, now)
    }

    function Flags(): (bool, bool, bool)
      reads this
    {
      (running, initialized, loopStarted)
    }

    constructor (hosts: HostTable, bus: Device, keying: Keying)
      ensures this.hosts == hosts && this.bus == bus && this.keying == keying
      ensures states == Empty() && cache == map[]
      ensures Flags() == (false, false, false)
    {
      this.hosts := hosts;
      this.bus := bus;
      this.keying := keying;
      states := Empty();
      cache := map[];
      running := false;
      initialized := false;
      loopStarted := false;
    }

    // ---------------------------------------------------------- turn on/off

    /** `turnOnExhaust`. */
    method TurnOn(id: string, minutes: Option<real>, now: nat) returns (r: Result<JsValue, Fault>)
      modifies this, bus
      ensures (r, Current()) == TurnOnSpec(EnvAt(now), old(Current()), id, minutes, keying)
      ensures Flags() == old(Flags())
    {
      var nid := NormalizeApartmentId(id);
      var parsed := ParseApartment(nid);
      if parsed.Err? {
        return Err(parsed.error);
      }
      r := SwitchOn(StateKey(keying, nid, parsed.value), parsed.value, minutes, now);
    }

    /** `turnOnExhaust` once the id is parsed: the unit's module is sent
      * `Power<relay> On`, and only when it answers is the unit stored under
      * `key` with its expiry. */
    method SwitchOn(key: string, u: Unit, minutes: Option<real>, now: nat) returns (r: Result<JsValue, Fault>)
      modifies this, bus
      ensures (r, Current()) == TurnOnUnit(EnvAt(now), old(Current()), key, u, minutes)
      ensures Flags() == old(Flags())
    {
      var host := ResolveModuleHost(hosts, u.moduleId);
      if host.Err? {
        return Err(host.error);
      }
      var reply := bus.Send(host.value, PowerOn(u.relay));
      if reply.Failed? {
        return Err(DeviceError(reply.status, reply.reason));
      }
      ghost var w1 := Current();
      states := Set(states, key, ExhaustState(key, u, ExpiryFor(minutes, now)));
      assert Current() == w1.(states := Set(w1.states, key, ExhaustState(key, u, ExpiryFor(minutes, now))));
      r := Ok(Arr([reply.data]));
    }

    /** `turnOffExhaust`. */
    method TurnOff(id: string, now: nat) returns (r: Result<TurnOffResult, Fault>)
      modifies this, bus
      ensures (r, Current()) == TurnOffSpec(EnvAt(now), old(Current()), id, keying)
      ensures Flags() == old(Flags())
    {
      var nid := NormalizeApartmentId(id);
      var parsed := ParseApartment(nid);
      if parsed.Err? {
        return Err(parsed.error);
      }
      r := SwitchOff(StateKey(keying, nid, parsed.value), parsed.value, now);
    }

    /** `turnOffExhaust` once the id is parsed: the PWR relay of the unit's
      * tower cuts the supply, the unit under `key` is forgotten, and the
      * rest of its tower and group is restored. */
    method SwitchOff(key: string, u: Unit, now: nat) returns (r: Result<TurnOffResult, Fault>)
      modifies this, bus
      ensures (r, Current()) == TurnOffUnit(EnvAt(now), old(Current()), key, u)
      ensures Flags() == old(Flags())
    {
      var pwrHost := ResolveModuleHost(hosts, PwrModuleOf(u.group));
      if pwrHost.Err? {
        return Err(pwrHost.error);
      }
      var off := bus.Send(pwrHost.value, PowerOn(PwrRelayForTower(u.tower)));
      if off.Failed? {
        return Err(DeviceError(off.status, off.reason));
      }
      ghost var w1 := Current();
      states := Delete(states, key);
      assert Current() == w1.(states := Delete(w1.states, key));
      var column := SameColumn(Values(states), u.tower, u.group);
      var restored := RestoreColumn(column, now);
      match restored
      case Err(f) => r := Err(f);
      case Ok(rs) => r := Ok(TurnOffResult(Arr([off.data]), rs));
    }

    /** The `for` loop of `turnOffExhaust` over the rest of the unit's tower
      * and group. */
    method RestoreColumn(column: seq<ExhaustState>, now: nat) returns (r: Result<seq<(string, Restore)>, Fault>)
      modifies this, bus
      ensures (r, Current()) == RestoreSpec(EnvAt(now), old(Current()), WithHosts(EnvAt(now), column), false, [])
      ensures Flags() == old(Flags())
    {
      ghost var env := EnvAt(now);
      ghost var todo := WithHosts(env, column);
      ghost var spec := RestoreSpec(env, Current(), todo, false, []);
      var restores: seq<(string, Restore)> := [];
      var needsDelay := false;
      var i := 0;
      while i < |column|
        invariant i <= |column|
        invariant spec == RestoreSpec(env, Current(), todo[i..], needsDelay, restores)
        invariant Flags() == old(Flags())
      {
        assert todo[i] == Pending(column[i], ResolveModuleHost(hosts, column[i].unit.moduleId));
        ghost var step := RestoreStep(env, Current(), todo[i], needsDelay);
        RestoreAt(env, Current(), todo, i, needsDelay, restores);
        var outcome;
        outcome, needsDelay := RestoreUnit(column[i], needsDelay, now);
        if outcome.Err? {
          assert spec == (Err(outcome.error), Current());
          return Err(outcome.error);
        }
        assert spec == RestoreSpec(env, Current(), todo[i + 1..], needsDelay, restores + [outcome.value]);
        restores := restores + [outcome.value];
        i := i + 1;
      }
      assert todo[i..] == [];
      r := Ok(restores);
    }

    /** One pass of that loop: the unit's module is resolved, and a unit with
      * more than five minutes left is switched on again (after a pause when
      * one was switched on before it) and given those minutes anew; the
      * others are reported skipped. */
    method RestoreUnit(s: ExhaustState, needsDelay: bool, now: nat) returns (r: Result<(string, Restore), Fault>, delayNext: bool)
      modifies this, bus
      ensures var step := RestoreStep(EnvAt(now), old(Current()), Pending(s, ResolveModuleHost(hosts, s.unit.moduleId)), needsDelay);
        Current() == step.w
        && if step.Stop? then r == Err(step.fault) else r == Ok(step.outcome) && delayNext == step.needsDelay
      ensures Flags() == old(Flags())
    {
      var host := ResolveModuleHost(hosts, s.unit.moduleId);
      ghost var w0 := Current();
      ghost var step := RestoreStep(EnvAt(now), w0, Pending(s, host), needsDelay);
      if host.Err? {
        assert step == Stop(host.error, w0);
        return Err(host.error), needsDelay;
      }
      var rem := RemainingMinutes(s.expiresAt, now);
      if rem.Some? && rem.value > RearmThreshold {
        ghost var w1 := if needsDelay then w0.(log := w0.log + [Pause(RearmDelayMs)]) else w0;
        ghost var sent := SendW(EnvAt(now), w1, host.value, PowerOn(s.unit.relay));
        var reply := Rearm(host.value, s, rem.value, needsDelay, now);
        if reply.Failed? {
          assert step == Stop(DeviceError(reply.status, reply.reason), sent.1);
          return Err(DeviceError(reply.status, reply.reason)), needsDelay;
        }
        assert step == Continue(Current(), true, (s.id, Rearmed(Arr([reply.data]))));
        r, delayNext := Ok((s.id, Rearmed(Arr([reply.data])))), true;
      } else {
        assert step == Continue(w0, needsDelay, (s.id, Skipped(rem)));
        r, delayNext := Ok((s.id, Skipped(rem))), needsDelay;
      }
    }

    /** Switching one unit on again: the pause when one was switched on
      * before it, `Power<relay> On`, and, when that answers, `m` minutes
      * from now as its new expiry. */
    method Rearm(host: string, s: ExhaustState, m: int, needsDelay: bool, now: nat) returns (reply: Reply)
      modifies this, bus
      ensures var w0 := old(Current());
        var w1 := if needsDelay then w0.(log := w0.log + [Pause(RearmDelayMs)]) else w0;
        var (rep, w2) := SendW(EnvAt(now), w1, host, PowerOn(s.unit.relay));
        reply == rep
        && Current() == if rep.Failed? then w2 else w2.(states := Set(w2.states, s.id, s.(expiresAt := Some(now + m * 60000))))
      ensures Flags() == old(Flags())
    {
      if needsDelay {
        bus.Wait(RearmDelayMs);
      }
      reply := bus.Send(host, PowerOn(s.unit.relay));
      if reply.Answered? {
        states := Set(states, s.id, s.(expiresAt := Some(now + m * 60000)));
      }
    }

    // --------------------------------------------------------- module cache

    /** `updateModuleCacheError`. */
    method RecordError(moduleId: string, code: string, reason: string, now: nat)
      modifies this
      ensures cache == old(cache)[moduleId := ErrorEntry(now, code, reason)]
      ensures states == old(states) && Flags() == old(Flags())
    {
      cache := cache[moduleId := ErrorEntry(now, code, reason)];
    }

    /** `forceModuleOff`: `Power1 Off` … `Power4 Off`, stopping at the first
      * failure. */
    method ForceModuleOff(host: string, now: nat) returns (failure: Option<string>)
      modifies bus
      ensures (failure, Current()) == ForceOffFrom(EnvAt(now), old(Current()), host, 1)
    {
      var relay := 1;
      while relay <= ExpectedRelayCount
        invariant 1 <= relay <= ExpectedRelayCount + 1
        invariant ForceOffFrom(EnvAt(now), old(Current()), host, 1) == ForceOffFrom(EnvAt(now), Current(), host, relay)
      {
        var reply := bus.Send(host, PowerOff(relay));
        if reply.Failed? {
          return Some(reply.reason);
        }
        relay := relay + 1;
      }
      failure := None;
    }

    /** `ensurePulseTime`: `PulseTime<relay> 5` for each of the four relays
      * whose current value is not 5, stopping at the first failure. */
    method EnsurePulseTime(host: string, values: seq<JsValue>, now: nat) returns (failure: Option<string>)
      modifies bus
      ensures (failure, Current()) == EnsurePulseFrom(EnvAt(now), old(Current()), host, values, 1)
    {
      var relay := 1;
      while relay <= ExpectedRelayCount
        invariant 1 <= relay <= ExpectedRelayCount + 1
        invariant EnsurePulseFrom(EnvAt(now), old(Current()), host, values, 1)
          == EnsurePulseFrom(EnvAt(now), Current(), host, values, relay)
      {
        if !PulseTimeAsExpected(values, relay) {
          var reply := bus.Send(host, SetPulseTime(relay, ExpectedPulseTime));
          if reply.Failed? {
            return Some(reply.reason);
          }
        }
        relay := relay + 1;
      }
      failure := None;
    }

    /** `initializeModule`: each step that fails records its error code in
      * the cache and ends the call with that code. */
    method InitializeModule(moduleId: string, host: string, now: nat) returns (failure: Option<string>)
      modifies this, bus
      ensures (failure, Current()) == InitializeSpec(EnvAt(now), old(Current()), moduleId, host)
      ensures Flags() == old(Flags())
    {
      var st := bus.Send(host, Status);
      if st.Failed? {
        RecordError(moduleId, "STATUS_READ_FAILED", st.reason, now);
        return Some("STATUS_READ_FAILED");
      }
      var off := ForceModuleOff(host, now);
      if off.Some? {
        RecordError(moduleId, "POWER_OFF_FAILED", off.value, now);
        return Some("POWER_OFF_FAILED");
      }
      var pt := bus.Send(host, PulseTimeQuery);
      if pt.Failed? {
        RecordError(moduleId, "PULSETIME_READ_FAILED", pt.reason, now);
        return Some("PULSETIME_READ_FAILED");
      }
      var fix := EnsurePulseTime(host, PulseSetValues(pt.data), now);
      if fix.Some? {
        RecordError(moduleId, "PULSETIME_CONFIG_FAILED", fix.value, now);
        return Some("PULSETIME_CONFIG_FAILED");
      }
      var pt2 := bus.Send(host, PulseTimeQuery);
      if pt2.Failed? {
        RecordError(moduleId, "PULSETIME_VERIFY_FAILED", pt2.reason, now);
        return Some("PULSETIME_VERIFY_FAILED");
      }
      if !PulseTimesAsExpected(PulseSetValues(pt2.data)) {
        RecordError(moduleId, "PULSETIME_VERIFY_FAILED", "PulseTime final diferente do esperado", now);
        return Some("PULSETIME_VERIFY_FAILED");
      }
      cache := cache[moduleId := HealthyEntry(now, st.data, pt2.data)];
      failure := None;
    }

    /** `refreshModuleStatus`: both readings are requested; the entry is
      * healthy only when both came back and the status is not empty. */
    method RefreshModuleStatus(moduleId: string, host: string, now: nat)
      modifies this, bus
      ensures Current() == RefreshSpec(EnvAt(now), old(Current()), moduleId, host)
      ensures Flags() == old(Flags())
    {
      var st := bus.Send(host, Status);
      var pt := bus.Send(host, PulseTimeQuery);
      if st.Failed? {
        RecordError(moduleId, "STATUS_READ_FAILED", st.reason, now);
      } else if pt.Failed? {
        RecordError(moduleId, "STATUS_READ_FAILED", pt.reason, now);
      } else if !Truthy(st.data) {
        RecordError(moduleId, "STATUS_READ_FAILED", "Status vazio", now);
      } else {
        cache := cache[moduleId := HealthyEntry(now, st.data, pt.data)];
      }
    }

    /** `refreshAllModulesStatus`. */
    method RefreshAllModules(now: nat)
      modifies this, bus
      ensures Current() == RefreshAll(EnvAt(now), old(Current()), ListModules(hosts))
      ensures Flags() == old(Flags())
    {
      var ms := ListModules(hosts);
      var i := 0;
      while i < |ms|
        invariant i <= |ms|
        invariant RefreshAll(EnvAt(now), old(Current()), ms) == RefreshAll(EnvAt(now), Current(), ms[i..])
        invariant Flags() == old(Flags())
      {
        assert ms[i..][1..] == ms[i + 1..];
        RefreshModuleStatus(ms[i].0, ms[i].1, now);
        i := i + 1;
      }
    }

    // ------------------------------------------------------------ scheduler

    /** `processExpiredExhausts`: the expired ids are collected first, then
      * each is turned off in turn; a failure does not stop the others. */
    method ProcessExpired(now: nat)
      modifies this, bus
      ensures Current() == ProcessExpiredSpec(EnvAt(now), old(Current()), keying)
      ensures Flags() == old(Flags())
    {
      var ids := ExpiredIds(Values(states), now);
      var i := 0;
      while i < |ids|
        invariant i <= |ids|
        invariant TurnOffEach(EnvAt(now), old(Current()), ids, keying) == TurnOffEach(EnvAt(now), Current(), ids[i..], keying)
        invariant Flags() == old(Flags())
      {
        assert ids[i..][1..] == ids[i + 1..];
        var _ := TurnOff(ids[i], now);
        i := i + 1;
      }
    }

    /** The first pass of `run`: initialise every configured module. */
    method InitializeAll(ms: seq<(string, string)>, now: nat)
      modifies this, bus
      ensures Current() == InitAll(EnvAt(now), old(Current()), ms)
      ensures Flags() == old(Flags())
    {
      var i := 0;
      while i < |ms|
        invariant i <= |ms|
        invariant InitAll(EnvAt(now), old(Current()), ms) == InitAll(EnvAt(now), Current(), ms[i..])
        invariant Flags() == old(Flags())
      {
        assert ms[i..][1..] == ms[i + 1..];
        var _ := InitializeModule(ms[i].0, ms[i].1, now);
        i := i + 1;
      }
    }

    /** The later passes of `run`: a module without a healthy cache entry is
      * initialised again, the others are refreshed. */
    method MaintainModules(ms: seq<(string, string)>, now: nat)
      modifies this, bus
      ensures Current() == MaintainAll(EnvAt(now), old(Current()), ms)
      ensures Flags() == old(Flags())
    {
      var i := 0;
      while i < |ms|
        invariant i <= |ms|
        invariant MaintainAll(EnvAt(now), old(Current()), ms) == MaintainAll(EnvAt(now), Current(), ms[i..])
        invariant Flags() == old(Flags())
      {
        assert ms[i..][1..] == ms[i + 1..];
        if NeedsInit(cache, ms[i].0) {
          var _ := InitializeModule(ms[i].0, ms[i].1, now);
        } else {
          RefreshModuleStatus(ms[i].0, ms[i].1, now);
        }
        i := i + 1;
      }
    }

    /** `run`, the body of the service loop. */
    method Tick(now: nat)
      modifies this, bus
      ensures (Current(), initialized) == TickSpec(EnvAt(now), old(Current()), old(running), old(initialized), keying)
      ensures running == old(running) && loopStarted == old(loopStarted)
    {
      if running {
        return;
      }
      running := true;
      var ms := ListModules(hosts);
      if !initialized {
        InitializeAll(ms, now);
        initialized := true;
      } else {
        MaintainModules(ms, now);
      }
      ProcessExpired(now);
      running := false;
    }

    /** `startExhaustService`: the first call runs the loop body once and
      * starts the loop; later calls do nothing. */
    method Start(now: nat)
      modifies this, bus
      ensures old(loopStarted) ==> Current() == old(Current()) && Flags() == old(Flags())
      ensures !old(loopStarted) ==>
        (Current(), initialized) == TickSpec(EnvAt(now), old(Current()), old(running), old(initialized), keying)
      ensures loopStarted && running == old(running)
    {
      if loopStarted {
        return;
      }
      Tick(now);
      loopStarted := true;
    }

    // --------------------------------------------------------------- views

    /** `getAllModulesStatus`. */
    method AllModulesStatus(now: nat) returns (modules: map<string, CacheEntry>, memory: seq<MemoryEntry>)
      modifies this, bus
      ensures ((modules, memory), Current()) == GetAllModulesStatus(EnvAt(now), old(Current()))
      ensures Flags() == old(Flags())
    {
      RefreshAllModules(now);
      modules := cache;
      memory := MemorySnapshot(states, now);
    }

    /** `configureExhaustModule`. */
    method Configure(moduleName: string, command: string, now: nat) returns (r: Result<JsValue, Fault>)
      modifies bus
      ensures (r, Current()) == ConfigureSpec(EnvAt(now), old(Current()), moduleName, command)
    {
      var host := ResolveHostByModule(hosts, moduleName);
      if host.Err? {
        return Err(host.error);
      }
      var reply := bus.Send(host.value, Raw(command));
      if reply.Failed? {
        return Err(DeviceError(reply.status, reply.reason));
      }
      r := Ok(reply.data);
    }
  }
}
