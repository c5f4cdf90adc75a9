/** The older exhaust-fan service (`exaustor`). It drives the same units and
  * relay modules as the exhaust service, with two differences. A unit that
  * is switched on for some minutes gets its own auto-off timer, which
  * switches it off when it fires. And switching a unit off re-arms every
  * other unit of its tower and group, with no threshold and no pause.
  *
  * A timer is a pending `setTimeout`: `timers` maps each armed handle to the
  * unit it will switch off and the instant it fires at, and a state records
  * the handle of its own timer (`state.timer`). `clearTimeout` removes a
  * handle from `timers`. Firing is the operation `FireSpec`. */
module ExaustorService {
  import opened Wrappers
  import opened JsText
  import opened JsValues
  import opened OrderedMaps
  import opened RelayBus
  import opened ExhaustUnits
  import ES = ExhaustService

  /** An armed auto-off: when it fires it switches the unit `id` off. */
  datatype Timer = Timer(id: string, fireAt: int)

  /** An entry of `exaustorStates`. */
  datatype ExaustorState = ExaustorState(id: string, unit: Unit, expiresAt: Option<int>, timer: Option<nat>)

  /** The table of units that are on, the armed timers, the next timer handle
    * and the bus log. */
  datatype World = World(states: OrderedMap<ExaustorState>, timers: map<nat, Timer>, nextTimer: nat, log: seq<Event>)

  /** What `turnOnExaustor` does with the timer of the entry it replaces.
    * The code as written builds a new state object and so never cancels the
    * old one's timer (`KeepPrevious`); `CancelPrevious` cancels it first, as
    * `clearState` does. */
  datatype TimerPolicy = KeepPrevious | CancelPrevious

  function SendW(env: ES.Env, w: World, host: string, c: Command): (r: (Reply, World))
    ensures r.0 == env.respond(host, c, |w.log|)
    ensures r.1 == w.(log := w.log + [Sent(host, c)])
  {
    (env.respond(host, c, |w.log|), w.(log := w.log + [Sent(host, c)]))
  }

  // ------------------------------------------------------------ the table

  /** `clearTimeout` of a handle, when there is one. */
  function Cancel(timers: map<nat, Timer>, h: Option<nat>): map<nat, Timer>
  {
    if h.Some? then timers - {h.value} else timers
  }

  /** The timer handle of the entry under `key`, if any. */
  function TimerOf(states: OrderedMap<ExaustorState>, key: string): Option<nat>
  {
    if key in states.entries then states.entries[key].timer else None
  }

  /** `scheduleOffTimer(state, minutes)`: cancel the state's own timer, then
    * arm a fresh one that fires `round(minutes * 60000)` ms from now, the
    * instant the state now expires at. The state returned is the updated
    * object; storing it is the caller's business. */
  function Schedule(w: World, s: ExaustorState, minutes: real, now: int): (ExaustorState, World)
  {
    var at := ExpiryAfter(now, minutes);
    var h := w.nextTimer;
    (s.(expiresAt := Some(at), timer := Some(h)),
     w.(timers := Cancel(w.timers, s.timer)[h := Timer(s.id, at)], nextTimer := h + 1))
  }

  /** `setState(state, minutes)`: with a positive number of minutes the state
    * is scheduled; otherwise it has no expiry. Either way it is stored under
    * its id. */
  function SetState(w: World, s: ExaustorState, minutes: Option<real>, now: int): World
  {
    if minutes.Some? && minutes.value > 0.0 then
      var (s1, w1) := Schedule(w, s, minutes.value, now);
      w1.(states := Set(w1.states, s1.id, s1))
    else
      w.(states := Set(w.states, s.id, s.(expiresAt := None)))
  }

  /** `clearState(id)` on an id already normalised (normalising it again
    * changes nothing, `NormalizeIdempotent`): cancel the entry's timer and
    * remove the entry. */
  function ClearState(w: World, key: string): World
  {
    w.(timers := Cancel(w.timers, TimerOf(w.states, key)), states := Delete(w.states, key))
  }

  /** `buildMemorySnapshot`: one row per unit that is on, in insertion order. */
  function Snapshot(states: OrderedMap<ExaustorState>, now: int): (m: seq<ES.MemoryEntry>)
    ensures |m| == |states.keys|
    ensures forall i :: 0 <= i < |m| ==>
      var s := states.entries[states.keys[i]];
      m[i] == ES.MemoryEntry(s.id, s.unit.tower, s.unit.final, s.unit.group, s.unit.relay, s.unit.moduleId,
        s.expiresAt, RemainingMinutes(s.expiresAt, now))
  {
    var vs := Values(states);
    seq(|vs|, i requires 0 <= i < |vs| =>
      ES.MemoryEntry(vs[i].id, vs[i].unit.tower, vs[i].unit.final, vs[i].unit.group, vs[i].unit.relay,
        vs[i].unit.moduleId, vs[i].expiresAt, RemainingMinutes(vs[i].expiresAt, now)))
  }

  /** `getExaustorMemory`: the entry stored under the normalised id. */
  function GetMemory(w: World, id: string): (r: Option<ExaustorState>)
    ensures r.Some? <==> NormalizeApartmentId(id) in w.states.entries
  {
    OrderedMaps.Get(w.states, NormalizeApartmentId(id))
  }

  // ------------------------------------------------------------- turn on

  /** `turnOnExaustor`. */
  function TurnOnSpec(env: ES.Env, w: World, id: string, minutes: Option<real>, k: ES.Keying, p: TimerPolicy)
    : (r: (Result<JsValue, Fault>, World))
  {
    var nid := NormalizeApartmentId(id);
    match ParseApartment(nid)
    case Err(f) => (Err(f), w)
    case Ok(u) => TurnOnUnit(env, w, ES.StateKey(k, nid, u), u, minutes, p)
  }

  /** `turnOnExaustor` once the id is parsed: `Power<relay> On` to the unit's
    * module, and only when it answers a new state under `key`. */
  function TurnOnUnit(env: ES.Env, w: World, key: string, u: Unit, minutes: Option<real>, p: TimerPolicy)
    : (r: (Result<JsValue, Fault>, World))
  {
    match ResolveModuleHost(env.hosts, u.moduleId)
    case Err(f) => (Err(f), w)
    case Ok(host) =>
      var (reply, w1) := SendW(env, w, host, PowerOn(u.relay));
      if reply.Failed? then (Err(DeviceError(reply.status, reply.reason)), w1)
      else
        var w2 := if p.CancelPrevious? then w1.(timers := Cancel(w1.timers, TimerOf(w1.states, key))) else w1;
        (Ok(Arr([reply.data])), SetState(w2, ExaustorState(key, u, None, None), minutes, env.now))
  }

  // ------------------------------------------------------------ turn off

  /** `{ offResult, restoreResults }`: the `setRelay` array of the PWR
    * module's answer, and the `setRelay` array of each re-armed unit. */
  datatype TurnOffResult = TurnOffResult(off: JsValue, restores: seq<(string, JsValue)>)

  /** The states of one tower and group, in table order. */
  function Column(vs: seq<ExaustorState>, t: Tower, g: Group): (r: seq<ExaustorState>)
    ensures forall x :: x in r <==> x in vs && x.unit.tower == t && x.unit.group == g
  {
    if vs == [] then []
    else if vs[0].unit.tower == t && vs[0].unit.group == g then [vs[0]] + Column(vs[1..], t, g)
    else Column(vs[1..], t, g)
  }

  /** `turnOffExaustor`. */
  function TurnOffSpec(env: ES.Env, w: World, id: string, k: ES.Keying): (r: (Result<TurnOffResult, Fault>, World))
  {
    var nid := NormalizeApartmentId(id);
    match ParseApartment(nid)
    case Err(f) => (Err(f), w)
    case Ok(u) => TurnOffUnit(env, w, ES.StateKey(k, nid, u), u)
  }

  /** `turnOffExaustor` once the id is parsed: the PWR relay of the tower
    * cuts the supply; only when it answers is the unit's entry cleared, and
    * then the rest of the column is re-armed. */
  function TurnOffUnit(env: ES.Env, w: World, key: string, u: Unit): (r: (Result<TurnOffResult, Fault>, World))
  {
    match ResolveModuleHost(env.hosts, PwrModuleOf(u.group))
    case Err(f) => (Err(f), w)
    case Ok(pwrHost) =>
      var (reply, w1) := SendW(env, w, pwrHost, PowerOn(PwrRelayForTower(u.tower)));
      if reply.Failed? then (Err(DeviceError(reply.status, reply.reason)), w1)
      else
        var w2 := ClearState(w1, key);
        var (restored, w3) := RearmSpec(env, w2, Column(Values(w2.states), u.tower, u.group), []);
        match restored
        case Err(f) => (Err(f), w3)
        case Ok(rs) => (Ok(TurnOffResult(Arr([reply.data]), rs)), w3)
  }

  /** One pass of the restore loop: either it stops with a fault, or it goes
    * on with a new world and the outcome for the unit. */
  datatype Step = Stop(fault: Fault, w: World) | Continue(w: World, outcome: (string, JsValue))

  /** A module without a host, or a `Power<relay> On` that fails, stops the
    * loop; otherwise the unit is on again, and one with minutes remaining is
    * scheduled again for those whole minutes. */
  function RearmStep(env: ES.Env, w: World, s: ExaustorState): (r: Step)
  {
    match ResolveModuleHost(env.hosts, s.unit.moduleId)
    case Err(f) => Stop(f, w)
    case Ok(host) =>
      var (reply, w1) := SendW(env, w, host, PowerOn(s.unit.relay));
      if reply.Failed? then Stop(DeviceError(reply.status, reply.reason), w1)
      else Continue(Reschedule(w1, s, env.now), (s.id, Arr([reply.data])))
  }

  /** `if (remaining) scheduleOffTimer(state, remaining)` on the state object
    * that the table holds. */
  function Reschedule(w: World, s: ExaustorState, now: int): World
  {
    var rem := RemainingMinutes(s.expiresAt, now);
    if rem.Some? then
      var (s1, w1) := Schedule(w, s, rem.value as real, now);
      w1.(states := Set(w1.states, s.id, s1))
    else w
  }

  /** The restore loop from `todo[0]` on; `acc` holds the outcomes so far. */
  function RearmSpec(env: ES.Env, w: World, todo: seq<ExaustorState>, acc: seq<(string, JsValue)>)
    : (r: (Result<seq<(string, JsValue)>, Fault>, World))
    decreases |todo|
  {
    if todo == [] then (Ok(acc), w)
    else
      match RearmStep(env, w, todo[0])
      case Stop(f, w1) => (Err(f), w1)
      case Continue(w1, item) => RearmSpec(env, w1, todo[1..], acc + [item])
  }

  /** The callback of an armed timer: it is no longer armed, and the unit is
    * switched off; a failure is only logged. */
  function FireSpec(env: ES.Env, w: World, h: nat, k: ES.Keying): World
    requires h in w.timers
  {
    TurnOffSpec(env, w.(timers := w.timers - {h}), w.timers[h].id, k).1
  }

  // -------------------------------------------------------------- status

  /** `/^(A|B|C|PWR)_(14|58)$/i` and the module id built from its groups. */
  function ModuleOfId(n: string): (r: Option<string>)
  {
    if |n| < 3 then None
    else
      var prefix := ToUpper(n[..|n| - 3]);
      var suffix := n[|n| - 3..];
      if prefix in {"A", "B", "C", "PWR"} && suffix in {"_14", "_58"} then Some(prefix + suffix) else None
  }

  /** Send one command and report its answer. */
  function Query(env: ES.Env, w: World, host: string, c: Command): (r: (Result<JsValue, Fault>, World))
    ensures r.1.log == w.log + [Sent(host, c)]
  {
    var (reply, w1) := SendW(env, w, host, c);
    (if reply.Failed? then Err(DeviceError(reply.status, reply.reason)) else Ok(reply.data), w1)
  }

  /** `getExaustorStatus`: a module name is asked for its `Status`; any
    * other id is parsed as a unit and its relay is asked `Power<relay>`. */
  function StatusSpec(env: ES.Env, w: World, id: string): (r: (Result<JsValue, Fault>, World))
  {
    var n := NormalizeApartmentId(id);
    match ModuleOfId(n)
    case Some(m) =>
      (match ResolveModuleHost(env.hosts, m)
       case Err(f) => (Err(f), w)
       case Ok(host) => Query(env, w, host, Status))
    case None =>
      match ParseApartment(n)
      case Err(f) => (Err(f), w)
      case Ok(u) =>
        match ResolveModuleHost(env.hosts, u.moduleId)
        case Err(f) => (Err(f), w)
        case Ok(host) => Query(env, w, host, PowerQuery(u.relay))
  }

  /** An entry of `getAllModulesStatus`: the module's `Status` answer, or
    * `null` and the reason it failed. */
  datatype ModuleReport = ModuleReport(moduleId: string, status: JsValue, error: Option<string>)

  /** `Status` to each module of `ms`, in order. */
  function StatusSends(ms: seq<(string, string)>): (es: seq<Event>)
    ensures |es| == |ms| && forall i :: 0 <= i < |ms| ==> es[i] == Sent(ms[i].1, Status)
  {
    seq(|ms|, i requires 0 <= i < |ms| => Sent(ms[i].1, Status))
  }

  /** The reports on the modules of `ms`, added to `acc`, when the `Status`
    * of `ms[0]` is the command at position `at` of the log and the others
    * follow it. */
  function StatusAll(env: ES.Env, at: nat, ms: seq<(string, string)>, acc: map<string, ModuleReport>)
    : (r: map<string, ModuleReport>)
    decreases |ms|
  {
    if ms == [] then acc
    else StatusAll(env, at + 1, ms[1..], acc[ms[0].0 := Report(ms[0].0, env.respond(ms[0].1, Status, at))])
  }

  /** The report of one module: its answer, or `null` and the reason. */
  function Report(moduleId: string, reply: Reply): (r: ModuleReport)
    ensures r.moduleId == moduleId
    ensures r.error.Some? <==> reply.Failed?
    ensures r.error.Some? ==> r.status == Null
  {
    if reply.Failed? then ModuleReport(moduleId, Null, Some(reply.reason)) else ModuleReport(moduleId, reply.data, None)
  }

  /** `getAllModulesStatus`: `Status` to every configured module, then the
    * memory of the table. */
  function GetAllModulesStatus(env: ES.Env, w: World): (r: ((map<string, ModuleReport>, seq<ES.MemoryEntry>), World))
  {
    var ms := ListModules(env.hosts);
    ((StatusAll(env, |w.log|, ms, map[]), Snapshot(w.states, env.now)), w.(log := w.log + StatusSends(ms)))
  }

  /** `configureExaustorModule`. */
  function ConfigureSpec(env: ES.Env, w: World, moduleName: string, command: string): (r: (Result<JsValue, Fault>, World))
  {
    match ResolveHostByModule(env.hosts, moduleName)
    case Err(f) => (Err(f), w)
    case Ok(host) => Query(env, w, host, Raw(command))
  }

  // ----------------------------------------------------------- properties

  /** Every entry sits under its own id. */
  predicate KeyedById(s: OrderedMap<ExaustorState>)
  {
    forall k :: k in s.entries ==> s.entries[k].id == k
  }

  /** The armed timer `h` is the own timer of the entry it will switch off,
    * and fires exactly when that entry expires. */
  predicate OwnTimer(w: World, h: nat)
    requires h in w.timers
  {
    var t := w.timers[h];
    t.id in w.states.entries && w.states.entries[t.id].timer == Some(h) && w.states.entries[t.id].expiresAt == Some(t.fireAt)
  }

  /** The timers agree with the table: each armed timer is the own timer of
    * a stored unit and fires at its expiry, so a unit never has two armed
    * timers and no timer switches a unit off before its time; handles
    * already handed out are below `nextTimer`. */
  predicate TimersAgree(w: World)
  {
    KeyedById(w.states) && forall h :: h in w.timers ==> h < w.nextTimer && OwnTimer(w, h)
  }

  /** No armed timer will switch `key` off. */
  predicate NoTimerFor(w: World, key: string)
  {
    forall h :: h in w.timers ==> w.timers[h].id != key
  }

  /** Cancelling the timer of the entry under `key` leaves no timer armed for
    * `key` and keeps the timers in agreement. */
  lemma CancelOwn(w: World, key: string)
    requires TimersAgree(w)
    ensures var w1 := w.(timers := Cancel(w.timers, TimerOf(w.states, key)));
      TimersAgree(w1) && NoTimerFor(w1, key)
  {
    var w1 := w.(timers := Cancel(w.timers, TimerOf(w.states, key)));
    forall h | h in w1.timers ensures h < w1.nextTimer && OwnTimer(w1, h) && w1.timers[h].id != key {
      assert h in w.timers && OwnTimer(w, h);
    }
  }

  /** `scheduleOffTimer` followed by storing the state: when the only timer
    * armed for the unit is the state's own, the timers stay in agreement. */
  lemma StoreScheduled(w: World, s: ExaustorState, minutes: real, now: int)
    requires TimersAgree(w)
    requires forall h :: h in w.timers && w.timers[h].id == s.id ==> s.timer == Some(h)
    ensures var (s1, w1) := Schedule(w, s, minutes, now);
      TimersAgree(w1.(states := Set(w1.states, s1.id, s1)))
  {
    var (s1, w1) := Schedule(w, s, minutes, now);
    var w2 := w1.(states := Set(w1.states, s1.id, s1));
    forall h | h in w2.timers ensures h < w2.nextTimer && OwnTimer(w2, h) {
      if h != w.nextTimer {
        assert h in w.timers && OwnTimer(w, h);
      }
    }
  }

  /** Storing a state without expiry when no timer is armed for it keeps the
    * timers in agreement. */
  lemma StoreUntimed(w: World, s: ExaustorState)
    requires TimersAgree(w) && NoTimerFor(w, s.id)
    ensures TimersAgree(w.(states := Set(w.states, s.id, s.(expiresAt := None))))
  {
    var w2 := w.(states := Set(w.states, s.id, s.(expiresAt := None)));
    forall h | h in w2.timers ensures h < w2.nextTimer && OwnTimer(w2, h) {
      assert OwnTimer(w, h);
    }
  }

  /** `setState` on a new state, when no timer is armed for its id, keeps
    * the timers in agreement. */
  lemma SetStateAgrees(w: World, s: ExaustorState, minutes: Option<real>, now: int)
    requires TimersAgree(w) && NoTimerFor(w, s.id) && s.timer.None?
    ensures TimersAgree(SetState(w, s, minutes, now))
  {
    if minutes.Some? && minutes.value > 0.0 {
      StoreScheduled(w, s, minutes.value, now);
    } else {
      StoreUntimed(w, s);
    }
  }

  /** Switching a unit on while cancelling the timer of the entry it
    * replaces keeps the timers in agreement, whatever the outcome. */
  lemma TurnOnKeepsTimers(env: ES.Env, w: World, id: string, minutes: Option<real>, k: ES.Keying)
    requires TimersAgree(w)
    ensures TimersAgree(TurnOnSpec(env, w, id, minutes, k, CancelPrevious).1)
  {
    var nid := NormalizeApartmentId(id);
    if ParseApartment(nid).Ok? {
      var u := ParseApartment(nid).value;
      var key := ES.StateKey(k, nid, u);
      var host := ResolveModuleHost(env.hosts, u.moduleId);
      if host.Ok? {
        var (reply, w1) := SendW(env, w, host.value, PowerOn(u.relay));
        if reply.Answered? {
          CancelOwn(w1, key);
          SetStateAgrees(w1.(timers := Cancel(w1.timers, TimerOf(w1.states, key))), ExaustorState(key, u, None, None), minutes, env.now);
        }
      }
    }
  }

  /** As written, switching on a unit that is already on with an armed
    * timer leaves that timer armed although the entry now holds a new state
    * without it: the old timer will still switch the unit off, at the old
    * instant, and the timers no longer agree with the table. */
  lemma TurnOnLeavesOldTimer(env: ES.Env, w: World, key: string, u: Unit, minutes: Option<real>, h: nat)
    requires TimersAgree(w) && h in w.timers && w.timers[h].id == key
    requires TurnOnUnit(env, w, key, u, minutes, KeepPrevious).0.Ok?
    ensures var w2 := TurnOnUnit(env, w, key, u, minutes, KeepPrevious).1;
      && h in w2.timers && w2.timers[h] == w.timers[h] && w2.timers[h].id == key
      && w2.states.entries[key].timer != Some(h)
      && !TimersAgree(w2)
  {
    assert OwnTimer(w, h);
    var host := ResolveModuleHost(env.hosts, u.moduleId).value;
    var (reply, w1) := SendW(env, w, host, PowerOn(u.relay));
    var entry := ExaustorState(key, u, None, None);
    var w2 := SetState(w1, entry, minutes, env.now);
    assert TurnOnUnit(env, w, key, u, minutes, KeepPrevious).1 == w2;
    if minutes.Some? && minutes.value > 0.0 {
      assert w2.timers == w1.timers[w1.nextTimer := Timer(key, ExpiryAfter(env.now, minutes.value))];
      assert w2.states.entries[key].timer == Some(w1.nextTimer);
    } else {
      assert w2.timers == w1.timers;
    }
  }

  /** The sequence that shows it: a unit with no timer is switched on for
    * `m1 > 0` minutes, and then switched on again; the timer the first call
    * armed is still armed for the first expiry, while the entry no longer
    * holds it. */
  lemma TurnOnTwiceLeaves(env1: ES.Env, env2: ES.Env, w: World, key: string, u: Unit, m1: real, m2: Option<real>)
    requires TimersAgree(w) && NoTimerFor(w, key) && m1 > 0.0
    requires TurnOnUnit(env1, w, key, u, Some(m1), KeepPrevious).0.Ok?
    requires TurnOnUnit(env2, TurnOnUnit(env1, w, key, u, Some(m1), KeepPrevious).1, key, u, m2, KeepPrevious).0.Ok?
    ensures var w1 := TurnOnUnit(env1, w, key, u, Some(m1), KeepPrevious).1;
      var w2 := TurnOnUnit(env2, w1, key, u, m2, KeepPrevious).1;
      && w.nextTimer in w2.timers && w2.timers[w.nextTimer] == Timer(key, ExpiryAfter(env1.now, m1))
      && w2.states.entries[key].timer != Some(w.nextTimer)
      && !TimersAgree(w2)
  {
    var host := ResolveModuleHost(env1.hosts, u.moduleId).value;
    var (reply, w0) := SendW(env1, w, host, PowerOn(u.relay));
    var entry := ExaustorState(key, u, None, None);
    SetStateAgrees(w0, entry, Some(m1), env1.now);
    var w1 := SetState(w0, entry, Some(m1), env1.now);
    assert TurnOnUnit(env1, w, key, u, Some(m1), KeepPrevious).1 == w1;
    assert w1.timers[w.nextTimer] == Timer(key, ExpiryAfter(env1.now, m1));
    TurnOnLeavesOldTimer(env2, w1, key, u, m2, w.nextTimer);
  }

  /** Each unit of `todo` is the state the table holds under its id. */
  predicate StoredAsIs(todo: seq<ExaustorState>, states: OrderedMap<ExaustorState>)
  {
    forall s :: s in todo ==> s.id in states.entries && states.entries[s.id] == s
  }

  /** No id occurs twice in `todo`. */
  predicate IdsDistinct(todo: seq<ExaustorState>)
    decreases |todo|
  {
    todo == [] || ((forall s :: s in todo[1..] ==> s.id != todo[0].id) && IdsDistinct(todo[1..]))
  }

  function Ids(vs: seq<ExaustorState>): (ids: seq<string>)
    ensures |ids| == |vs| && forall i :: 0 <= i < |vs| ==> ids[i] == vs[i].id
  {
    seq(|vs|, i requires 0 <= i < |vs| => vs[i].id)
  }

  lemma {:induction false} DistinctIds(vs: seq<ExaustorState>)
    requires Distinct(Ids(vs))
    ensures IdsDistinct(vs)
    decreases |vs|
  {
    if vs != [] {
      assert Ids(vs)[1..] == Ids(vs[1..]);
      forall x | x in vs[1..] ensures x.id != vs[0].id {
        var j :| 0 <= j < |vs[1..]| && vs[1..][j] == x;
        assert Ids(vs[1..])[j] == x.id;
      }
      DistinctIds(vs[1..]);
    }
  }

  lemma {:induction false} ColumnDistinct(vs: seq<ExaustorState>, t: Tower, g: Group)
    requires IdsDistinct(vs)
    ensures IdsDistinct(Column(vs, t, g))
    decreases |vs|
  {
    if vs != [] {
      ColumnDistinct(vs[1..], t, g);
    }
  }

  /** The column of a table keyed by id holds stored states with distinct ids. */
  lemma ColumnReady(states: OrderedMap<ExaustorState>, t: Tower, g: Group)
    requires KeyedById(states)
    ensures StoredAsIs(Column(Values(states), t, g), states) && IdsDistinct(Column(Values(states), t, g))
  {
    var vs := Values(states);
    assert Ids(vs) == states.keys;
    DistinctIds(vs);
    ColumnDistinct(vs, t, g);
    forall x | x in Column(vs, t, g) ensures x.id in states.entries && states.entries[x.id] == x {
      var j :| 0 <= j < |vs| && vs[j] == x;
      assert states.keys[j] in states.entries;
    }
  }

  /** Re-scheduling a stored unit keeps the timers in agreement, keeps the
    * keys and the log, and touches no other entry. */
  lemma RescheduleKeeps(w: World, s: ExaustorState, now: int)
    requires TimersAgree(w) && s.id in w.states.entries && w.states.entries[s.id] == s
    ensures var w2 := Reschedule(w, s, now);
      && TimersAgree(w2) && w2.states.keys == w.states.keys && w2.log == w.log
      && forall x :: x in w.states.entries && x != s.id ==> x in w2.states.entries && w2.states.entries[x] == w.states.entries[x]
  {
    var rem := RemainingMinutes(s.expiresAt, now);
    if rem.Some? {
      forall h | h in w.timers && w.timers[h].id == s.id ensures s.timer == Some(h) {
        assert OwnTimer(w, h);
      }
      StoreScheduled(w, s, rem.value as real, now);
    }
  }

  /** The restore loop keeps the timers in agreement. */
  lemma {:induction false} RearmKeepsTimers(env: ES.Env, w: World, todo: seq<ExaustorState>, acc: seq<(string, JsValue)>)
    requires TimersAgree(w) && StoredAsIs(todo, w.states) && IdsDistinct(todo)
    ensures TimersAgree(RearmSpec(env, w, todo, acc).1)
    ensures RearmSpec(env, w, todo, acc).1.states.keys == w.states.keys
    decreases |todo|
  {
    if todo != [] {
      var s := todo[0];
      var host := ResolveModuleHost(env.hosts, s.unit.moduleId);
      if host.Ok? {
        var (reply, w1) := SendW(env, w, host.value, PowerOn(s.unit.relay));
        if reply.Answered? {
          RescheduleKeeps(w1, s, env.now);
          var w2 := Reschedule(w1, s, env.now);
          assert RearmStep(env, w, s) == Continue(w2, (s.id, Arr([reply.data])));
          RearmKeepsTimers(env, w2, todo[1..], acc + [(s.id, Arr([reply.data]))]);
        }
      }
    }
  }

  /** `clearState` removes the entry and every timer armed for it. */
  lemma ClearKeeps(w: World, key: string)
    requires TimersAgree(w)
    ensures var w2 := ClearState(w, key);
      TimersAgree(w2) && NoTimerFor(w2, key) && key !in w2.states.entries
  {
    CancelOwn(w, key);
    var w1 := w.(timers := Cancel(w.timers, TimerOf(w.states, key)));
    var w2 := ClearState(w, key);
    forall h | h in w2.timers ensures h < w2.nextTimer && OwnTimer(w2, h) {
      assert OwnTimer(w1, h);
    }
  }

  /** Switching a unit off keeps the timers in agreement, whatever the
    * outcome. */
  lemma TurnOffKeepsTimers(env: ES.Env, w: World, id: string, k: ES.Keying)
    requires TimersAgree(w)
    ensures TimersAgree(TurnOffSpec(env, w, id, k).1)
  {
    var nid := NormalizeApartmentId(id);
    if ParseApartment(nid).Ok? {
      var u := ParseApartment(nid).value;
      TurnOffUnitKeepsTimers(env, w, ES.StateKey(k, nid, u), u);
    }
  }

  lemma TurnOffUnitKeepsTimers(env: ES.Env, w: World, key: string, u: Unit)
    requires TimersAgree(w)
    ensures TimersAgree(TurnOffUnit(env, w, key, u).1)
  {
    var pwr := ResolveModuleHost(env.hosts, PwrModuleOf(u.group));
    if pwr.Ok? {
      var (reply, w1) := SendW(env, w, pwr.value, PowerOn(PwrRelayForTower(u.tower)));
      if reply.Answered? {
        ClearKeeps(w1, key);
        var w2 := ClearState(w1, key);
        ColumnReady(w2.states, u.tower, u.group);
        RearmKeepsTimers(env, w2, Column(Values(w2.states), u.tower, u.group), []);
      }
    }
  }

  /** A timer firing keeps the timers in agreement. */
  lemma FireKeepsTimers(env: ES.Env, w: World, h: nat, k: ES.Keying)
    requires TimersAgree(w) && h in w.timers
    ensures TimersAgree(FireSpec(env, w, h, k))
  {
    var w1 := w.(timers := w.timers - {h});
    forall h' | h' in w1.timers ensures h' < w1.nextTimer && OwnTimer(w1, h') {
      assert OwnTimer(w, h');
    }
    TurnOffKeepsTimers(env, w1, w.timers[h].id, k);
  }

  /** The host a unit's module resolves to (empty when it does not). */
  function HostFor(env: ES.Env, s: ExaustorState): string
  {
    var h := ResolveModuleHost(env.hosts, s.unit.moduleId);
    if h.Ok? then h.value else ""
  }

  /** One `Power<relay> On` per unit, in order, and nothing else. */
  function RearmSends(env: ES.Env, todo: seq<ExaustorState>): (es: seq<Event>)
    ensures |es| == |todo|
    ensures forall i :: 0 <= i < |todo| ==> es[i] == Sent(HostFor(env, todo[i]), PowerOn(todo[i].unit.relay))
  {
    seq(|todo|, i requires 0 <= i < |todo| => Sent(HostFor(env, todo[i]), PowerOn(todo[i].unit.relay)))
  }

  lemma RearmSendsCons(env: ES.Env, todo: seq<ExaustorState>)
    requires todo != []
    ensures RearmSends(env, todo) == [Sent(HostFor(env, todo[0]), PowerOn(todo[0].unit.relay))] + RearmSends(env, todo[1..])
  {
  }

  /** A completed loop took a first step that did not stop it, and ended
    * where the rest of the loop ends. */
  lemma RearmFirstStep(env: ES.Env, w: World, todo: seq<ExaustorState>, acc: seq<(string, JsValue)>)
    requires todo != [] && RearmSpec(env, w, todo, acc).0.Ok?
    ensures var r := RearmStep(env, w, todo[0]);
      && r.Continue?
      && RearmSpec(env, w, todo, acc) == RearmSpec(env, r.w, todo[1..], acc + [r.outcome])
  {
  }

  /** A step that goes on sent the unit's `Power<relay> On` to its module and
    * nothing else, and reports under the unit's id. */
  lemma RearmStepFacts(env: ES.Env, w: World, s: ExaustorState)
    ensures var r := RearmStep(env, w, s);
      r.Continue? ==> r.w.log == w.log + [Sent(HostFor(env, s), PowerOn(s.unit.relay))] && r.outcome.0 == s.id
  {
  }

  /** A completed restore loop switched every unit on again, one command
    * each, in column order and without any pause. */
  lemma {:induction false} RearmLog(env: ES.Env, w: World, todo: seq<ExaustorState>, acc: seq<(string, JsValue)>)
    requires RearmSpec(env, w, todo, acc).0.Ok?
    ensures RearmSpec(env, w, todo, acc).1.log == w.log + RearmSends(env, todo)
    decreases |todo|
  {
    if todo != [] {
      RearmFirstStep(env, w, todo, acc);
      var r := RearmStep(env, w, todo[0]);
      RearmStepFacts(env, w, todo[0]);
      RearmLog(env, r.w, todo[1..], acc + [r.outcome]);
      RearmSendsCons(env, todo);
    }
  }

  /** `os` holds one outcome per unit of `todo`, in order and under its id. */
  predicate OutcomeIds(os: seq<(string, JsValue)>, todo: seq<ExaustorState>)
  {
    |os| == |todo| && forall i :: 0 <= i < |todo| ==> os[i].0 == todo[i].id
  }

  lemma OutcomeIdsCons(o: (string, JsValue), os: seq<(string, JsValue)>, todo: seq<ExaustorState>)
    requires todo != [] && o.0 == todo[0].id && OutcomeIds(os, todo[1..])
    ensures OutcomeIds([o] + os, todo)
  {
    forall i | 0 <= i < |todo| ensures ([o] + os)[i].0 == todo[i].id {
      if i > 0 { assert todo[1..][i - 1] == todo[i] && ([o] + os)[i] == os[i - 1]; }
    }
  }

  /** A completed restore loop appends one outcome per unit, in order. */
  lemma {:induction false} RearmOutcomes(env: ES.Env, w: World, todo: seq<ExaustorState>, acc: seq<(string, JsValue)>)
    requires RearmSpec(env, w, todo, acc).0.Ok?
    ensures var rs := RearmSpec(env, w, todo, acc).0.value;
      |acc| <= |rs| && rs[..|acc|] == acc && OutcomeIds(rs[|acc|..], todo)
    decreases |todo|
  {
    if todo != [] {
      RearmFirstStep(env, w, todo, acc);
      var r := RearmStep(env, w, todo[0]);
      RearmStepFacts(env, w, todo[0]);
      var acc' := acc + [r.outcome];
      RearmOutcomes(env, r.w, todo[1..], acc');
      var rs := RearmSpec(env, r.w, todo[1..], acc').0.value;
      ES.PrefixStep(rs, acc, r.outcome);
      OutcomeIdsCons(r.outcome, rs[|acc'|..], todo);
    }
  }

  /** The expiry a completed restore loop leaves a unit with: a unit with
    * minutes remaining expires that many whole minutes from now, and any
    * other is left as it was. */
  function RearmedExpiry(s: ExaustorState, now: int): Option<int>
  {
    match RemainingMinutes(s.expiresAt, now)
    case Some(m) => Some(now + m * 60000)
    case None => s.expiresAt
  }

  lemma RescheduleExpiry(w: World, s: ExaustorState, now: int)
    requires s.id in w.states.entries && w.states.entries[s.id] == s
    ensures s.id in Reschedule(w, s, now).states.entries
    ensures Reschedule(w, s, now).states.entries[s.id].expiresAt == RearmedExpiry(s, now)
  {
    var rem := RemainingMinutes(s.expiresAt, now);
    if rem.Some? {
      WholeMinutesExpiry(now, rem.value);
    }
  }

  /** A completed restore loop gives each unit of the column the expiry of
    * `RearmedExpiry`, touches no other entry, and keeps the keys. */
  lemma {:induction false} RearmExpiries(env: ES.Env, w: World, todo: seq<ExaustorState>, acc: seq<(string, JsValue)>)
    requires TimersAgree(w) && StoredAsIs(todo, w.states) && IdsDistinct(todo)
    requires RearmSpec(env, w, todo, acc).0.Ok?
    ensures var w2 := RearmSpec(env, w, todo, acc).1;
      && w2.states.keys == w.states.keys
      && (forall s :: s in todo ==> w2.states.entries[s.id].expiresAt == RearmedExpiry(s, env.now))
      && (forall x :: x in w.states.entries && (forall s :: s in todo ==> s.id != x) ==> w2.states.entries[x] == w.states.entries[x])
    decreases |todo|
  {
    if todo != [] {
      var s := todo[0];
      var host := ResolveModuleHost(env.hosts, s.unit.moduleId);
      var (reply, w1) := SendW(env, w, host.value, PowerOn(s.unit.relay));
      var w2 := Reschedule(w1, s, env.now);
      var item := (s.id, Arr([reply.data]));
      assert RearmStep(env, w, s) == Continue(w2, item);
      RescheduleKeeps(w1, s, env.now);
      RescheduleExpiry(w1, s, env.now);
      RearmExpiries(env, w2, todo[1..], acc + [item]);
    }
  }

  /** Every unit of `column` is stored and expires as `RearmedExpiry` says. */
  predicate ColumnRearmed(w: World, column: seq<ExaustorState>, now: int)
  {
    forall s :: s in column ==> s.id in w.states.entries && w.states.entries[s.id].expiresAt == RearmedExpiry(s, now)
  }

  /** Once the cut is answered, the unit's entry and every timer for it are
    * gone, whether or not the restore loop completes, and the timers still
    * agree with the table. */
  lemma RearmAfterClear(env: ES.Env, w1: World, key: string, u: Unit)
    requires TimersAgree(w1)
    ensures var w2 := ClearState(w1, key);
      var w3 := RearmSpec(env, w2, Column(Values(w2.states), u.tower, u.group), []).1;
      key !in w3.states.entries && NoTimerFor(w3, key) && TimersAgree(w3)
  {
    ClearKeeps(w1, key);
    var w2 := ClearState(w1, key);
    ColumnReady(w2.states, u.tower, u.group);
    RearmKeepsTimers(env, w2, Column(Values(w2.states), u.tower, u.group), []);
    var w3 := RearmSpec(env, w2, Column(Values(w2.states), u.tower, u.group), []).1;
    assert key !in w3.states.keys;
    forall h | h in w3.timers ensures w3.timers[h].id != key {
      assert OwnTimer(w3, h);
    }
  }

  /** A completed restore loop over a column of the table switched each
    * unit on again, in order and without pauses, whatever its remaining
    * time, reported one outcome per unit, and scheduled again for their
    * remaining whole minutes the units that had some. */
  lemma RearmColumnDone(env: ES.Env, w2: World, t: Tower, g: Group)
    requires TimersAgree(w2)
    requires RearmSpec(env, w2, Column(Values(w2.states), t, g), []).0.Ok?
    ensures var column := Column(Values(w2.states), t, g);
      var out := RearmSpec(env, w2, column, []);
      && out.1.log == w2.log + RearmSends(env, column)
      && OutcomeIds(out.0.value, column)
      && ColumnRearmed(out.1, column, env.now)
  {
    var column := Column(Values(w2.states), t, g);
    ColumnReady(w2.states, t, g);
    RearmLog(env, w2, column, []);
    RearmOutcomes(env, w2, column, []);
    RearmExpiries(env, w2, column, []);
    assert [] + RearmSpec(env, w2, column, []).0.value == RearmSpec(env, w2, column, []).0.value;
  }

  /** `turnOffExaustor` on a parsed unit. Without a host for the group's PWR
    * module nothing happens; otherwise the tower's PWR relay is fired first,
    * and when that fails the table and timers are left as they were. When
    * it answers, `RearmAfterClear` describes the rest, and a completed call
    * reports the PWR module's answer. */
  lemma TurnOffEffect(env: ES.Env, w: World, key: string, u: Unit)
    requires TimersAgree(w)
    ensures var cut := ResolveModuleHost(env.hosts, PwrModuleOf(u.group));
      var (r, w2) := TurnOffUnit(env, w, key, u);
      && (cut.Err? ==> r == Err(cut.error) && w2 == w)
      && (cut.Ok? ==>
            var reply := env.respond(cut.value, PowerOn(PwrRelayForTower(u.tower)), |w.log|);
            var w1 := w.(log := w.log + [Sent(cut.value, PowerOn(PwrRelayForTower(u.tower)))]);
            && (reply.Failed? ==> r == Err(DeviceError(reply.status, reply.reason)) && w2 == w1)
            && (reply.Answered? ==>
                  && w2 == RearmSpec(env, ClearState(w1, key), Column(Values(ClearState(w1, key).states), u.tower, u.group), []).1
                  && (r.Ok? ==> r.value.off == Arr([reply.data]))))
  {
  }

  /** `turnOnExaustor` on a parsed unit: one `Power<relay> On` to its module;
    * when it answers, the reply comes back as a one-element array and the
    * unit is stored under `key` with its own timer firing at its expiry
    * when a positive number of minutes is given, and with no expiry and no
    * timer otherwise. Nothing is stored when the command fails. */
  lemma TurnOnEffect(env: ES.Env, w: World, key: string, u: Unit, minutes: Option<real>, p: TimerPolicy)
    ensures var host := ResolveModuleHost(env.hosts, u.moduleId);
      var (r, w2) := TurnOnUnit(env, w, key, u, minutes, p);
      && (host.Err? ==> r == Err(host.error) && w2 == w)
      && (host.Ok? ==>
            var reply := env.respond(host.value, PowerOn(u.relay), |w.log|);
            && w2.log == w.log + [Sent(host.value, PowerOn(u.relay))]
            && (reply.Failed? ==> r == Err(DeviceError(reply.status, reply.reason)) && w2.states == w.states && w2.timers == w.timers)
            && (reply.Answered? ==> r == Ok(Arr([reply.data])) && StoredOn(w2, key, u, minutes, env.now)))
  {
  }

  /** The entry under `key` is the unit `u`, switched on for `minutes`. */
  predicate StoredOn(w: World, key: string, u: Unit, minutes: Option<real>, now: int)
  {
    && key in w.states.entries
    && var e := w.states.entries[key];
    && e.id == key && e.unit == u
    && if minutes.Some? && minutes.value > 0.0 then
         && e.expiresAt == Some(ExpiryAfter(now, minutes.value))
         && e.timer.Some? && e.timer.value in w.timers
         && w.timers[e.timer.value] == Timer(key, ExpiryAfter(now, minutes.value))
       else e.expiresAt.None? && e.timer.None?
  }

  /** A name of the host table is one of the four prefixes followed by one
    * of the two group suffixes. */
  lemma ModuleNameParts(n: string)
    requires n in ModuleIndexMap
    ensures |n| >= 3 && n[..|n| - 3] in {"A", "B", "C", "PWR"} && n[|n| - 3..] in {"_14", "_58"}
  {
    var j :| 0 <= j < 8 && ModuleIndexMap[j] == n;
    var pre := if j < 2 then "A" else if j < 4 then "B" else if j < 6 then "C" else "PWR";
    var suf := if j % 2 == 0 then "_14" else "_58";
    assert n == pre + suf;
    SplitLast3(pre, suf);
  }

  lemma SplitLast3(pre: string, suf: string)
    requires |suf| == 3
    ensures |pre + suf| >= 3 && (pre + suf)[..|pre + suf| - 3] == pre && (pre + suf)[|pre + suf| - 3..] == suf
  {
  }

  /** Every such name is in the host table. */
  lemma ModuleNameJoin(pre: string, suf: string)
    requires pre in {"A", "B", "C", "PWR"} && suf in {"_14", "_58"}
    ensures pre + suf in ModuleIndexMap
  {
    assert ModuleIndexMap[0] == "A" + "_14" && ModuleIndexMap[1] == "A" + "_58";
    assert ModuleIndexMap[2] == "B" + "_14" && ModuleIndexMap[3] == "B" + "_58";
    assert ModuleIndexMap[4] == "C" + "_14" && ModuleIndexMap[5] == "C" + "_58";
    assert ModuleIndexMap[6] == "PWR" + "_14" && ModuleIndexMap[7] == "PWR" + "_58";
  }

  /** On a normalised id (no lower-case letter), the module pattern matches
    * exactly the names of the host table, and names the module as given. */
  lemma ModuleOfNormal(n: string)
    requires NoLower(n)
    ensures ModuleOfId(n).Some? <==> ModuleSlot(n).Some?
    ensures ModuleOfId(n).Some? ==> ModuleOfId(n).value == n
  {
    if |n| >= 3 {
      ToUpperOfNoLower(n[..|n| - 3]);
      var pre, suf := n[..|n| - 3], n[|n| - 3..];
      assert pre + suf == n;
      if pre in {"A", "B", "C", "PWR"} && suf in {"_14", "_58"} {
        ModuleNameJoin(pre, suf);
      }
    }
    if n in ModuleIndexMap {
      ModuleNameParts(n);
    }
  }

  /** `getExaustorStatus` on the name of a module asks that module for its
    * `Status`, and only adds that one command to the log. */
  lemma StatusOfModule(env: ES.Env, w: World, id: string)
    requires ModuleSlot(NormalizeApartmentId(id)).Some?
    ensures var h := ResolveModuleHost(env.hosts, NormalizeApartmentId(id));
      var (r, w2) := StatusSpec(env, w, id);
      && (h.Err? ==> r.Err? && w2 == w)
      && (h.Ok? ==> w2 == w.(log := w.log + [Sent(h.value, Status)]))
  {
    ModuleOfNormal(NormalizeApartmentId(id));
  }

  /** On any other id it asks the relay of the unit the id names for
    * `Power<relay>`, and only adds that one command to the log. */
  lemma StatusOfUnit(env: ES.Env, w: World, id: string)
    requires ModuleSlot(NormalizeApartmentId(id)).None?
    ensures var p := ParseApartment(NormalizeApartmentId(id));
      var (r, w2) := StatusSpec(env, w, id);
      && (p.Err? ==> r == Err(p.error) && w2 == w)
      && (p.Ok? ==>
            var h := ResolveModuleHost(env.hosts, p.value.moduleId);
            && (h.Err? ==> r.Err? && w2 == w)
            && (h.Ok? ==> w2 == w.(log := w.log + [Sent(h.value, PowerQuery(p.value.relay))])))
  {
    ModuleOfNormal(NormalizeApartmentId(id));
  }


  /** Each report sits under its module's id, and a failed module reports
    * `null`. */
  predicate ReportsWellFormed(reports: map<string, ModuleReport>)
  {
    forall m :: m in reports ==> reports[m].moduleId == m && (reports[m].error.Some? ==> reports[m].status == Null)
  }

  /** The module ids of `ms`. */
  function ModuleIds(ms: seq<(string, string)>): (ids: set<string>)
    ensures forall m :: m in ids <==> exists x :: x in ms && x.0 == m
    decreases |ms|
  {
    if ms == [] then {}
    else
      assert forall x :: x in ms <==> x == ms[0] || x in ms[1..];
      {ms[0].0} + ModuleIds(ms[1..])
  }

  /** Asking every module of `ms` adds one report per module to those it
    * started with. */
  lemma {:induction false} StatusAllKeys(env: ES.Env, at: nat, ms: seq<(string, string)>, acc: map<string, ModuleReport>)
    ensures StatusAll(env, at, ms, acc).Keys == acc.Keys + ModuleIds(ms)
    decreases |ms|
  {
    if ms != [] {
      var report := Report(ms[0].0, env.respond(ms[0].1, Status, at));
      StatusAllKeys(env, at + 1, ms[1..], acc[ms[0].0 := report]);
    }
  }

  /** The reports added are well formed. */
  lemma {:induction false} StatusAllWellFormed(env: ES.Env, at: nat, ms: seq<(string, string)>, acc: map<string, ModuleReport>)
    requires ReportsWellFormed(acc)
    ensures ReportsWellFormed(StatusAll(env, at, ms, acc))
    decreases |ms|
  {
    if ms != [] {
      var report := Report(ms[0].0, env.respond(ms[0].1, Status, at));
      StatusAllWellFormed(env, at + 1, ms[1..], acc[ms[0].0 := report]);
    }
  }

  /** `getAllModulesStatus` reports on exactly the configured modules, sends
    * each one `Status`, and its memory is the table as it stands. */
  lemma AllModulesStatusEffect(env: ES.Env, w: World)
    ensures var ((reports, memory), w2) := GetAllModulesStatus(env, w);
      && (forall m :: m in reports <==> ModuleSlot(m).Some? && env.hosts[ModuleSlot(m).value] != "")
      && ReportsWellFormed(reports)
      && w2 == w.(log := w.log + StatusSends(ListModules(env.hosts)))
      && memory == Snapshot(w.states, env.now)
  {
    var ms := ListModules(env.hosts);
    StatusAllKeys(env, |w.log|, ms, map[]);
    StatusAllWellFormed(env, |w.log|, ms, map[]);
    forall m ensures m in ModuleIds(ms) <==> ModuleSlot(m).Some? && env.hosts[ModuleSlot(m).value] != "" {
      if ModuleSlot(m).Some? && env.hosts[ModuleSlot(m).value] != "" {
        var j := ModuleSlot(m).value;
        assert (ModuleIndexMap[j], env.hosts[j]) in ms;
      }
      if m in ModuleIds(ms) {
        var x :| x in ms && x.0 == m;
        var j :| 0 <= j < 8 && env.hosts[j] != "" && x == (ModuleIndexMap[j], env.hosts[j]);
        ModuleIndexMapDistinct();
        assert ModuleSlot(m).value == j;
      }
    }
  }

  /** `configureExaustorModule` sends the command as given to the host the
    * module names, and nothing when it names none. */
  lemma ConfigureEffect(env: ES.Env, w: World, moduleName: string, command: string)
    ensures var h := ResolveHostByModule(env.hosts, moduleName);
      var (r, w2) := ConfigureSpec(env, w, moduleName, command);
      && (h.Err? ==> r == Err(h.error) && w2 == w)
      && (h.Ok? ==> w2 == w.(log := w.log + [Sent(h.value, Raw(command))]))
  {
  }
}

