/** The exhaust-fan relay service: the in-memory table of the units that are
  * on (`exhaustStates`, a JavaScript `Map` in insertion order), the status
  * cache of the relay modules (`modulesStatusCache`) and the operations that
  * drive the modules through the relay bus.
  *
  * Every operation is first given as a function from the old `World` (both
  * tables and the bus log) to its result and the new `World`; the lemmas
  * state what the service promises about those functions, and the class
  * `Service` (in exhaust_machine.dfy) performs the same steps on its fields
  * and is proved to agree with them. */
module ExhaustService {
  import opened Wrappers
  import opened JsText
  import opened JsValues
  import opened OrderedMaps
  import opened RelayBus
  import opened ExhaustUnits
  import Lists

  /** `EXHAUST_REARM_DELAY_MS`. */
  const RearmDelayMs: nat := 2000
  /** `EXPECTED_PULSE_TIME`. */
  const ExpectedPulseTime: nat := 5
  /** `EXPECTED_RELAY_COUNT`. */
  const ExpectedRelayCount: nat := 4
  /** A unit is re-armed after a cut only with more remaining minutes than this. */
  const RearmThreshold: int := 5

  /** An entry of `exhaustStates`. */
  datatype ExhaustState = ExhaustState(id: string, unit: Unit, expiresAt: Option<int>)

  /** An entry of `modulesStatusCache`. */
  datatype CacheEntry = CacheEntry(status: JsValue, pulseTime: JsValue, updatedAt: int, errorCode: Option<string>, error: Option<string>)

  datatype World = World(states: OrderedMap<ExhaustState>, cache: map<string, CacheEntry>, log: seq<Event>)

  /** What an operation reads from outside: the host table, the answers of
    * the modules and the clock. */
  datatype Env = Env(hosts: HostTable, respond: Responder, now: nat)

  /** Which key a unit is stored under. The service as written stores it
    * under its normalised id, so `A1` and `A_1` are two entries for one fan;
    * `ByUnit` stores it under the canonical id of the unit it parses to. */
  datatype Keying = AsWritten | ByUnit

  /** The canonical id of a unit: tower letter and final digit (`A1`). */
  function CanonicalId(u: Unit): string
  {
    TowerName(u.tower) + NatToDecimal(u.final)
  }

  function StateKey(k: Keying, nid: string, u: Unit): string
  {
    if k.AsWritten? then nid else CanonicalId(u)
  }

  /** Sending one command: the reply the module gives at this point of the
    * log, and the log with the command appended. */
  function SendW(env: Env, w: World, host: string, c: Command): (r: (Reply, World))
    ensures r.0 == env.respond(host, c, |w.log|)
    ensures r.1 == w.(log := w.log + [Sent(host, c)])
  {
    (env.respond(host, c, |w.log|), w.(log := w.log + [Sent(host, c)]))
  }

  // ------------------------------------------------------------------ memory

  /** `setExpiry` / `setState`: with a positive number of minutes the unit
    * expires that many minutes from now (rounded to the millisecond);
    * otherwise it has no expiry. */
  function ExpiryFor(minutes: Option<real>, now: int): (e: Option<int>)
    ensures e.Some? <==> minutes.Some? && minutes.value > 0.0
    ensures e.Some? ==> e.value == ExpiryAfter(now, minutes.value) && e.value >= now
  {
    if minutes.Some? && minutes.value > 0.0 then Some(ExpiryAfter(now, minutes.value)) else None
  }

  /** Every entry is stored under its own id, and its unit is a unit of the
    * building (relay, group and module agree with tower and final). */
  predicate KeyedById(s: OrderedMap<ExhaustState>)
  {
    forall k :: k in s.entries ==> s.entries[k].id == k && IsUnit(s.entries[k].unit)
  }

  predicate IsUnit(u: Unit)
  {
    1 <= u.final <= 8 && u == UnitOf(u.tower, u.final)
  }

  /** With `ByUnit` keys, every entry is stored under the canonical id of its
    * unit. */
  predicate KeyedByUnit(s: OrderedMap<ExhaustState>)
  {
    forall k :: k in s.entries ==> k == CanonicalId(s.entries[k].unit)
  }

  /** A row of `buildMemorySnapshot`. */
  datatype MemoryEntry = MemoryEntry(
    id: string, tower: Tower, final: nat, group: Group, relay: nat, moduleId: string,
    expiresAt: Option<int>, remainingMinutes: Option<int>)

  function MemoryEntryOf(s: ExhaustState, now: int): MemoryEntry
  {
    MemoryEntry(s.id, s.unit.tower, s.unit.final, s.unit.group, s.unit.relay, s.unit.moduleId,
      s.expiresAt, RemainingMinutes(s.expiresAt, now))
  }

  /** `buildMemorySnapshot`: one row per unit that is on, in insertion order. */
  function MemorySnapshot(states: OrderedMap<ExhaustState>, now: int): (m: seq<MemoryEntry>)
    ensures |m| == |states.keys|
    ensures forall i :: 0 <= i < |m| ==> m[i] == MemoryEntryOf(states.entries[states.keys[i]], now)
  {
    var vs := Values(states);
    seq(|vs|, i requires 0 <= i < |vs| => MemoryEntryOf(vs[i], now))
  }

  /** `Array.prototype.find` on the snapshot by id. */
  function FindMemory(m: seq<MemoryEntry>, id: string): (r: Option<MemoryEntry>)
    ensures r.Some? ==> r.value in m && r.value.id == id
    ensures r.None? ==> forall i :: 0 <= i < |m| ==> m[i].id != id
  {
    if m == [] then None else if m[0].id == id then Some(m[0]) else FindMemory(m[1..], id)
  }

  /** On a valid table the snapshot row of an id is the row of the entry
    * stored under it. */
  lemma FindMemoryOfValid(states: OrderedMap<ExhaustState>, now: int, id: string)
    requires KeyedById(states)
    ensures FindMemory(MemorySnapshot(states, now), id)
      == if id in states.entries then Some(MemoryEntryOf(states.entries[id], now)) else None
  {
    var m := MemorySnapshot(states, now);
    if id in states.entries {
      var j :| 0 <= j < |states.keys| && states.keys[j] == id;
      forall i | 0 <= i < |m| && m[i].id == id ensures m[i] == m[j] {
        assert states.keys[i] in states.entries;
      }
      FindFirst(m, id, j);
    } else {
      forall i | 0 <= i < |m| ensures m[i].id != id {
        assert states.keys[i] in states.entries;
      }
    }
  }

  lemma {:induction false} FindFirst(m: seq<MemoryEntry>, id: string, j: nat)
    requires j < |m| && m[j].id == id
    requires forall i :: 0 <= i < |m| && m[i].id == id ==> m[i] == m[j]
    ensures FindMemory(m, id) == Some(m[j])
  {
    if m[0].id != id {
      FindFirst(m[1..], id, j - 1);
    }
  }

  // ------------------------------------------------------------------ turn on

  /** `turnOnExhaust`: parse the normalised id, resolve the unit's module,
    * send `Power<relay> On`, and only then store the unit with the expiry of
    * `minutes`. */
  function TurnOnSpec(env: Env, w: World, id: string, minutes: Option<real>, k: Keying): (r: (Result<JsValue, Fault>, World))
  {
    var nid := NormalizeApartmentId(id);
    match ParseApartment(nid)
    case Err(f) => (Err(f), w)
    case Ok(u) => TurnOnUnit(env, w, StateKey(k, nid, u), u, minutes)
  }

  /** The part of `turnOnExhaust` after the id is parsed, storing under `key`. */
  function TurnOnUnit(env: Env, w: World, key: string, u: Unit, minutes: Option<real>): (r: (Result<JsValue, Fault>, World))
  {
    match ResolveModuleHost(env.hosts, u.moduleId)
    case Err(f) => (Err(f), w)
    case Ok(host) =>
      var (reply, w1) := SendW(env, w, host, PowerOn(u.relay));
      if reply.Failed? then (Err(DeviceError(reply.status, reply.reason)), w1)
      else (Ok(Arr([reply.data])), w1.(states := Set(w1.states, key, ExhaustState(key, u, ExpiryFor(minutes, env.now)))))
  }

  /** A turn-on changes nothing unless the unit's module answered the
    * `Power<relay> On` command; then the unit is stored, replacing any
    * earlier entry under its key, and nothing else changes. The cache is
    * never touched. */
  lemma TurnOnUnitEffect(env: Env, w: World, key: string, u: Unit, minutes: Option<real>)
    ensures var (r, w2) := TurnOnUnit(env, w, key, u, minutes);
      && w2.cache == w.cache
      && (r.Err? ==> w2.states == w.states)
      && (r.Ok? <==> ResolveModuleHost(env.hosts, u.moduleId).Ok?
                     && env.respond(ResolveModuleHost(env.hosts, u.moduleId).value, PowerOn(u.relay), |w.log|).Answered?)
      && (ResolveModuleHost(env.hosts, u.moduleId).Ok? ==>
            w2.log == w.log + [Sent(ResolveModuleHost(env.hosts, u.moduleId).value, PowerOn(u.relay))])
      && (r.Ok? ==>
            && w2.states.entries == w.states.entries[key := ExhaustState(key, u, ExpiryFor(minutes, env.now))]
            && (key in w.states.keys ==> w2.states.keys == w.states.keys)
            && (key !in w.states.keys ==> w2.states.keys == w.states.keys + [key]))
  {
  }

  /** Turning on keeps every entry under its own id with a unit of the
    * building. */
  lemma TurnOnKeepsValid(env: Env, w: World, id: string, minutes: Option<real>, k: Keying)
    requires KeyedById(w.states)
    ensures KeyedById(TurnOnSpec(env, w, id, minutes, k).1.states)
    ensures k.ByUnit? && KeyedByUnit(w.states) ==> KeyedByUnit(TurnOnSpec(env, w, id, minutes, k).1.states)
  {
    var nid := NormalizeApartmentId(id);
    var p := ParseApartment(nid);
    if p.Ok? {
      var u := p.value;
      var key := StateKey(k, nid, u);
      TurnOnUnitEffect(env, w, key, u, minutes);
      var (r, w2) := TurnOnUnit(env, w, key, u, minutes);
      if r.Ok? {
        var s := ExhaustState(key, u, ExpiryFor(minutes, env.now));
        assert w2.states == Set(w.states, key, s);
        SetKeepsKeyed(w.states, s);
        if k.ByUnit? && KeyedByUnit(w.states) {
          SetKeepsUnitKeyed(w.states, s);
        }
      }
    }
  }

  lemma SetKeepsKeyed(states: OrderedMap<ExhaustState>, s: ExhaustState)
    requires KeyedById(states) && IsUnit(s.unit)
    ensures KeyedById(Set(states, s.id, s))
  {
  }

  lemma SetKeepsUnitKeyed(states: OrderedMap<ExhaustState>, s: ExhaustState)
    requires KeyedByUnit(states) && s.id == CanonicalId(s.unit)
    ensures KeyedByUnit(Set(states, s.id, s))
  {
  }


  // ----------------------------------------------------------------- turn off

  /** What the restore loop did with one unit of the column; a re-armed unit
    * reports what `setRelay` returns, the one-element array of the module's
    * answer. */
  datatype Restore = Rearmed(reply: JsValue) | Skipped(remainingMinutes: Option<int>)

  /** `{ offResult, restoreResults }`; `off` is the `setRelay` array of the
    * PWR module's answer. */
  datatype TurnOffResult = TurnOffResult(off: JsValue, restores: seq<(string, Restore)>)

  /** A unit of the column is switched back on only with more than
    * `RearmThreshold` whole minutes left. */
  predicate Rearms(s: ExhaustState, now: int)
  {
    var rem := RemainingMinutes(s.expiresAt, now);
    rem.Some? && rem.value > RearmThreshold
  }

  /** The units that share the power relay of `(tower, group)`, in table
    * order. */
  function SameColumn(vs: seq<ExhaustState>, t: Tower, g: Group): (r: seq<ExhaustState>)
    ensures forall x :: x in r <==> x in vs && x.unit.tower == t && x.unit.group == g
    ensures |r| <= |vs|
  {
    if vs == [] then []
    else if vs[0].unit.tower == t && vs[0].unit.group == g then [vs[0]] + SameColumn(vs[1..], t, g)
    else SameColumn(vs[1..], t, g)
  }

  /** A unit the restore loop visits, with the outcome of resolving the host
    * of its module. The lookup reads only the host table, which the loop
    * never changes, so resolving it when the column is gathered gives each
    * pass the value it would compute itself at its start. */
  datatype Pending = Pending(state: ExhaustState, host: Result<string, Fault>)

  /** The units of `vs`, in order, each with its module's host. */
  function WithHosts(env: Env, vs: seq<ExhaustState>): (ps: seq<Pending>)
    ensures |ps| == |vs|
    ensures forall i :: 0 <= i < |vs| ==> ps[i].state == vs[i]
    ensures forall i :: 0 <= i < |vs| ==> ps[i].host == ResolveModuleHost(env.hosts, vs[i].unit.moduleId)
  {
    seq(|vs|, i requires 0 <= i < |vs| => Pending(vs[i], ResolveModuleHost(env.hosts, vs[i].unit.moduleId)))
  }

  /** One pass of the restore loop of `turnOffExhaust`: either the loop
    * stops with a fault, or it goes on with a new world, a new `needsDelay`
    * and the outcome for the unit. */
  datatype Step = Stop(fault: Fault, w: World) | Continue(w: World, needsDelay: bool, outcome: (string, Restore))

  /** A module without a host stops the loop. Otherwise a unit with more
    * than five minutes left is switched on again, after a pause when another
    * unit was switched on before it, and is given its remaining whole
    * minutes again (`WholeMinutesExpiry`: the timeout of a whole number of
    * minutes is that many times 60000 ms); a failed command stops the loop;
    * any other unit is skipped. */
  function RestoreStep(env: Env, w: World, p: Pending, needsDelay: bool): (r: Step)
    ensures r.Continue? ==> r.outcome.0 == p.state.id && (r.outcome.1.Rearmed? <==> Rearms(p.state, env.now))
    ensures r.Continue? && r.outcome.1.Skipped? ==> r.outcome.1.remainingMinutes == RemainingMinutes(p.state.expiresAt, env.now) && r.w == w && r.needsDelay == needsDelay
    ensures r.Continue? && r.outcome.1.Rearmed? ==> r.needsDelay
    ensures r.w.cache == w.cache
  {
    match p.host
    case Err(f) => Stop(f, w)
    case Ok(host) =>
      var s := p.state;
      var rem := RemainingMinutes(s.expiresAt, env.now);
      if rem.Some? && rem.value > RearmThreshold then
        var w1 := if needsDelay then w.(log := w.log + [Pause(RearmDelayMs)]) else w;
        var (reply, w2) := SendW(env, w1, host, PowerOn(s.unit.relay));
        if reply.Failed? then Stop(DeviceError(reply.status, reply.reason), w2)
        else Continue(w2.(states := Set(w2.states, s.id, s.(expiresAt := Some(env.now + rem.value * 60000)))), true, (s.id, Rearmed(Arr([reply.data]))))
      else Continue(w, needsDelay, (s.id, Skipped(rem)))
  }

  /** The restore loop from the unit `todo[0]` on; `acc` holds the outcomes of
    * the units already handled. */
  function RestoreSpec(env: Env, w: World, todo: seq<Pending>, needsDelay: bool, acc: seq<(string, Restore)>)
    : (r: (Result<seq<(string, Restore)>, Fault>, World))
    decreases |todo|
  {
    if todo == [] then (Ok(acc), w)
    else
      match RestoreStep(env, w, todo[0], needsDelay)
      case Stop(f, w1) => (Err(f), w1)
      case Continue(w1, nd, item) => RestoreSpec(env, w1, todo[1..], nd, acc + [item])
  }

  /** A completed loop took a first step that did not stop it, and ended
    * where the rest of the loop ends. */
  lemma RestoreFirstStep(env: Env, w: World, todo: seq<Pending>, nd: bool, acc: seq<(string, Restore)>)
    requires todo != [] && RestoreSpec(env, w, todo, nd, acc).0.Ok?
    ensures var r := RestoreStep(env, w, todo[0], nd);
      && r.Continue?
      && RestoreSpec(env, w, todo, nd, acc) == RestoreSpec(env, r.w, todo[1..], r.needsDelay, acc + [r.outcome])
  {
  }

  /** The host a unit's commands go to (empty when it has none). */
  function HostOf(p: Pending): string
  {
    if p.host.Ok? then p.host.value else ""
  }

  /** Re-arming a unit sends its `Power<relay> On` to its module's host,
    * after a pause when another unit was re-armed before it. */
  lemma RestoreStepLog(env: Env, w: World, p: Pending, nd: bool)
    ensures var r := RestoreStep(env, w, p, nd);
      r.Continue? && r.outcome.1.Rearmed? ==>
        r.w.log == w.log + (if nd then [Pause(RearmDelayMs)] else []) + [Sent(HostOf(p), PowerOn(p.state.unit.relay))]
  {
  }

  /** A re-armed unit keeps its id and unit, is stored where it was, and
    * expires its remaining whole minutes from now, so it has exactly those
    * minutes left. */
  lemma RestoreStepRearm(env: Env, w: World, p: Pending, nd: bool)
    requires p.state.id in w.states.entries
    ensures var r := RestoreStep(env, w, p, nd);
      var s := p.state;
      r.Continue? && r.outcome.1.Rearmed? ==>
        && r.w.states.keys == w.states.keys
        && r.w.states.entries == w.states.entries[s.id := s.(expiresAt := Some(env.now + RemainingMinutes(s.expiresAt, env.now).value * 60000))]
        && RemainingMinutes(r.w.states.entries[s.id].expiresAt, env.now) == RemainingMinutes(s.expiresAt, env.now)
  {
    var rem := RemainingMinutes(p.state.expiresAt, env.now);
    if rem.Some? && rem.value > RearmThreshold {
      RearmKeepsRemaining(env.now, rem.value);
    }
  }

  /** `turnOffExhaust`: parse the id, cut the tower's relay on the `PWR`
    * module of its group, forget the unit, then switch on again the other
    * units of the same tower and group. */
  function TurnOffSpec(env: Env, w: World, id: string, k: Keying): (r: (Result<TurnOffResult, Fault>, World))
  {
    var nid := NormalizeApartmentId(id);
    match ParseApartment(nid)
    case Err(f) => (Err(f), w)
    case Ok(u) => TurnOffUnit(env, w, StateKey(k, nid, u), u)
  }

  function TurnOffUnit(env: Env, w: World, key: string, u: Unit): (r: (Result<TurnOffResult, Fault>, World))
  {
    match ResolveModuleHost(env.hosts, PwrModuleOf(u.group))
    case Err(f) => (Err(f), w)
    case Ok(pwrHost) =>
      var (reply, w1) := SendW(env, w, pwrHost, PowerOn(PwrRelayForTower(u.tower)));
      if reply.Failed? then (Err(DeviceError(reply.status, reply.reason)), w1)
      else
        var w2 := w1.(states := Delete(w1.states, key));
        var todo := WithHosts(env, SameColumn(Values(w2.states), u.tower, u.group));
        var (restored, w3) := RestoreSpec(env, w2, todo, false, []);
        match restored
        case Err(f) => (Err(f), w3)
        case Ok(rs) => (Ok(TurnOffResult(Arr([reply.data]), rs)), w3)
  }

  /** Both tables hold the same keys in the same order, and each entry the
    * same id and unit; only expiries may differ. */
  predicate SameUnits(a: OrderedMap<ExhaustState>, b: OrderedMap<ExhaustState>)
  {
    a.keys == b.keys
    && forall x :: x in a.entries ==> x in b.entries && b.entries[x].id == a.entries[x].id && b.entries[x].unit == a.entries[x].unit
  }

  /** Every unit of `todo` is stored under its id, with that id and unit. */
  predicate StoredAsIs(todo: seq<Pending>, states: OrderedMap<ExhaustState>)
  {
    forall p :: p in todo ==>
      p.state.id in states.entries && states.entries[p.state.id].id == p.state.id && states.entries[p.state.id].unit == p.state.unit
  }

  /** Some unit of `todo` stored under `x` is due to be re-armed. */
  predicate RearmedIn(todo: seq<Pending>, x: string, now: int)
  {
    exists p :: p in todo && p.state.id == x && Rearms(p.state, now)
  }

  /** No two units of `todo` share an id. */
  predicate IdsDistinct(todo: seq<Pending>)
    decreases |todo|
  {
    todo == [] || ((forall p :: p in todo[1..] ==> p.state.id != todo[0].state.id) && IdsDistinct(todo[1..]))
  }

  /** The restore loop never adds or removes a unit, never reorders the
    * table and never touches the cache. */
  lemma {:induction false} RestoreKeepsUnits(env: Env, w: World, todo: seq<Pending>, nd: bool, acc: seq<(string, Restore)>)
    requires StoredAsIs(todo, w.states)
    ensures SameUnits(w.states, RestoreSpec(env, w, todo, nd, acc).1.states)
    ensures RestoreSpec(env, w, todo, nd, acc).1.cache == w.cache
    ensures w.log <= RestoreSpec(env, w, todo, nd, acc).1.log
    decreases |todo|
  {
    if todo != [] {
      var p := todo[0];
      RestoreStepKeeps(env, w, p, nd);
      RestoreUnfold(env, w, todo, nd, acc);
      var r := RestoreStep(env, w, p, nd);
      if r.Continue? {
        assert StoredAsIs(todo[1..], r.w.states) by {
          forall q | q in todo[1..] ensures q in todo { }
        }
        RestoreKeepsUnits(env, r.w, todo[1..], r.needsDelay, acc + [r.outcome]);
        SameUnitsTrans(w.states, r.w.states, RestoreSpec(env, r.w, todo[1..], r.needsDelay, acc + [r.outcome]).1.states);
      }
    }
  }

  /** The loop from a non-empty list is its first step, then the rest. */
  lemma RestoreUnfold(env: Env, w: World, todo: seq<Pending>, nd: bool, acc: seq<(string, Restore)>)
    requires todo != []
    ensures var r := RestoreStep(env, w, todo[0], nd);
      RestoreSpec(env, w, todo, nd, acc)
        == if r.Stop? then (Err(r.fault), r.w) else RestoreSpec(env, r.w, todo[1..], r.needsDelay, acc + [r.outcome])
  {
  }

  /** One step keeps the ids and units of the table and only extends the
    * log. */
  lemma RestoreStepKeeps(env: Env, w: World, p: Pending, nd: bool)
    requires p.state.id in w.states.entries && w.states.entries[p.state.id].id == p.state.id
    requires w.states.entries[p.state.id].unit == p.state.unit
    ensures var r := RestoreStep(env, w, p, nd);
      SameUnits(w.states, r.w.states) && w.log <= r.w.log
  {
    RestoreStepRearm(env, w, p, nd);
  }

  lemma SameUnitsTrans(a: OrderedMap<ExhaustState>, b: OrderedMap<ExhaustState>, c: OrderedMap<ExhaustState>)
    requires SameUnits(a, b) && SameUnits(b, c)
    ensures SameUnits(a, c)
  {
  }


  /** An entry that no unit of `todo` re-arms is left exactly as it was. */
  lemma {:induction false} RestoreTouchesOnlyRearmed(env: Env, w: World, todo: seq<Pending>, nd: bool, acc: seq<(string, Restore)>, x: string)
    requires x in w.states.entries && !RearmedIn(todo, x, env.now)
    requires forall p :: p in todo ==> p.state.id in w.states.entries
    ensures x in RestoreSpec(env, w, todo, nd, acc).1.states.entries
    ensures RestoreSpec(env, w, todo, nd, acc).1.states.entries[x] == w.states.entries[x]
    decreases |todo|
  {
    if todo != [] {
      var p := todo[0];
      RestoreStepRearm(env, w, p, nd);
      var r := RestoreStep(env, w, p, nd);
      if r.Continue? {
        if r.outcome.1.Rearmed? {
          assert p.state.id != x;
        }
        assert r.w.states.entries[x] == w.states.entries[x];
        forall q | q in todo[1..] ensures q in todo && q.state.id in r.w.states.entries { }
        RestoreTouchesOnlyRearmed(env, r.w, todo[1..], r.needsDelay, acc + [r.outcome], x);
      }
    }
  }

  /** The first unit, when re-armed, keeps its new expiry to the end of the
    * loop, since no later unit shares its id. */
  /** After the first unit, the rest of a list with distinct ids does not
    * name it again, and is still stored when the first step kept the keys. */
  lemma RestRequires(todo: seq<Pending>, before: OrderedMap<ExhaustState>, after: OrderedMap<ExhaustState>)
    requires IdsDistinct(todo) && todo != []
    requires forall p :: p in todo ==> p.state.id in before.entries
    requires before.keys == after.keys
    ensures forall q :: q in todo[1..] ==> q.state.id != todo[0].state.id && q.state.id in after.entries
  {
    forall q | q in todo[1..] ensures q.state.id in after.entries {
      assert q in todo;
      assert q.state.id in before.keys;
    }
  }

  lemma RestoreFirstRearmed(env: Env, w: World, todo: seq<Pending>, nd: bool, acc: seq<(string, Restore)>)
    requires IdsDistinct(todo) && todo != [] && Rearms(todo[0].state, env.now)
    requires forall p :: p in todo ==> p.state.id in w.states.entries
    requires RestoreSpec(env, w, todo, nd, acc).0.Ok?
    ensures var s := todo[0].state;
      var e := RestoreSpec(env, w, todo, nd, acc).1.states.entries;
      s.id in e && e[s.id].expiresAt == Some(env.now + RemainingMinutes(s.expiresAt, env.now).value * 60000)
  {
    var s := todo[0].state;
    RestoreFirstStep(env, w, todo, nd, acc);
    RestoreStepRearm(env, w, todo[0], nd);
    var r := RestoreStep(env, w, todo[0], nd);
    RestRequires(todo, w.states, r.w.states);
    RestoreTouchesOnlyRearmed(env, r.w, todo[1..], r.needsDelay, acc + [r.outcome], s.id);
  }

  /** When the loop completes, every unit it re-armed expires its remaining
    * whole minutes from now. */
  lemma {:induction false} RestoreRearmsExpiry(env: Env, w: World, todo: seq<Pending>, nd: bool, acc: seq<(string, Restore)>, s: ExhaustState)
    requires IdsDistinct(todo) && (exists h :: Pending(s, h) in todo) && Rearms(s, env.now)
    requires forall p :: p in todo ==> p.state.id in w.states.entries
    requires RestoreSpec(env, w, todo, nd, acc).0.Ok?
    ensures var e := RestoreSpec(env, w, todo, nd, acc).1.states.entries;
      s.id in e && e[s.id].expiresAt == Some(env.now + RemainingMinutes(s.expiresAt, env.now).value * 60000)
    decreases |todo|
  {
    if todo[0].state == s {
      RestoreFirstRearmed(env, w, todo, nd, acc);
    } else {
      RestoreFirstStep(env, w, todo, nd, acc);
      RestoreStepRearm(env, w, todo[0], nd);
      var r := RestoreStep(env, w, todo[0], nd);
      var h :| Pending(s, h) in todo;
      assert Pending(s, h) in todo[1..];
      forall q | q in todo[1..] ensures q in todo && q.state.id in r.w.states.entries { }
      RestoreRearmsExpiry(env, r.w, todo[1..], r.needsDelay, acc + [r.outcome], s);
    }
  }

  /** A re-armed unit is left with exactly the whole minutes it had before
    * the cut. */
  lemma RestoreKeepsRemaining(env: Env, w: World, todo: seq<Pending>, nd: bool, acc: seq<(string, Restore)>, s: ExhaustState)
    requires IdsDistinct(todo) && (exists h :: Pending(s, h) in todo) && Rearms(s, env.now)
    requires forall p :: p in todo ==> p.state.id in w.states.entries
    requires RestoreSpec(env, w, todo, nd, acc).0.Ok?
    ensures var e := RestoreSpec(env, w, todo, nd, acc).1.states.entries;
      s.id in e && RemainingMinutes(e[s.id].expiresAt, env.now) == RemainingMinutes(s.expiresAt, env.now)
  {
    RestoreRearmsExpiry(env, w, todo, nd, acc, s);
    RearmKeepsRemaining(env.now, RemainingMinutes(s.expiresAt, env.now).value);
  }

  /** `os` holds one outcome per unit of `todo`, in order and under the
    * unit's id: re-armed exactly when the unit had more than five minutes
    * left, skipped with its remaining minutes otherwise. */
  predicate OutcomesMatch(os: seq<(string, Restore)>, todo: seq<Pending>, now: int)
  {
    |os| == |todo|
    && forall i :: 0 <= i < |todo| ==>
         && os[i].0 == todo[i].state.id
         && (os[i].1.Rearmed? <==> Rearms(todo[i].state, now))
         && (os[i].1.Skipped? ==> os[i].1.remainingMinutes == RemainingMinutes(todo[i].state.expiresAt, now))
  }

  /** Outcomes matching the first unit and the rest match the whole. */
  lemma OutcomesCons(o: (string, Restore), os: seq<(string, Restore)>, todo: seq<Pending>, now: int)
    requires todo != [] && OutcomesMatch([o], [todo[0]], now) && OutcomesMatch(os, todo[1..], now)
    ensures OutcomesMatch([o] + os, todo, now)
  {
    forall i | 0 <= i < |todo|
      ensures ([o] + os)[i].0 == todo[i].state.id && (([o] + os)[i].1.Rearmed? <==> Rearms(todo[i].state, now))
        && (([o] + os)[i].1.Skipped? ==> ([o] + os)[i].1.remainingMinutes == RemainingMinutes(todo[i].state.expiresAt, now))
    {
      if i > 0 { assert todo[1..][i - 1] == todo[i] && ([o] + os)[i] == os[i - 1]; }
    }
  }

  /** A sequence that starts with `acc + [o]` starts with `acc`, and after
    * `acc` comes `o`. */
  lemma PrefixStep<T>(rs: seq<T>, acc: seq<T>, o: T)
    requires |acc| + 1 <= |rs| && rs[..|acc| + 1] == acc + [o]
    ensures rs[..|acc|] == acc && rs[|acc|..] == [o] + rs[|acc| + 1..]
  {
    assert rs[..|acc| + 1][..|acc|] == rs[..|acc|];
    assert rs[..|acc| + 1][|acc|] == o;
  }

  /** When the loop completes, it has appended one matching outcome per unit
    * of `todo` to the outcomes it started with. */
  lemma {:induction false} RestoreOutcomes(env: Env, w: World, todo: seq<Pending>, nd: bool, acc: seq<(string, Restore)>)
    requires RestoreSpec(env, w, todo, nd, acc).0.Ok?
    ensures var rs := RestoreSpec(env, w, todo, nd, acc).0.value;
      |acc| <= |rs| && rs[..|acc|] == acc && OutcomesMatch(rs[|acc|..], todo, env.now)
    decreases |todo|
  {
    if todo != [] {
      RestoreFirstStep(env, w, todo, nd, acc);
      var r := RestoreStep(env, w, todo[0], nd);
      var acc' := acc + [r.outcome];
      RestoreOutcomes(env, r.w, todo[1..], r.needsDelay, acc');
      var rs := RestoreSpec(env, r.w, todo[1..], r.needsDelay, acc').0.value;
      PrefixStep(rs, acc, r.outcome);
      OutcomesCons(r.outcome, rs[|acc'|..], todo, env.now);
    }
  }

  /** The `Power<relay> On` commands of the units of `todo` that are due to
    * be re-armed, in order. */
  function RearmSends(todo: seq<Pending>, now: int): (es: seq<Event>)
    ensures forall e :: e in es ==> e.Sent? && e.command.PowerOn?
  {
    if todo == [] then []
    else
      (if Rearms(todo[0].state, now) then [Sent(HostOf(todo[0]), PowerOn(todo[0].state.unit.relay))] else [])
      + RearmSends(todo[1..], now)
  }

  /** `es` with a pause of `RearmDelayMs` before every event but the first
    * (and before the first too when `pauseFirst`). */
  function Spaced(es: seq<Event>, pauseFirst: bool): (r: seq<Event>)
    ensures |r| == 2 * |es| - (if es != [] && !pauseFirst then 1 else 0)
  {
    if es == [] then []
    else (if pauseFirst then [Pause(RearmDelayMs)] else []) + [es[0]] + Spaced(es[1..], true)
  }

  lemma SpacedCons(e: Event, rest: seq<Event>, nd: bool)
    ensures Spaced([e] + rest, nd) == (if nd then [Pause(RearmDelayMs)] else []) + [e] + Spaced(rest, true)
  {
    assert ([e] + rest)[1..] == rest;
  }

  /** When the loop completes, the bus saw exactly the re-arm commands, with
    * a pause only between two of them. */
  lemma {:induction false} RestoreLog(env: Env, w: World, todo: seq<Pending>, nd: bool, acc: seq<(string, Restore)>)
    requires RestoreSpec(env, w, todo, nd, acc).0.Ok?
    ensures RestoreSpec(env, w, todo, nd, acc).1.log == w.log + Spaced(RearmSends(todo, env.now), nd)
    decreases |todo|
  {
    if todo != [] {
      RestoreFirstStep(env, w, todo, nd, acc);
      var r := RestoreStep(env, w, todo[0], nd);
      RestoreLog(env, r.w, todo[1..], r.needsDelay, acc + [r.outcome]);
      RestoreLogStep(env, w, todo, nd);
    }
  }

  /** One step that goes on adds to the log what the spaced re-arm commands
    * of the first unit add. */
  lemma RestoreLogStep(env: Env, w: World, todo: seq<Pending>, nd: bool)
    requires todo != [] && RestoreStep(env, w, todo[0], nd).Continue?
    ensures var r := RestoreStep(env, w, todo[0], nd);
      r.w.log + Spaced(RearmSends(todo[1..], env.now), r.needsDelay) == w.log + Spaced(RearmSends(todo, env.now), nd)
  {
    var r := RestoreStep(env, w, todo[0], nd);
    var rest := RearmSends(todo[1..], env.now);
    if Rearms(todo[0].state, env.now) {
      RestoreStepLog(env, w, todo[0], nd);
      var e := Sent(HostOf(todo[0]), PowerOn(todo[0].state.unit.relay));
      assert RearmSends(todo, env.now) == [e] + rest;
      SpacedCons(e, rest, nd);
    } else {
      assert RearmSends(todo, env.now) == rest;
    }
  }

  /** The effect of `turnOffExhaust` once the unit is parsed and stored under
    * `key`: the cut on the tower's `PWR` relay is the first command; without
    * a `PWR` host nothing happens, and when the cut fails the table is left
    * as it was. When the cut is answered the unit's key is gone, every other
    * unit keeps its place, id and unit, and on success there is one outcome
    * per unit of the same tower and group. The cache is never touched. */
  lemma TurnOffEffect(env: Env, w: World, key: string, u: Unit)
    requires KeyedById(w.states)
    ensures var (r, w2) := TurnOffUnit(env, w, key, u);
      var cut := ResolveModuleHost(env.hosts, PwrModuleOf(u.group));
      && w2.cache == w.cache
      && KeyedById(w2.states)
      && (cut.Err? ==> r == Err(HostNotConfigured(PwrModuleOf(u.group))) && w2 == w)
      && (cut.Ok? ==>
            var reply := env.respond(cut.value, PowerOn(PwrRelayForTower(u.tower)), |w.log|);
            && w.log + [Sent(cut.value, PowerOn(PwrRelayForTower(u.tower)))] <= w2.log
            && (reply.Failed? ==> r == Err(DeviceError(reply.status, reply.reason)) && w2.states == w.states)
            && (reply.Answered? ==>
                  && key !in w2.states.entries
                  && SameUnits(Delete(w.states, key), w2.states)
                  && (r.Ok? ==>
                        r.value.off == Arr([reply.data])
                        && OutcomesMatch(r.value.restores, WithHosts(env, SameColumn(Values(Delete(w.states, key)), u.tower, u.group)), env.now))))
  {
    var cut := ResolveModuleHost(env.hosts, PwrModuleOf(u.group));
    if cut.Ok? {
      var (reply, w1) := SendW(env, w, cut.value, PowerOn(PwrRelayForTower(u.tower)));
      if reply.Answered? {
        RestoreAfterCut(env, w1, key, u);
      }
    }
  }

  /** The units of a column of a table keyed by id are stored as they are. */
  lemma ColumnStored(env: Env, states: OrderedMap<ExhaustState>, t: Tower, g: Group)
    requires KeyedById(states)
    ensures StoredAsIs(WithHosts(env, SameColumn(Values(states), t, g)), states)
  {
    ValuesStored(states);
    PendingFrom(env, SameColumn(Values(states), t, g));
  }

  /** In a map keyed by id, every stored state sits under its own id. */
  lemma ValuesStored(states: OrderedMap<ExhaustState>)
    requires KeyedById(states)
    ensures forall v :: v in Values(states) ==> v.id in states.entries && states.entries[v.id] == v
  {
    var vs := Values(states);
    forall v | v in vs ensures v.id in states.entries && states.entries[v.id] == v {
      var j :| 0 <= j < |vs| && vs[j] == v;
      assert states.keys[j] in states.entries;
    }
  }

  /** Each pending entry carries one of the states it was built from. */
  lemma PendingFrom(env: Env, vs: seq<ExhaustState>)
    ensures forall p :: p in WithHosts(env, vs) ==> p.state in vs
  {
    var ps := WithHosts(env, vs);
    forall p | p in ps ensures p.state in vs {
      var i :| 0 <= i < |ps| && ps[i] == p;
    }
  }


  /** Once the cut is answered, the unit's key is gone, the restore loop
    * keeps every other unit in place with its id and unit, and it reports
    * one outcome per unit of the column. */
  lemma RestoreAfterCut(env: Env, w1: World, key: string, u: Unit)
    requires KeyedById(w1.states)
    ensures var w2 := w1.(states := Delete(w1.states, key));
      var todo := WithHosts(env, SameColumn(Values(w2.states), u.tower, u.group));
      var (res, w3) := RestoreSpec(env, w2, todo, false, []);
      && key !in w3.states.entries
      && SameUnits(w2.states, w3.states)
      && KeyedById(w3.states)
      && w3.cache == w1.cache
      && w1.log <= w3.log
      && (res.Ok? ==> OutcomesMatch(res.value, todo, env.now))
  {
    var w2 := w1.(states := Delete(w1.states, key));
    var todo := WithHosts(env, SameColumn(Values(w2.states), u.tower, u.group));
    assert KeyedById(w2.states);
    ColumnStored(env, w2.states, u.tower, u.group);
    RestoreKeepsUnits(env, w2, todo, false, []);
    var w3 := RestoreSpec(env, w2, todo, false, []).1;
    assert KeyedById(w3.states) by {
      forall x | x in w3.states.entries ensures w3.states.entries[x].id == x && IsUnit(w3.states.entries[x].unit) {
        assert x in w2.states.keys;
      }
    }
    if RestoreSpec(env, w2, todo, false, []).0.Ok? {
      RestoreOutcomes(env, w2, todo, false, []);
    }
  }

  /** With units stored under their canonical id, once the cut of a turn-off
    * is answered no entry for that unit is left in the table, whatever
    * spelling the unit was switched on with. */
  lemma TurnOffForgetsUnit(env: Env, w: World, id: string)
    requires KeyedById(w.states) && KeyedByUnit(w.states)
    requires ParseApartment(NormalizeApartmentId(id)).Ok?
    ensures var u := ParseApartment(NormalizeApartmentId(id)).value;
      var cut := ResolveModuleHost(env.hosts, PwrModuleOf(u.group));
      var w2 := TurnOffSpec(env, w, id, ByUnit).1;
      && KeyedById(w2.states) && KeyedByUnit(w2.states)
      && (cut.Ok? && env.respond(cut.value, PowerOn(PwrRelayForTower(u.tower)), |w.log|).Answered? ==>
            forall x :: x in w2.states.entries ==> w2.states.entries[x].unit != u)
  {
    var u := ParseApartment(NormalizeApartmentId(id)).value;
    var key := CanonicalId(u);
    TurnOffEffect(env, w, key, u);
    var w2 := TurnOffUnit(env, w, key, u).1;
    assert TurnOffSpec(env, w, id, ByUnit).1 == w2;
    var cut := ResolveModuleHost(env.hosts, PwrModuleOf(u.group));
    if cut.Ok? && env.respond(cut.value, PowerOn(PwrRelayForTower(u.tower)), |w.log|).Answered? {
      forall x | x in w2.states.entries ensures x == CanonicalId(w2.states.entries[x].unit) && w2.states.entries[x].unit != u {
        assert x in Delete(w.states, key).entries;
      }
    } else if cut.Ok? {
      assert w2.states == w.states;
    }
  }

  // ------------------------------------------------------------ module cache

  /** `updateModuleCache`: a healthy entry. */
  function HealthyEntry(now: int, status: JsValue, pulseTime: JsValue): (e: CacheEntry)
    ensures e.errorCode.None? && e.error.None? && e.updatedAt == now
  {
    CacheEntry(status, pulseTime, now, None, None)
  }

  /** `updateModuleCacheError`: an entry with no readings and the error. */
  function ErrorEntry(now: int, code: string, reason: string): (e: CacheEntry)
    ensures e.errorCode == Some(code) && e.status == Null && e.pulseTime == Null && e.updatedAt == now
  {
    CacheEntry(Null, Null, now, Some(code), Some(reason))
  }

  /** `pulseTime?.PulseTime?.Set` when it is an array, else no values. */
  function PulseSetValues(p: JsValue): seq<JsValue>
  {
    var setting := JsValues.Get(JsValues.Get(p, "PulseTime"), "Set");
    if setting.Arr? then setting.items else []
  }

  /** `values[i]`, `undefined` past the end. */
  function At(values: seq<JsValue>, i: nat): (v: JsValue)
    ensures i >= |values| ==> v == Undefined
  {
    if i < |values| then values[i] else Undefined
  }

  predicate PulseTimeAsExpected(values: seq<JsValue>, relay: nat)
    requires 1 <= relay
  {
    At(values, relay - 1) == Number(Finite(ExpectedPulseTime as real))
  }

  /** Every one of the four relays has the expected pulse time. */
  predicate PulseTimesAsExpected(values: seq<JsValue>)
  {
    forall relay :: 1 <= relay <= ExpectedRelayCount ==> PulseTimeAsExpected(values, relay)
  }

  /** `forceModuleOff`, from `relay` on: `Power<relay> Off` for each relay up
    * to four, stopping at the first failure (its reason is returned). */
  function ForceOffFrom(env: Env, w: World, host: string, relay: nat): (r: (Option<string>, World))
    requires 1 <= relay
    decreases ExpectedRelayCount + 1 - relay
  {
    if relay > ExpectedRelayCount then (None, w)
    else
      var (reply, w1) := SendW(env, w, host, PowerOff(relay));
      if reply.Failed? then (Some(reply.reason), w1) else ForceOffFrom(env, w1, host, relay + 1)
  }

  /** `ensurePulseTime`, from `relay` on: `PulseTime<relay> 5` for each relay
    * whose current value is not exactly 5, stopping at the first failure. */
  function EnsurePulseFrom(env: Env, w: World, host: string, values: seq<JsValue>, relay: nat): (r: (Option<string>, World))
    requires 1 <= relay
    decreases ExpectedRelayCount + 1 - relay
  {
    if relay > ExpectedRelayCount then (None, w)
    else if PulseTimeAsExpected(values, relay) then EnsurePulseFrom(env, w, host, values, relay + 1)
    else
      var (reply, w1) := SendW(env, w, host, SetPulseTime(relay, ExpectedPulseTime));
      if reply.Failed? then (Some(reply.reason), w1) else EnsurePulseFrom(env, w1, host, values, relay + 1)
  }

  /** `initializeModule`: read the status, force the four relays off, read
    * the pulse times, correct them, read them again and check them. The
    * first step that fails records its error code in the cache and ends the
    * initialisation; when every step succeeds the cache holds the status
    * and the verified pulse times. The result is the error code, if any. */
  function InitializeSpec(env: Env, w: World, moduleId: string, host: string): (r: (Option<string>, World))
  {
    var (st, w1) := SendW(env, w, host, Status);
    if st.Failed? then InitFailed(env, w1, moduleId, "STATUS_READ_FAILED", st.reason)
    else
      var (off, w2) := ForceOffFrom(env, w1, host, 1);
      if off.Some? then InitFailed(env, w2, moduleId, "POWER_OFF_FAILED", off.value)
      else
        var (pt, w3) := SendW(env, w2, host, PulseTimeQuery);
        if pt.Failed? then InitFailed(env, w3, moduleId, "PULSETIME_READ_FAILED", pt.reason)
        else InitPulseTimes(env, w3, moduleId, host, st.data, pt.data)
  }

  /** The rest of `initializeModule` once both readings are in: fix the
    * relays whose pulse time is off, read the times again and check them. */
  function InitPulseTimes(env: Env, w3: World, moduleId: string, host: string, status: JsValue, pulse: JsValue)
    : (r: (Option<string>, World))
  {
    var (fix, w4) := EnsurePulseFrom(env, w3, host, PulseSetValues(pulse), 1);
    if fix.Some? then InitFailed(env, w4, moduleId, "PULSETIME_CONFIG_FAILED", fix.value)
    else
      var (pt2, w5) := SendW(env, w4, host, PulseTimeQuery);
      if pt2.Failed? then InitFailed(env, w5, moduleId, "PULSETIME_VERIFY_FAILED", pt2.reason)
      else if !PulseTimesAsExpected(PulseSetValues(pt2.data)) then
        InitFailed(env, w5, moduleId, "PULSETIME_VERIFY_FAILED", "PulseTime final diferente do esperado")
      else (None, w5.(cache := w5.cache[moduleId := HealthyEntry(env.now, status, pt2.data)]))
  }

  function InitFailed(env: Env, w: World, moduleId: string, code: string, reason: string): (r: (Option<string>, World))
    ensures r.0 == Some(code) && r.1.states == w.states && r.1.log == w.log
    ensures r.1.cache == w.cache[moduleId := ErrorEntry(env.now, code, reason)]
  {
    (Some(code), w.(cache := w.cache[moduleId := ErrorEntry(env.now, code, reason)]))
  }

  /** `refreshModuleStatus`: both readings are requested; a failure of
    * either, or an empty status, records `STATUS_READ_FAILED`. */
  function RefreshSpec(env: Env, w: World, moduleId: string, host: string): (w2: World)
  {
    var (st, w1) := SendW(env, w, host, Status);
    var (pt, w2) := SendW(env, w1, host, PulseTimeQuery);
    if st.Failed? then InitFailed(env, w2, moduleId, "STATUS_READ_FAILED", st.reason).1
    else if pt.Failed? then InitFailed(env, w2, moduleId, "STATUS_READ_FAILED", pt.reason).1
    else if !Truthy(st.data) then InitFailed(env, w2, moduleId, "STATUS_READ_FAILED", "Status vazio").1
    else w2.(cache := w2.cache[moduleId := HealthyEntry(env.now, st.data, pt.data)])
  }

  /** `refreshAllModulesStatus`, over the configured modules from `ms[0]` on. */
  function RefreshAll(env: Env, w: World, ms: seq<(string, string)>): (w2: World)
    decreases |ms|
  {
    if ms == [] then w else RefreshAll(env, RefreshSpec(env, w, ms[0].0, ms[0].1), ms[1..])
  }

  /** A module is (re)initialised when it has no cache entry or its entry
    * carries an error code. */
  predicate NeedsInit(cache: map<string, CacheEntry>, moduleId: string)
  {
    moduleId !in cache || (cache[moduleId].errorCode.Some? && cache[moduleId].errorCode.value != "")
  }

  /** The first pass of the service loop: initialise every configured
    * module, ignoring failures. */
  function InitAll(env: Env, w: World, ms: seq<(string, string)>): (w2: World)
    decreases |ms|
  {
    if ms == [] then w else InitAll(env, InitializeSpec(env, w, ms[0].0, ms[0].1).1, ms[1..])
  }

  /** The later passes: reinitialise a module that needs it, refresh the
    * others. */
  function MaintainAll(env: Env, w: World, ms: seq<(string, string)>): (w2: World)
    decreases |ms|
  {
    if ms == [] then w
    else
      var w1 := if NeedsInit(w.cache, ms[0].0) then InitializeSpec(env, w, ms[0].0, ms[0].1).1
                else RefreshSpec(env, w, ms[0].0, ms[0].1);
      MaintainAll(env, w1, ms[1..])
  }

  /** The ids of the units whose expiry is set and not after `now`, in table
    * order. */
  function ExpiredIds(vs: seq<ExhaustState>, now: int): (ids: seq<string>)
    ensures forall x :: x in ids <==> exists i :: 0 <= i < |vs| && vs[i].id == x && vs[i].expiresAt.Some? && vs[i].expiresAt.value <= now
  {
    if vs == [] then []
    else
      (if vs[0].expiresAt.Some? && vs[0].expiresAt.value <= now then [vs[0].id] else [])
      + ExpiredIds(vs[1..], now)
  }

  /** `processExpiredExhausts`: turn off each expired unit in turn, ignoring
    * failures. */
  function TurnOffEach(env: Env, w: World, ids: seq<string>, k: Keying): (w2: World)
    decreases |ids|
  {
    if ids == [] then w else TurnOffEach(env, TurnOffSpec(env, w, ids[0], k).1, ids[1..], k)
  }

  function ProcessExpiredSpec(env: Env, w: World, k: Keying): (w2: World)
  {
    TurnOffEach(env, w, ExpiredIds(Values(w.states), env.now), k)
  }

  /** One run of the service loop. A run that finds another one in progress
    * does nothing; otherwise it initialises (first run) or maintains the
    * modules, then turns off the expired units. The result says whether the
    * modules have been initialised. */
  function TickSpec(env: Env, w: World, running: bool, initialized: bool, k: Keying): (r: (World, bool))
  {
    if running then (w, initialized)
    else (ProcessExpiredSpec(env, ModulePass(env, w, initialized), k), true)
  }

  /** The module half of a run: initialise every configured module on the
    * first run, maintain them on the later ones. */
  function ModulePass(env: Env, w: World, initialized: bool): (w1: World)
  {
    var ms := ListModules(env.hosts);
    if initialized then MaintainAll(env, w, ms) else InitAll(env, w, ms)
  }

  // ------------------------------------------------------------ status views

  datatype StatusView = StatusView(
    id: string, tower: Tower, final: nat, group: Group, relay: nat, moduleId: string,
    moduleStatus: Option<CacheEntry>, memory: Option<MemoryEntry>)

  /** `getExhaustStatus`: the unit an id names, its module's cached status
    * and its row of the memory snapshot. */
  function GetExhaustStatus(w: World, id: string, k: Keying, now: int): (r: Result<StatusView, Fault>)
  {
    var nid := NormalizeApartmentId(id);
    match ParseApartment(nid)
    case Err(f) => Err(f)
    case Ok(u) =>
      Ok(StatusView(StateKey(k, nid, u), u.tower, u.final, u.group, u.relay, u.moduleId,
        if u.moduleId in w.cache then Some(w.cache[u.moduleId]) else None,
        FindMemory(MemorySnapshot(w.states, now), StateKey(k, nid, u))))
  }

  /** `getAllModulesStatus`: refresh every configured module, then report
    * the cache and the memory snapshot. */
  function GetAllModulesStatus(env: Env, w: World): (r: ((map<string, CacheEntry>, seq<MemoryEntry>), World))
  {
    var w1 := RefreshAll(env, w, ListModules(env.hosts));
    ((w1.cache, MemorySnapshot(w1.states, env.now)), w1)
  }

  /** `configureExhaustModule`: send a raw command to a module named by
    * name, index or address. */
  function ConfigureSpec(env: Env, w: World, moduleName: string, command: string): (r: (Result<JsValue, Fault>, World))
  {
    match ResolveHostByModule(env.hosts, moduleName)
    case Err(f) => (Err(f), w)
    case Ok(host) =>
      var (reply, w1) := SendW(env, w, host, Raw(command));
      if reply.Failed? then (Err(DeviceError(reply.status, reply.reason)), w1) else (Ok(reply.data), w1)
  }

  /** `getExhaustMemory`. */
  function GetExhaustMemory(w: World, id: string, k: Keying): (r: Option<ExhaustState>)
  {
    var nid := NormalizeApartmentId(id);
    var key := match ParseApartment(nid) case Ok(u) => StateKey(k, nid, u) case Err(_) => nid;
    OrderedMaps.Get(w.states, key)
  }

  /** `getExhaustProcessStatus` (without the time stamp). */
  function GetExhaustProcessStatus(w: World, now: int): (r: (nat, seq<MemoryEntry>))
  {
    var m := MemorySnapshot(w.states, now);
    (|m|, m)
  }

  // ------------------------------------------------- properties of the cache

  /** Forcing a module off sends `Power<relay> Off` to relays `relay`..4 in
    * order, stopping right after the first failure; it touches neither
    * table. */
  lemma {:induction false} ForceOffSends(env: Env, w: World, host: string, relay: nat)
    requires 1 <= relay
    ensures var (r, w2) := ForceOffFrom(env, w, host, relay);
      && w2.states == w.states && w2.cache == w.cache
      && |w.log| <= |w2.log| && w2.log[..|w.log|] == w.log
      && (forall j :: |w.log| <= j < |w2.log| ==> w2.log[j] == Sent(host, PowerOff(relay + j - |w.log|)))
      && (r.None? ==> |w2.log| == |w.log| + (if relay > ExpectedRelayCount then 0 else ExpectedRelayCount + 1 - relay))
    decreases ExpectedRelayCount + 1 - relay
  {
    if relay <= ExpectedRelayCount {
      var (reply, w1) := SendW(env, w, host, PowerOff(relay));
      if reply.Answered? {
        ForceOffSends(env, w1, host, relay + 1);
        var w2 := ForceOffFrom(env, w1, host, relay + 1).1;
        assert w1.log == w.log + [Sent(host, PowerOff(relay))];
        Lists.PrefixTrans(w.log, w1.log, w2.log);
        forall j | |w.log| <= j < |w2.log| ensures w2.log[j] == Sent(host, PowerOff(relay + j - |w.log|)) {
          if j == |w.log| { Lists.PrefixAt(w1.log, w2.log, j); }
        }
      }
    }
  }

  /** A forced switch-off that meets no failure sends `Power<relay> Off` to
    * the four relays, in order. */
  lemma ForceOffAll(env: Env, w: World, host: string)
    requires ForceOffFrom(env, w, host, 1).0.None?
    ensures ForceOffFrom(env, w, host, 1).1.log
      == w.log + [Sent(host, PowerOff(1)), Sent(host, PowerOff(2)), Sent(host, PowerOff(3)), Sent(host, PowerOff(4))]
  {
    ForceOffSends(env, w, host, 1);
    var w2 := ForceOffFrom(env, w, host, 1).1;
    var n := |w.log|;
    assert |w2.log| == n + 4;
    assert w2.log[n] == Sent(host, PowerOff(1));
  }

  /** The `PulseTime<relay> 5` commands due for the relays from `relay` on
    * whose current value is not 5, in order. */
  function PulseFixes(host: string, values: seq<JsValue>, relay: nat): (es: seq<Event>)
    requires 1 <= relay
    ensures forall e :: e in es <==>
      exists q :: relay <= q <= ExpectedRelayCount && !PulseTimeAsExpected(values, q) && e == Sent(host, SetPulseTime(q, ExpectedPulseTime))
    decreases ExpectedRelayCount + 1 - relay
  {
    if relay > ExpectedRelayCount then []
    else
      var rest := PulseFixes(host, values, relay + 1);
      if PulseTimeAsExpected(values, relay) then rest
      else [Sent(host, SetPulseTime(relay, ExpectedPulseTime))] + rest
  }

  /** Correcting pulse times sends the due corrections in order, stopping
    * right after the first failure; when none fails, all of them were sent.
    * It touches neither table. */
  lemma {:induction false} EnsurePulseSends(env: Env, w: World, host: string, values: seq<JsValue>, relay: nat)
    requires 1 <= relay
    ensures var (r, w2) := EnsurePulseFrom(env, w, host, values, relay);
      && w2.states == w.states && w2.cache == w.cache
      && w.log <= w2.log && w2.log[|w.log|..] <= PulseFixes(host, values, relay)
      && (r.None? ==> w2.log == w.log + PulseFixes(host, values, relay))
    decreases ExpectedRelayCount + 1 - relay
  {
    if relay <= ExpectedRelayCount {
      if PulseTimeAsExpected(values, relay) {
        EnsurePulseSends(env, w, host, values, relay + 1);
      } else {
        EnsurePulseFix(env, w, host, values, relay);
      }
    }
  }

  /** A relay whose time is off is sent the fix first. */
  lemma {:induction false} EnsurePulseFix(env: Env, w: World, host: string, values: seq<JsValue>, relay: nat)
    requires 1 <= relay <= ExpectedRelayCount && !PulseTimeAsExpected(values, relay)
    ensures var (r, w2) := EnsurePulseFrom(env, w, host, values, relay);
      && w2.states == w.states && w2.cache == w.cache
      && w.log <= w2.log && w2.log[|w.log|..] <= PulseFixes(host, values, relay)
      && (r.None? ==> w2.log == w.log + PulseFixes(host, values, relay))
    decreases ExpectedRelayCount + 1 - relay, 0
  {
    var e := Sent(host, SetPulseTime(relay, ExpectedPulseTime));
    var (reply, w1) := SendW(env, w, host, SetPulseTime(relay, ExpectedPulseTime));
    assert PulseFixes(host, values, relay) == [e] + PulseFixes(host, values, relay + 1);
    assert w1.log == w.log + [e];
    if reply.Answered? {
      assert EnsurePulseFrom(env, w, host, values, relay) == EnsurePulseFrom(env, w1, host, values, relay + 1);
      EnsurePulseSends(env, w1, host, values, relay + 1);
      var w2 := EnsurePulseFrom(env, w1, host, values, relay + 1).1;
      Lists.DropPrefixCons(w.log, e, w2.log);
    } else {
      assert EnsurePulseFrom(env, w, host, values, relay) == (Some(reply.reason), w1);
      assert w1.log[|w.log|..] == [e];
    }
  }


  /** A module whose four pulse times are already 5 receives no write. */
  lemma EnsurePulseIdle(env: Env, w: World, host: string, values: seq<JsValue>)
    requires PulseTimesAsExpected(values)
    ensures EnsurePulseFrom(env, w, host, values, 1) == (None, w)
  {
    assert PulseTimeAsExpected(values, 1) && PulseTimeAsExpected(values, 2)
      && PulseTimeAsExpected(values, 3) && PulseTimeAsExpected(values, 4);
  }

  /** Initialising a module leaves the table of units alone, only appends to
    * the log, and stores one cache entry for the module, which records the
    * error code returned. */
  lemma InitializeEffect(env: Env, w: World, moduleId: string, host: string)
    ensures var (r, w2) := InitializeSpec(env, w, moduleId, host);
      && w2.states == w.states
      && w.log <= w2.log
      && moduleId in w2.cache && w2.cache == w.cache[moduleId := w2.cache[moduleId]]
      && w2.cache[moduleId].errorCode == r
      && w2.cache[moduleId].updatedAt == env.now
      && (r.Some? ==> r.value in {"STATUS_READ_FAILED", "POWER_OFF_FAILED", "PULSETIME_READ_FAILED",
                                 "PULSETIME_CONFIG_FAILED", "PULSETIME_VERIFY_FAILED"})
      && (r == Some("STATUS_READ_FAILED") ==> w2.log == w.log + [Sent(host, Status)])
  {
    InitializeFrame(env, w, moduleId, host);
    InitializeCodes(env, w, moduleId, host);
  }

  /** What every initialisation leaves behind: the units untouched, the log
    * extended and one cache entry, stamped now, carrying the outcome. */
  lemma InitializeFrame(env: Env, w: World, moduleId: string, host: string)
    ensures var (r, w2) := InitializeSpec(env, w, moduleId, host);
      && w2.states == w.states
      && w.log <= w2.log
      && moduleId in w2.cache && w2.cache == w.cache[moduleId := w2.cache[moduleId]]
      && w2.cache[moduleId].errorCode == r
      && w2.cache[moduleId].updatedAt == env.now
  {
    var (st, w1) := SendW(env, w, host, Status);
    if st.Answered? {
      ForceOffFrame(env, w1, host, 1);
      var (off, w2) := ForceOffFrom(env, w1, host, 1);
      if off.None? {
        var (pt, w3) := SendW(env, w2, host, PulseTimeQuery);
        if pt.Answered? {
          InitPulseFrame(env, w3, moduleId, host, st.data, pt.data);
        }
      }
    }
  }

  lemma InitPulseFrame(env: Env, w3: World, moduleId: string, host: string, status: JsValue, pulse: JsValue)
    ensures var (r, w5) := InitPulseTimes(env, w3, moduleId, host, status, pulse);
      && w5.states == w3.states
      && w3.log <= w5.log
      && moduleId in w5.cache && w5.cache == w3.cache[moduleId := w5.cache[moduleId]]
      && w5.cache[moduleId].errorCode == r
      && w5.cache[moduleId].updatedAt == env.now
  {
    EnsurePulseFrame(env, w3, host, PulseSetValues(pulse), 1);
  }


  /** The error codes an initialisation can report, and the one command sent
    * when the first reading already fails. */
  lemma InitializeCodes(env: Env, w: World, moduleId: string, host: string)
    ensures var (r, w2) := InitializeSpec(env, w, moduleId, host);
      && (r.Some? ==> r.value in {"STATUS_READ_FAILED", "POWER_OFF_FAILED", "PULSETIME_READ_FAILED",
                                 "PULSETIME_CONFIG_FAILED", "PULSETIME_VERIFY_FAILED"})
      && (r == Some("STATUS_READ_FAILED") ==> w2.log == w.log + [Sent(host, Status)])
  {
  }

  lemma {:induction false} ForceOffFrame(env: Env, w: World, host: string, relay: nat)
    requires 1 <= relay
    ensures var w2 := ForceOffFrom(env, w, host, relay).1;
      w2.states == w.states && w2.cache == w.cache && w.log <= w2.log
    decreases ExpectedRelayCount + 1 - relay
  {
    if relay <= ExpectedRelayCount {
      var (reply, w1) := SendW(env, w, host, PowerOff(relay));
      if reply.Answered? {
        ForceOffFrame(env, w1, host, relay + 1);
      }
    }
  }

  lemma {:induction false} EnsurePulseFrame(env: Env, w: World, host: string, values: seq<JsValue>, relay: nat)
    requires 1 <= relay
    ensures var w2 := EnsurePulseFrom(env, w, host, values, relay).1;
      w2.states == w.states && w2.cache == w.cache && w.log <= w2.log
    decreases ExpectedRelayCount + 1 - relay
  {
    if relay <= ExpectedRelayCount {
      if PulseTimeAsExpected(values, relay) {
        EnsurePulseFrame(env, w, host, values, relay + 1);
      } else {
        var (reply, w1) := SendW(env, w, host, SetPulseTime(relay, ExpectedPulseTime));
        if reply.Answered? {
          EnsurePulseFrame(env, w1, host, values, relay + 1);
        }
      }
    }
  }


  /** A successful initialisation read the status, then forced
    * `Power1 Off` .. `Power4 Off` before anything else, read the pulse
    * times, sent the due corrections and read them again; the healthy cache
    * entry holds the first status and that last reading, with all four
    * pulse times at 5. */
  lemma InitializeHealthy(env: Env, w: World, moduleId: string, host: string)
    requires InitializeSpec(env, w, moduleId, host).0.None?
    ensures var w2 := InitializeSpec(env, w, moduleId, host).1;
      && moduleId in w2.cache
      && PulseTimesAsExpected(PulseSetValues(w2.cache[moduleId].pulseTime))
      && env.respond(host, Status, |w.log|).Answered?
      && w2.cache[moduleId] == HealthyEntry(env.now, env.respond(host, Status, |w.log|).data, w2.cache[moduleId].pulseTime)
      && |w.log| + 7 <= |w2.log|
      && w2.log[..|w.log| + 6] == w.log + [Sent(host, Status), Sent(host, PowerOff(1)), Sent(host, PowerOff(2)),
                                          Sent(host, PowerOff(3)), Sent(host, PowerOff(4)), Sent(host, PulseTimeQuery)]
      && w2.log[|w2.log| - 1] == Sent(host, PulseTimeQuery)
  {
    var (st, w1) := SendW(env, w, host, Status);
    ForceOffAll(env, w1, host);
    var (off, w2) := ForceOffFrom(env, w1, host, 1);
    var n := |w.log|;
    var (pt, w3) := SendW(env, w2, host, PulseTimeQuery);
    EnsurePulseSends(env, w3, host, PulseSetValues(pt.data), 1);
    var w4 := EnsurePulseFrom(env, w3, host, PulseSetValues(pt.data), 1).1;
    var w5 := SendW(env, w4, host, PulseTimeQuery).1;
    assert w5.log[..n + 6] == w3.log by {
      assert w5.log == w3.log + PulseFixes(host, PulseSetValues(pt.data), 1) + [Sent(host, PulseTimeQuery)];
    }
  }

  /** Refreshing a module sends `Status` and `PulseTime`, leaves the table of
    * units alone and stores one cache entry, healthy exactly when both
    * readings came back and the status is not empty. */
  lemma RefreshEffect(env: Env, w: World, moduleId: string, host: string)
    ensures var w2 := RefreshSpec(env, w, moduleId, host);
      var st := env.respond(host, Status, |w.log|);
      var pt := env.respond(host, PulseTimeQuery, |w.log| + 1);
      && w2.states == w.states
      && w2.log == w.log + [Sent(host, Status), Sent(host, PulseTimeQuery)]
      && moduleId in w2.cache && w2.cache == w.cache[moduleId := w2.cache[moduleId]]
      && (w2.cache[moduleId].errorCode.None? <==> st.Answered? && pt.Answered? && Truthy(st.data))
      && (w2.cache[moduleId].errorCode.None? ==> w2.cache[moduleId] == HealthyEntry(env.now, st.data, pt.data))
      && (w2.cache[moduleId].errorCode.Some? ==> w2.cache[moduleId].errorCode == Some("STATUS_READ_FAILED"))
  {
  }

  /** A pass over the modules, whether it initialises or maintains them,
    * leaves the table of units alone and leaves every module it visited with
    * a cache entry. */
  lemma {:induction false} InitAllCovers(env: Env, w: World, ms: seq<(string, string)>)
    ensures InitAll(env, w, ms).states == w.states
    ensures forall i :: 0 <= i < |ms| ==> ms[i].0 in InitAll(env, w, ms).cache
    ensures forall m :: m in w.cache ==> m in InitAll(env, w, ms).cache
    decreases |ms|
  {
    if ms != [] {
      InitializeEffect(env, w, ms[0].0, ms[0].1);
      InitAllCovers(env, InitializeSpec(env, w, ms[0].0, ms[0].1).1, ms[1..]);
      forall i | 0 < i < |ms| ensures ms[i].0 == ms[1..][i - 1].0 { }
    }
  }

  lemma {:induction false} MaintainAllCovers(env: Env, w: World, ms: seq<(string, string)>)
    ensures MaintainAll(env, w, ms).states == w.states
    ensures forall i :: 0 <= i < |ms| ==> ms[i].0 in MaintainAll(env, w, ms).cache
    ensures forall m :: m in w.cache ==> m in MaintainAll(env, w, ms).cache
    decreases |ms|
  {
    if ms != [] {
      InitializeEffect(env, w, ms[0].0, ms[0].1);
      RefreshEffect(env, w, ms[0].0, ms[0].1);
      var w1 := if NeedsInit(w.cache, ms[0].0) then InitializeSpec(env, w, ms[0].0, ms[0].1).1
                else RefreshSpec(env, w, ms[0].0, ms[0].1);
      MaintainAllCovers(env, w1, ms[1..]);
      forall i | 0 < i < |ms| ensures ms[i].0 == ms[1..][i - 1].0 { }
    }
  }

  /** A module that is healthy in the cache is only refreshed, never forced
    * off again, by a maintenance pass. */
  lemma MaintainHealthyOnlyRefreshes(env: Env, w: World, m: (string, string), rest: seq<(string, string)>)
    requires m.0 in w.cache && (w.cache[m.0].errorCode.None? || w.cache[m.0].errorCode.value == "")
    ensures MaintainAll(env, w, [m] + rest) == MaintainAll(env, RefreshSpec(env, w, m.0, m.1), rest)
  {
    assert ([m] + rest)[1..] == rest;
  }

  /** The other way round: a module with no cache entry, or whose entry
    * carries an error code, is initialised again from scratch (forced off,
    * pulse times checked) by a maintenance pass. */
  lemma MaintainUnhealthyReinitializes(env: Env, w: World, m: (string, string), rest: seq<(string, string)>)
    requires m.0 !in w.cache || (w.cache[m.0].errorCode.Some? && w.cache[m.0].errorCode.value != "")
    ensures MaintainAll(env, w, [m] + rest) == MaintainAll(env, InitializeSpec(env, w, m.0, m.1).1, rest)
  {
    assert ([m] + rest)[1..] == rest;
  }

  /** A turn-off never touches the module cache. */
  lemma {:induction false} RestoreKeepsCache(env: Env, w: World, todo: seq<Pending>, nd: bool, acc: seq<(string, Restore)>)
    ensures RestoreSpec(env, w, todo, nd, acc).1.cache == w.cache
    decreases |todo|
  {
    if todo != [] {
      var r := RestoreStep(env, w, todo[0], nd);
      if r.Continue? {
        RestoreKeepsCache(env, r.w, todo[1..], r.needsDelay, acc + [r.outcome]);
      }
    }
  }

  lemma TurnOffUnitKeepsCache(env: Env, w: World, key: string, u: Unit)
    ensures TurnOffUnit(env, w, key, u).1.cache == w.cache
  {
    var cut := ResolveModuleHost(env.hosts, PwrModuleOf(u.group));
    if cut.Ok? {
      var (reply, w1) := SendW(env, w, cut.value, PowerOn(PwrRelayForTower(u.tower)));
      if reply.Answered? {
        var w2 := w1.(states := Delete(w1.states, key));
        RestoreKeepsCache(env, w2, WithHosts(env, SameColumn(Values(w2.states), u.tower, u.group)), false, []);
      }
    }
  }

  lemma TurnOffKeepsCache(env: Env, w: World, id: string, k: Keying)
    ensures TurnOffSpec(env, w, id, k).1.cache == w.cache
  {
    var nid := NormalizeApartmentId(id);
    var p := ParseApartment(nid);
    if p.Ok? {
      TurnOffUnitKeepsCache(env, w, StateKey(k, nid, p.value), p.value);
    }
  }

  lemma {:induction false} TurnOffEachKeepsCache(env: Env, w: World, ids: seq<string>, k: Keying)
    ensures TurnOffEach(env, w, ids, k).cache == w.cache
    decreases |ids|
  {
    if ids != [] {
      TurnOffKeepsCache(env, w, ids[0], k);
      TurnOffEachKeepsCache(env, TurnOffSpec(env, w, ids[0], k).1, ids[1..], k);
    }
  }

  // ------------------------------------------------------- the expiry sweep

  /** What turning off an id sends: the key its unit is stored under, the
    * `PWR` host of its group and the command that cuts its tower's relay
    * there. */
  datatype Cut = Cut(key: string, host: string, command: Command)

  /** The cut for `id`; `None` when the id does not parse or its group has
    * no `PWR` host configured, in which case turning it off sends nothing. */
  function CutOf(env: Env, id: string, k: Keying): (c: Option<Cut>)
    ensures c.Some? <==> ParseApartment(NormalizeApartmentId(id)).Ok?
                         && ResolveModuleHost(env.hosts, PwrModuleOf(ParseApartment(NormalizeApartmentId(id)).value.group)).Ok?
    ensures c.Some? ==>
      var nid := NormalizeApartmentId(id);
      var u := ParseApartment(nid).value;
      && c.value.key == StateKey(k, nid, u)
      && c.value.command == PowerOn(PwrRelayForTower(u.tower))
  {
    var nid := NormalizeApartmentId(id);
    match ParseApartment(nid)
    case Err(_) => None
    case Ok(u) =>
      match ResolveModuleHost(env.hosts, PwrModuleOf(u.group))
      case Err(_) => None
      case Ok(h) => Some(Cut(StateKey(k, nid, u), h, PowerOn(PwrRelayForTower(u.tower))))
  }

  /** The cut for `id`, sent as the next message after `w`'s log, is
    * answered by its module. */
  predicate CutAnswered(env: Env, w: World, id: string, k: Keying)
  {
    var c := CutOf(env, id, k);
    c.Some? && env.respond(c.value.host, c.value.command, |w.log|).Answered?
  }

  /** One turn-off, from the outside: it sends the cut as its first message
    * (or nothing when there is no cut), removes no entry but the unit's own
    * and that one only when the cut is answered, and never touches the
    * cache. */
  lemma TurnOffStep(env: Env, w: World, id: string, k: Keying)
    requires KeyedById(w.states)
    ensures var w2 := TurnOffSpec(env, w, id, k).1;
      var c := CutOf(env, id, k);
      && KeyedById(w2.states) && w2.cache == w.cache && w.log <= w2.log
      && (forall x :: x in w2.states.entries ==> x in w.states.entries)
      && (c.None? ==> w2 == w)
      && (c.Some? ==> |w.log| < |w2.log| && w2.log[|w.log|] == Sent(c.value.host, c.value.command))
      && (CutAnswered(env, w, id, k) ==> c.value.key !in w2.states.entries)
      && (forall x :: x in w.states.entries && x !in w2.states.entries ==> CutAnswered(env, w, id, k) && x == c.value.key)
  {
    var nid := NormalizeApartmentId(id);
    var p := ParseApartment(nid);
    if p.Ok? {
      TurnOffUnitStep(env, w, StateKey(k, nid, p.value), p.value);
    }
  }

  lemma TurnOffUnitStep(env: Env, w: World, key: string, u: Unit)
    requires KeyedById(w.states)
    ensures var w2 := TurnOffUnit(env, w, key, u).1;
      var cut := ResolveModuleHost(env.hosts, PwrModuleOf(u.group));
      var answered := cut.Ok? && env.respond(cut.value, PowerOn(PwrRelayForTower(u.tower)), |w.log|).Answered?;
      && KeyedById(w2.states) && w2.cache == w.cache && w.log <= w2.log
      && (forall x :: x in w2.states.entries ==> x in w.states.entries)
      && (cut.Err? ==> w2 == w)
      && (cut.Ok? ==> |w.log| < |w2.log| && w2.log[|w.log|] == Sent(cut.value, PowerOn(PwrRelayForTower(u.tower))))
      && (answered ==> key !in w2.states.entries)
      && (forall x :: x in w.states.entries && x !in w2.states.entries ==> answered && x == key)
  {
    TurnOffEffect(env, w, key, u);
    var w2 := TurnOffUnit(env, w, key, u).1;
    var cut := ResolveModuleHost(env.hosts, PwrModuleOf(u.group));
    if cut.Ok? {
      var sent := w.log + [Sent(cut.value, PowerOn(PwrRelayForTower(u.tower)))];
      assert sent[|w.log|] == w2.log[|w.log|];
      if env.respond(cut.value, PowerOn(PwrRelayForTower(u.tower)), |w.log|).Answered? {
        forall x | x in w2.states.entries ensures x in w.states.entries {
          assert x in w2.states.keys;
        }
        forall x | x in w.states.entries && x != key ensures x in w2.states.entries {
          assert x in Delete(w.states, key).entries;
        }
      }
    }
  }

  lemma {:induction false} TurnOffEachSplit(env: Env, w: World, a: seq<string>, b: seq<string>, k: Keying)
    ensures TurnOffEach(env, w, a + b, k) == TurnOffEach(env, TurnOffEach(env, w, a, k), b, k)
    decreases |a|
  {
    if a == [] {
      assert a + b == b;
    } else {
      assert (a + b)[0] == a[0] && (a + b)[1..] == a[1..] + b;
      TurnOffEachSplit(env, TurnOffSpec(env, w, a[0], k).1, a[1..], b, k);
    }
  }

  /** The world the sweep over `ids` has reached when it comes to `ids[i]`. */
  function Before(env: Env, w: World, ids: seq<string>, k: Keying, i: nat): World
    requires i <= |ids|
  {
    TurnOffEach(env, w, ids[..i], k)
  }

  /** `ids[i]` is turned off in the world the earlier ids left, whatever
    * became of them. */
  predicate Attempted(env: Env, w: World, ids: seq<string>, k: Keying, i: nat)
    requires i < |ids|
  {
    Before(env, w, ids, k, i + 1) == TurnOffSpec(env, Before(env, w, ids, k, i), ids[i], k).1
  }

  /** The cut for `ids[i]`, if there is one, is in `w2`'s log right after
    * the messages of the earlier ids. */
  predicate CutSent(env: Env, w: World, ids: seq<string>, k: Keying, i: nat, w2: World)
    requires i < |ids|
  {
    var b := Before(env, w, ids, k, i);
    var c := CutOf(env, ids[i], k);
    c.Some? ==> |b.log| < |w2.log| && w2.log[|b.log|] == Sent(c.value.host, c.value.command)
  }

  /** When the cut for `ids[i]` is answered, its key is not in `w2`. */
  predicate CutForgets(env: Env, w: World, ids: seq<string>, k: Keying, i: nat, w2: World)
    requires i < |ids|
  {
    CutAnswered(env, Before(env, w, ids, k, i), ids[i], k) ==> CutOf(env, ids[i], k).value.key !in w2.states.entries
  }

  /** Entry `x` went with the answered cut for `ids[i]`. */
  predicate RemovedBy(env: Env, w: World, ids: seq<string>, k: Keying, i: nat, x: string)
    requires i < |ids|
  {
    CutAnswered(env, Before(env, w, ids, k, i), ids[i], k) && CutOf(env, ids[i], k).value.key == x
  }

  /** What a sweep over `ids` from `w` to `w2` promises: every id is tried
    * in turn, each cut is sent to its `PWR` host, an answered cut leaves its
    * key out of the table, no entry is added and none goes except with an
    * answered cut, and the cache is left alone. */
  predicate Swept(env: Env, w: World, ids: seq<string>, k: Keying, w2: World)
  {
    && KeyedById(w2.states) && w2.cache == w.cache && w.log <= w2.log
    && (forall x :: x in w2.states.entries ==> x in w.states.entries)
    && (forall i :: 0 <= i < |ids| ==> Attempted(env, w, ids, k, i))
    && (forall i :: 0 <= i < |ids| ==> CutSent(env, w, ids, k, i, w2) && CutForgets(env, w, ids, k, i, w2))
    && (forall x :: x in w.states.entries && x !in w2.states.entries ==> exists i :: 0 <= i < |ids| && RemovedBy(env, w, ids, k, i, x))
  }

  /** A sweep ends by turning off its last id. */
  lemma TurnOffEachSnoc(env: Env, w: World, a: seq<string>, x: string, k: Keying)
    ensures TurnOffEach(env, w, a + [x], k) == TurnOffSpec(env, TurnOffEach(env, w, a, k), x, k).1
  {
    TurnOffEachSplit(env, w, a, [x], k);
    assert [x][1..] == [];
  }

  lemma TurnOffEachLast(env: Env, w: World, ids: seq<string>, k: Keying)
    requires ids != []
    ensures TurnOffEach(env, w, ids, k) == TurnOffSpec(env, TurnOffEach(env, w, ids[..|ids| - 1], k), ids[|ids| - 1], k).1
  {
    assert ids[..|ids| - 1] + [ids[|ids| - 1]] == ids;
    TurnOffEachSnoc(env, w, ids[..|ids| - 1], ids[|ids| - 1], k);
  }

  lemma SweepAttempts(env: Env, w: World, ids: seq<string>, k: Keying)
    ensures forall i :: 0 <= i < |ids| ==> Attempted(env, w, ids, k, i)
  {
    forall i | 0 <= i < |ids| ensures Attempted(env, w, ids, k, i) {
      AttemptedAt(env, w, ids, k, i);
    }
  }

  lemma AttemptedAt(env: Env, w: World, ids: seq<string>, k: Keying, i: nat)
    requires i < |ids|
    ensures Attempted(env, w, ids, k, i)
  {
    assert ids[..i + 1] == ids[..i] + [ids[i]];
    TurnOffEachSnoc(env, w, ids[..i], ids[i], k);
  }

  /** The sweep over all but the last id reaches the same worlds on the way. */
  lemma BeforeOfPrefix(env: Env, w: World, ids: seq<string>, k: Keying, i: nat)
    requires i < |ids| - 1
    ensures Before(env, w, ids[..|ids| - 1], k, i) == Before(env, w, ids, k, i)
    ensures ids[..|ids| - 1][i] == ids[i]
  {
    assert ids[..|ids| - 1][..i] == ids[..i];
  }

  /** `processExpiredExhausts` over any list of ids: see `Swept`. */
  lemma {:induction false} SweepEffect(env: Env, w: World, ids: seq<string>, k: Keying)
    requires KeyedById(w.states)
    ensures Swept(env, w, ids, k, TurnOffEach(env, w, ids, k))
    decreases |ids|
  {
    SweepAttempts(env, w, ids, k);
    if ids != [] {
      var n := |ids|;
      var init := ids[..n - 1];
      SweepEffect(env, w, init, k);
      var mid := TurnOffEach(env, w, init, k);
      TurnOffEachLast(env, w, ids, k);
      var w2 := TurnOffSpec(env, mid, ids[n - 1], k).1;
      TurnOffStep(env, mid, ids[n - 1], k);
      CutLast(env, w, ids, init, k, mid, w2);
      SweepExtendCuts(env, w, ids, init, k, mid, w2);
      SweepExtendRemoved(env, w, ids, init, k, mid, w2);
    }
  }

  /** The cuts of a sweep one id longer: the earlier ones stay in the log and
    * their keys stay out, and the last one is sent and, when answered,
    * removes its key. */
  lemma SweepExtendCuts(env: Env, w: World, ids: seq<string>, init: seq<string>, k: Keying, mid: World, w2: World)
    requires ids != [] && init == ids[..|ids| - 1]
    requires mid.log <= w2.log && (forall x :: x in w2.states.entries ==> x in mid.states.entries)
    requires forall i :: 0 <= i < |init| ==> CutSent(env, w, init, k, i, mid) && CutForgets(env, w, init, k, i, mid)
    requires CutSent(env, w, ids, k, |ids| - 1, w2) && CutForgets(env, w, ids, k, |ids| - 1, w2)
    ensures forall i :: 0 <= i < |ids| ==> CutSent(env, w, ids, k, i, w2) && CutForgets(env, w, ids, k, i, w2)
  {
    forall i | 0 <= i < |ids| - 1 ensures CutSent(env, w, ids, k, i, w2) && CutForgets(env, w, ids, k, i, w2) {
      CutCarried(env, w, ids, init, k, mid, w2, i);
    }
  }

  lemma CutCarried(env: Env, w: World, ids: seq<string>, init: seq<string>, k: Keying, mid: World, w2: World, i: nat)
    requires ids != [] && init == ids[..|ids| - 1] && i < |init|
    requires mid.log <= w2.log && (forall x :: x in w2.states.entries ==> x in mid.states.entries)
    requires CutSent(env, w, init, k, i, mid) && CutForgets(env, w, init, k, i, mid)
    ensures CutSent(env, w, ids, k, i, w2) && CutForgets(env, w, ids, k, i, w2)
  {
    BeforeOfPrefix(env, w, ids, k, i);
  }

  lemma CutLast(env: Env, w: World, ids: seq<string>, init: seq<string>, k: Keying, mid: World, w2: World)
    requires ids != [] && init == ids[..|ids| - 1] && mid == TurnOffEach(env, w, init, k) && KeyedById(mid.states)
    requires w2 == TurnOffSpec(env, mid, ids[|ids| - 1], k).1
    ensures CutSent(env, w, ids, k, |ids| - 1, w2) && CutForgets(env, w, ids, k, |ids| - 1, w2)
  {
    TurnOffStep(env, mid, ids[|ids| - 1], k);
    assert Before(env, w, ids, k, |ids| - 1) == mid;
  }


  /** The entries gone after a sweep one id longer went with the last cut
    * or with an earlier one. */
  lemma SweepExtendRemoved(env: Env, w: World, ids: seq<string>, init: seq<string>, k: Keying, mid: World, w2: World)
    requires ids != [] && init == ids[..|ids| - 1] && mid == TurnOffEach(env, w, init, k) && KeyedById(mid.states)
    requires w2 == TurnOffSpec(env, mid, ids[|ids| - 1], k).1
    requires forall x :: x in w.states.entries && x !in mid.states.entries ==> exists i :: 0 <= i < |init| && RemovedBy(env, w, init, k, i, x)
    ensures forall x :: x in w.states.entries && x !in w2.states.entries ==> exists i :: 0 <= i < |ids| && RemovedBy(env, w, ids, k, i, x)
  {
    var n := |ids|;
    TurnOffStep(env, mid, ids[n - 1], k);
    assert Before(env, w, ids, k, n - 1) == mid;
    forall x | x in w.states.entries && x !in w2.states.entries
      ensures exists i :: 0 <= i < n && RemovedBy(env, w, ids, k, i, x)
    {
      if x in mid.states.entries {
        assert RemovedBy(env, w, ids, k, n - 1, x);
      } else {
        var i :| 0 <= i < n - 1 && RemovedBy(env, w, init, k, i, x);
        BeforeOfPrefix(env, w, ids, k, i);
        assert RemovedBy(env, w, ids, k, i, x);
      }
    }
  }

  /** A run of the service loop that finds another one in progress changes
    * nothing. Any other run leaves the modules initialised, with a cache
    * entry for every configured module, and then sweeps the units whose
    * expiry has passed, in table order, as `Swept` says. */
  lemma TickEffect(env: Env, w: World, running: bool, initialized: bool, k: Keying)
    ensures running ==> TickSpec(env, w, running, initialized, k) == (w, initialized)
    ensures !running ==>
      var (w2, init2) := TickSpec(env, w, running, initialized, k);
      var w1 := ModulePass(env, w, initialized);
      && init2
      && (forall m :: m in ListModules(env.hosts) ==> m.0 in w2.cache)
      && w1.states == w.states
      && (KeyedById(w.states) ==> Swept(env, w1, ExpiredIds(Values(w.states), env.now), k, w2))
  {
    if !running {
      var ms := ListModules(env.hosts);
      var w1 := ModulePass(env, w, initialized);
      if initialized { MaintainAllCovers(env, w, ms); } else { InitAllCovers(env, w, ms); }
      TurnOffEachKeepsCache(env, w1, ExpiredIds(Values(w1.states), env.now), k);
      forall m | m in ms ensures m.0 in w1.cache {
        var i :| 0 <= i < |ms| && ms[i] == m;
      }
      if KeyedById(w.states) {
        SweepEffect(env, w1, ExpiredIds(Values(w.states), env.now), k);
      }
    }
  }

  // ------------------------------------------ properties of the status views

  /** The status of an id names the unit it parses to, and its memory row is
    * the row of the entry `getExhaustMemory` finds for the same id. */
  lemma StatusAgreesWithMemory(w: World, id: string, k: Keying, now: int)
    requires KeyedById(w.states)
    ensures var r := GetExhaustStatus(w, id, k, now);
      var p := ParseApartment(NormalizeApartmentId(id));
      && (r.Ok? <==> p.Ok?)
      && (r.Ok? ==>
            && r.value.tower == p.value.tower && r.value.final == p.value.final
            && r.value.relay == p.value.relay && r.value.moduleId == p.value.moduleId
            && (r.value.moduleStatus.Some? <==> p.value.moduleId in w.cache)
            && r.value.memory == (match GetExhaustMemory(w, id, k)
                                  case Some(s) => Some(MemoryEntryOf(s, now))
                                  case None => None))
  {
    var nid := NormalizeApartmentId(id);
    var p := ParseApartment(nid);
    if p.Ok? {
      FindMemoryOfValid(w.states, now, StateKey(k, nid, p.value));
    }
  }

  /** Reporting every module refreshes each configured module, leaves the
    * table of units alone and reports one memory row per unit. */
  lemma {:induction false} RefreshAllCovers(env: Env, w: World, ms: seq<(string, string)>)
    ensures RefreshAll(env, w, ms).states == w.states
    ensures forall i :: 0 <= i < |ms| ==> ms[i].0 in RefreshAll(env, w, ms).cache
    ensures |RefreshAll(env, w, ms).log| == |w.log| + 2 * |ms|
    decreases |ms|
  {
    if ms != [] {
      RefreshEffect(env, w, ms[0].0, ms[0].1);
      RefreshAllCovers(env, RefreshSpec(env, w, ms[0].0, ms[0].1), ms[1..]);
      forall i | 0 < i < |ms| ensures ms[i].0 == ms[1..][i - 1].0 { }
      RefreshKeepsModules(env, RefreshSpec(env, w, ms[0].0, ms[0].1), ms[1..], ms[0].0);
    }
  }

  lemma {:induction false} RefreshKeepsModules(env: Env, w: World, ms: seq<(string, string)>, m: string)
    requires m in w.cache
    ensures m in RefreshAll(env, w, ms).cache
    decreases |ms|
  {
    if ms != [] {
      RefreshEffect(env, w, ms[0].0, ms[0].1);
      RefreshKeepsModules(env, RefreshSpec(env, w, ms[0].0, ms[0].1), ms[1..], m);
    }
  }

  lemma AllModulesStatusEffect(env: Env, w: World)
    ensures var ((cache, memory), w2) := GetAllModulesStatus(env, w);
      && w2.states == w.states
      && (forall m :: m in ListModules(env.hosts) ==> m.0 in cache)
      && |memory| == |w.states.keys|
  {
    var ms := ListModules(env.hosts);
    RefreshAllCovers(env, w, ms);
    forall m | m in ms ensures m.0 in RefreshAll(env, w, ms).cache {
      var i :| 0 <= i < |ms| && ms[i] == m;
    }
  }

  /** Configuring sends the raw command to the resolved module and nothing
    * else; an unresolved module gets nothing. */
  lemma ConfigureEffect(env: Env, w: World, moduleName: string, command: string)
    ensures var (r, w2) := ConfigureSpec(env, w, moduleName, command);
      var h := ResolveHostByModule(env.hosts, moduleName);
      && w2.states == w.states && w2.cache == w.cache
      && (h.Err? ==> r == Err(h.error) && w2.log == w.log)
      && (h.Ok? ==> w2.log == w.log + [Sent(h.value, Raw(command))]
                    && (r.Ok? <==> env.respond(h.value, Raw(command), |w.log|).Answered?))
  {
  }

  /** The process status counts one row per unit that is on. */
  lemma ProcessStatusCounts(w: World, now: int)
    ensures GetExhaustProcessStatus(w, now).0 == |w.states.keys|
    ensures forall i :: 0 <= i < |w.states.keys| ==> GetExhaustProcessStatus(w, now).1[i].id == w.states.entries[w.states.keys[i]].id
  {
  }
}
