/** One fan, two spellings. `normalizeApartmentId` turns `a-1` into `A_1`
  * but leaves `A1` as it is, and the service stores a unit under its
  * normalised id. A fan switched on as `a-1` and switched off as `A1` is cut
  * on the `PWR` module, but the entry `A_1` survives; the restore loop then
  * finds it in the same tower and group with more than five minutes left and
  * switches the fan straight back on.
  *
  * `AsWrittenRearmsFanJustCut` plays that scenario on the model of the code
  * as written; `ByUnitForgetsFan` plays it with units stored under their
  * canonical id, and `TurnOffForgetsUnit` (in the service module) proves the
  * corrected behaviour for every id. */
module ExhaustKeying {
  import opened Wrappers
  import opened JsText
  import opened JsValues
  import opened OrderedMaps
  import opened RelayBus
  import opened ExhaustUnits
  import opened ExhaustService

  const Hosts: HostTable := ["10.0.0.1", "10.0.0.2", "10.0.0.3", "10.0.0.4", "10.0.0.5", "10.0.0.6", "10.0.0.7", "10.0.0.8"]

  /** Every module answers every command with `null`. */
  function AlwaysNull(host: string, c: Command, n: nat): Reply { Answered(Null) }

  /** `a-1` is normalised to `A_1`; `A1` is left as it is. */
  lemma SpellingsOfA1()
    ensures NormalizeApartmentId("a-1") == "A_1" && NormalizeApartmentId("A1") == "A1"
  {
    assert ToLower("A") == "a";
    SpellingHyphen(A, '1');
    assert ToLower(TowerName(A)) + "-" + ['1'] == "a-1";
    SpellingCompact(A, '1');
    assert TowerName(A) + "_" + ['1'] == "A_1";
    assert TowerName(A) + ['1'] == "A1";
  }

  /** Both spellings name the unit `A1`. */
  lemma ParsesOfA1()
    ensures ParseApartment("A_1") == Ok(UnitOf(A, 1)) && ParseApartment("A1") == Ok(UnitOf(A, 1))
  {
    ParseOfNormal(A, '1');
    SpellingCompact(A, '1');
    SpellingUnderscore(A, '1');
    assert DigitValue('1') == 1;
    assert TowerName(A) + "_" + ['1'] == "A_1";
    assert TowerName(A) + ['1'] == "A1";
  }

  /** The unit `A1` is relay 1 of module `A_14`, cut by relay 1 of `PWR_14`. */
  lemma HostsOfA1()
    ensures UnitOf(A, 1).moduleId == "A_14" && UnitOf(A, 1).relay == 1 && UnitOf(A, 1).group == G14
    ensures ResolveModuleHost(Hosts, "A_14") == Ok("10.0.0.1")
    ensures ResolveModuleHost(Hosts, "PWR_14") == Ok("10.0.0.7")
    ensures CanonicalId(UnitOf(A, 1)) == "A1"
    ensures ResolveModuleHost(Env1.hosts, PwrModuleOf(UnitOf(A, 1).group)) == Ok("10.0.0.7")
    ensures ResolveModuleHost(Env1.hosts, UnitOf(A, 1).moduleId) == Ok("10.0.0.1")
    ensures ResolveModuleHost(Env0.hosts, UnitOf(A, 1).moduleId) == Ok("10.0.0.1")
    ensures PwrRelayForTower(UnitOf(A, 1).tower) == 1
  {
    ShapeOfA1();
    HostOfA14();
    HostOfPwr14();
    assert Env0.hosts == Env1.hosts == Hosts;
  }

  lemma ShapeOfA1()
    ensures UnitOf(A, 1).moduleId == "A_14" && UnitOf(A, 1).relay == 1 && UnitOf(A, 1).group == G14
    ensures PwrModuleOf(G14) == "PWR_14" && PwrRelayForTower(A) == 1
    ensures CanonicalId(UnitOf(A, 1)) == "A1"
  {
    assert NatToDecimal(1) == "1";
  }

  lemma HostOfA14()
    ensures ResolveModuleHost(Hosts, "A_14") == Ok("10.0.0.1")
  {
    SlotOfIndex(0);
    ResolveKey(Hosts, "A_14");
  }

  lemma HostOfPwr14()
    ensures ResolveModuleHost(Hosts, "PWR_14") == Ok("10.0.0.7")
  {
    SlotOfIndex(6);
    ResolveKey(Hosts, "PWR_14");
  }

  lemma FanA1()
    ensures NormalizeApartmentId("a-1") == "A_1" && NormalizeApartmentId("A1") == "A1"
    ensures ParseApartment("A_1") == Ok(UnitOf(A, 1)) && ParseApartment("A1") == Ok(UnitOf(A, 1))
    ensures UnitOf(A, 1).moduleId == "A_14" && UnitOf(A, 1).relay == 1 && UnitOf(A, 1).group == G14
    ensures ResolveModuleHost(Hosts, "A_14") == Ok("10.0.0.1")
    ensures ResolveModuleHost(Hosts, "PWR_14") == Ok("10.0.0.7")
    ensures CanonicalId(UnitOf(A, 1)) == "A1"
  {
    SpellingsOfA1();
    ParsesOfA1();
    HostsOfA1();
  }

  const Env0: Env := Env(Hosts, AlwaysNull, 0)
  const Env1: Env := Env(Hosts, AlwaysNull, 60000)
  const Fresh: World := World(Empty(), map[], [])

  /** Switched on as `a-1`, the unit `A1` is stored under `A_1` as
    * written and under `A1` by unit. */
  lemma SwitchOnA1(k: Keying)
    ensures TurnOnSpec(Env0, Fresh, "a-1", Some(10.0), k)
      == TurnOnUnit(Env0, Fresh, if k.AsWritten? then "A_1" else "A1", UnitOf(A, 1), Some(10.0))
  {
    FanA1();
  }

  /** Switched off as `A1`, the unit `A1` is forgotten under `A1` in both
    * keyings. */
  lemma SwitchOffA1(w: World, k: Keying)
    ensures TurnOffSpec(Env1, w, "A1", k) == TurnOffUnit(Env1, w, "A1", UnitOf(A, 1))
  {
    FanA1();
  }

  /** The turn-on of the scenario: relay 1 of `A_14` is switched on and the
    * unit stored under `key` to expire ten minutes from time 0. */
  lemma SwitchOnA1Effect(key: string)
    ensures var (r, w1) := TurnOnUnit(Env0, Fresh, key, UnitOf(A, 1), Some(10.0));
      && w1.log == [Sent("10.0.0.1", PowerOn(1))]
      && w1.states.keys == [key]
      && w1.states.entries == map[key := ExhaustState(key, UnitOf(A, 1), Some(600000))]
  {
    HostsOfA1();
    TurnOnUnitEffect(Env0, Fresh, key, UnitOf(A, 1), Some(10.0));
    assert ExpiryAfter(0, 10.0) == 600000 by { assert Round(600000.0) == 600000; }
  }

  /** What the scenario needs to know of the unit `A1`: its column, its
    * relay, the host of its module and the relay that cuts its tower. */
  predicate FanOfA1(u: Unit)
  {
    && u.tower == A && u.group == G14 && u.relay == 1
    && ResolveModuleHost(Env1.hosts, u.moduleId) == Ok("10.0.0.1")
    && ResolveModuleHost(Env1.hosts, PwrModuleOf(u.group)) == Ok("10.0.0.7")
    && PwrRelayForTower(u.tower) == 1
  }

  lemma UnitOfA1()
    ensures FanOfA1(UnitOf(A, 1))
  {
    HostsOfA1();
  }

  /** One minute after being switched on for ten minutes, nine whole
    * minutes are left, so the unit is due to be re-armed. */
  lemma NineMinutesLeft(u: Unit)
    ensures RemainingMinutes(Some(600000), 60000) == Some(9)
    ensures Rearms(ExhaustState("A_1", u, Some(600000)), 60000)
  {
  }

  /** The restore loop switches `A_1` back on: relay 1 of `A_14`. */
  lemma RearmA1(wd: World, u: Unit)
    requires FanOfA1(u)
    ensures var s := ExhaustState("A_1", u, Some(600000));
      RestoreStep(Env1, wd, Pending(s, Ok("10.0.0.1")), false)
        == Continue(wd.(log := wd.log + [Sent("10.0.0.1", PowerOn(1))], states := Set(wd.states, "A_1", s)), true, ("A_1", Rearmed(Arr([Null]))))
  {
    var s := ExhaustState("A_1", u, Some(600000));
    NineMinutesLeft(u);
    assert s.(expiresAt := Some(Env1.now + 9 * 60000)) == s;
    assert AlwaysNull("10.0.0.1", PowerOn(1), |wd.log|) == Answered(Null);
  }

  /** The restore loop over the column `[A_1]` re-arms it and completes. */
  lemma RestoreA1(wd: World, u: Unit)
    requires FanOfA1(u)
    ensures var s := ExhaustState("A_1", u, Some(600000));
      RestoreSpec(Env1, wd, [Pending(s, Ok("10.0.0.1"))], false, [])
        == (Ok([("A_1", Rearmed(Arr([Null])))]), wd.(log := wd.log + [Sent("10.0.0.1", PowerOn(1))], states := Set(wd.states, "A_1", s)))
  {
    var p := Pending(ExhaustState("A_1", u, Some(600000)), Ok("10.0.0.1"));
    RearmA1(wd, u);
    var step := RestoreStep(Env1, wd, p, false);
    assert [p][0] == p && [p][1..] == [];
    var none: seq<(string, Restore)> := [];
    assert none + [("A_1", Rearmed(Arr([Null])))] == [("A_1", Rearmed(Arr([Null])))];
    assert RestoreSpec(Env1, wd, [p], false, []) == RestoreSpec(Env1, step.w, [], true, [("A_1", Rearmed(Arr([Null])))]);
  }

  /** The turn-off of the scenario as written: cutting `A1` when only `A_1`
    * is stored forgets nothing, and the restore loop finds `A_1` in the same
    * column with nine minutes left and re-arms it. */
  lemma CutA1(w1: World, u: Unit)
    requires FanOfA1(u)
    requires w1.log == [Sent("10.0.0.1", PowerOn(1))]
    requires w1.states.keys == ["A_1"]
    requires w1.states.entries == map["A_1" := ExhaustState("A_1", u, Some(600000))]
    ensures TurnOffUnit(Env1, w1, "A1", u)
      == (Ok(TurnOffResult(Arr([Null]), [("A_1", Rearmed(Arr([Null])))])),
          w1.(log := [Sent("10.0.0.1", PowerOn(1)), Sent("10.0.0.7", PowerOn(1)), Sent("10.0.0.1", PowerOn(1))]))
  {
    var wd := w1.(log := w1.log + [Sent("10.0.0.7", PowerOn(1))]);
    ColumnOfA1(w1.states, u);
    RestoreA1(wd, u);
    SetSame(w1.states, "A_1");
    assert wd.log + [Sent("10.0.0.1", PowerOn(1))] == [Sent("10.0.0.1", PowerOn(1)), Sent("10.0.0.7", PowerOn(1)), Sent("10.0.0.1", PowerOn(1))];
  }

  /** The map holding only `A_1` is unchanged by deleting `A1`, and its
    * column for tower A, group 14 is `A_1` on host `10.0.0.1`. */
  lemma ColumnOfA1(states: OrderedMap<ExhaustState>, u: Unit)
    requires FanOfA1(u)
    requires states.keys == ["A_1"]
    requires states.entries == map["A_1" := ExhaustState("A_1", u, Some(600000))]
    ensures Delete(states, "A1") == states
    ensures WithHosts(Env1, SameColumn(Values(states), A, G14)) == [Pending(ExhaustState("A_1", u, Some(600000)), Ok("10.0.0.1"))]
  {
    assert "A1" !in states.keys by { assert "A1"[1] != "A_1"[1]; }
    DeleteAbsent(states, "A1");
    var s := ExhaustState("A_1", u, Some(600000));
    assert Values(states) == [s];
    PendingOne(Env1, s, A, G14);
  }

  /** A single entry of the column stands alone in it, with its host. */
  lemma PendingOne(env: Env, s: ExhaustState, t: Tower, g: Group)
    requires s.unit.tower == t && s.unit.group == g
    ensures WithHosts(env, SameColumn([s], t, g)) == [Pending(s, ResolveModuleHost(env.hosts, s.unit.moduleId))]
  {
    assert SameColumn([s], t, g) == [s];
  }

  /** As written: switched on as `a-1` for ten minutes, switched off as `A1`
    * one minute later. The cut is sent, the entry `A_1` stays, and the last
    * command sent switches relay 1 of `A_14` (the same fan) on again. */
  lemma AsWrittenRearmsFanJustCut()
    ensures var w1 := TurnOnSpec(Env0, Fresh, "a-1", Some(10.0), AsWritten).1;
      var (r, w2) := TurnOffSpec(Env1, w1, "A1", AsWritten);
      && r == Ok(TurnOffResult(Arr([Null]), [("A_1", Rearmed(Arr([Null])))]))
      && w2.log == [Sent("10.0.0.1", PowerOn(1)), Sent("10.0.0.7", PowerOn(1)), Sent("10.0.0.1", PowerOn(1))]
      && w2.states.entries == map["A_1" := ExhaustState("A_1", UnitOf(A, 1), Some(600000))]
  {
    SwitchOnA1(AsWritten);
    SwitchOnA1Effect("A_1");
    var w1 := TurnOnUnit(Env0, Fresh, "A_1", UnitOf(A, 1), Some(10.0)).1;
    SwitchOffA1(w1, AsWritten);
    UnitOfA1();
    CutA1(w1, UnitOf(A, 1));
  }

  /** The turn-off of the corrected scenario: the cut forgets `A1` and
    * leaves nothing to re-arm. */
  lemma ByUnitTurnOff(w1: World, u: Unit)
    requires FanOfA1(u)
    requires w1.log == [Sent("10.0.0.1", PowerOn(1))]
    requires w1.states.keys == ["A1"]
    ensures var (r, w2) := TurnOffUnit(Env1, w1, "A1", u);
      && r == Ok(TurnOffResult(Arr([Null]), []))
      && w2.log == [Sent("10.0.0.1", PowerOn(1)), Sent("10.0.0.7", PowerOn(1))]
      && w2.states.keys == []
  {
    var wd := w1.(log := w1.log + [Sent("10.0.0.7", PowerOn(1))], states := Delete(w1.states, "A1"));
    assert wd.states.keys == [];
    assert Values(wd.states) == [];
    assert WithHosts(Env1, []) == [];
  }

  /** Corrected: with units stored under their canonical id the same two
    * calls cut the fan and leave it off, with no entry left for it. */
  lemma ByUnitForgetsFan()
    ensures var w1 := TurnOnSpec(Env0, Fresh, "a-1", Some(10.0), ByUnit).1;
      var (r, w2) := TurnOffSpec(Env1, w1, "A1", ByUnit);
      && r == Ok(TurnOffResult(Arr([Null]), []))
      && w2.log == [Sent("10.0.0.1", PowerOn(1)), Sent("10.0.0.7", PowerOn(1))]
      && w2.states.keys == []
  {
    SwitchOnA1(ByUnit);
    SwitchOnA1Effect("A1");
    var w1 := TurnOnUnit(Env0, Fresh, "A1", UnitOf(A, 1), Some(10.0)).1;
    SwitchOffA1(w1, ByUnit);
    UnitOfA1();
    ByUnitTurnOff(w1, UnitOf(A, 1));
  }
}
