/** The pure helpers of the exhaust-fan relay services: apartment-id
  * normalisation and parsing into tower / final digit / group / relay, the
  * module host table, host resolution from a module name, a 1-based index or
  * an IPv4 literal, the power-cut relay of each tower and the
  * remaining-minutes arithmetic. The two service files carry identical copies
  * of these helpers; they differ only in the environment variables that fill
  * the host table. */
module ExhaustUnits {
  import opened Wrappers
  import opened JsText
  import opened JsValues

  datatype Tower = A | B | C

  /** A group of apartment finals: 1-4 or 5-8. */
  datatype Group = G14 | G58

  /** What `parseApartment` returns. */
  datatype Unit = Unit(tower: Tower, final: nat, relay: nat, group: Group, moduleId: string)

  /** The errors the services throw, each with its message. */
  datatype Fault =
    | InvalidApartmentId
    | HostNotConfigured(moduleId: string)
    | InvalidModule(name: string)
    | UndefinedModuleName
    | DeviceError(status: nat, reason: string)
    | PulseTimeMismatch

  function FaultMessage(f: Fault): string
  {
    match f
    case InvalidApartmentId => "ID do exaustor inválido. Use formato A1, A-1, A_1 (torre A/B/C e final 1-8)."
    case HostNotConfigured(m) => "Host não configurado para o módulo: " + m
    case InvalidModule(m) => "Módulo inválido: " + m
    case UndefinedModuleName => "Cannot read properties of undefined (reading 'trim')"
    case DeviceError(_, reason) => reason
    case PulseTimeMismatch => "PulseTime final diferente do esperado"
  }

  /** The `status` a fault carries: that of a rejected module request; the
    * errors the services throw themselves have none (0). */
  function FaultStatus(f: Fault): nat
  {
    if f.DeviceError? then f.status else 0
  }

  function TowerName(t: Tower): string
  {
    match t
    case A => "A"
    case B => "B"
    case C => "C"
  }

  function GroupName(g: Group): string
  {
    match g
    case G14 => "14"
    case G58 => "58"
  }

  function ModuleIdOf(t: Tower, g: Group): string
  {
    TowerName(t) + "_" + GroupName(g)
  }

  function PwrModuleOf(g: Group): string
  {
    "PWR_" + GroupName(g)
  }

  /** `MODULE_INDEX_MAP`, which is also the key order of the host table. */
  const ModuleIndexMap: seq<string> := ["A_14", "A_58", "B_14", "B_58", "C_14", "C_58", "PWR_14", "PWR_58"]

  /** The host configured for each entry of `ModuleIndexMap`; the empty string
    * stands for an unset or empty environment variable. */
  type HostTable = t: seq<string> | |t| == 8 witness ["", "", "", "", "", "", "", ""]

  lemma ModuleIndexMapDistinct()
    ensures forall i, j :: 0 <= i < j < 8 ==> ModuleIndexMap[i] != ModuleIndexMap[j]
  {
  }

  // ------------------------------------------------------------ apartment ids

  /** `normalizeApartmentId`: trim, upper-case, drop white space, `-` to `_`. */
  function NormalizeApartmentId(id: string): (r: string)
    ensures NoSpace(r) && NoLower(r) && Lacks(r, '-')
  {
    var u := ToUpper(Trim(id));
    ToUpperHasNoLower(Trim(id));
    StripSpacesKeepsNoLower(u);
    ReplaceCharResult(StripSpaces(u), '-', '_');
    ReplaceChar(StripSpaces(u), '-', '_')
  }

  /** Normalisation in two steps: trim and upper-case, then the rest. */
  lemma NormalizeVia(id: string, trimmed: string, upper: string)
    requires Trim(id) == trimmed && ToUpper(trimmed) == upper
    ensures NormalizeApartmentId(id) == ReplaceChar(StripSpaces(upper), '-', '_')
  {
  }

  /** An id that is already in normal form is left as it is. */
  lemma NormalOfCanonical(n: string)
    requires NoSpace(n) && NoLower(n) && Lacks(n, '-')
    ensures NormalizeApartmentId(n) == n
  {
    TrimOfNoSpace(n);
    ToUpperOfNoLower(n);
    NormalizeVia(n, n, n);
    ReplaceCharOfLacking(n, '-', '_');
  }

  /** Normalising a normalised id changes nothing. */
  lemma NormalizeIdempotent(id: string)
    ensures NormalizeApartmentId(NormalizeApartmentId(id)) == NormalizeApartmentId(id)
  {
    NormalOfCanonical(NormalizeApartmentId(id));
  }

  /** The tower letter of the pattern `(A|B|C)` under the `i` flag. */
  function TowerOf(c: char): (r: Option<Tower>)
    ensures r.Some? ==> TowerName(r.value) == [UpperChar(c)]
  {
    var u := UpperChar(c);
    if u == 'A' then Some(A) else if u == 'B' then Some(B) else if u == 'C' then Some(C) else None
  }

  predicate IsFinalDigit(c: char) { '1' <= c <= '8' }

  /** `/^(A|B|C)_?([1-8])$/i`. */
  predicate MatchesApartment(n: string)
  {
    (|n| == 2 && TowerOf(n[0]).Some? && IsFinalDigit(n[1]))
    || (|n| == 3 && TowerOf(n[0]).Some? && n[1] == '_' && IsFinalDigit(n[2]))
  }

  /** The unit of a tower and a final: finals 1-4 are relays 1-4 of the
    * `_14` module, finals 5-8 relays 1-4 of the `_58` module. */
  function UnitOf(t: Tower, final: nat): (u: Unit)
    requires 1 <= final <= 8
    ensures u.tower == t && u.final == final && 1 <= u.relay <= 4
    ensures (u.group == G14 <==> final <= 4) && final == u.relay + (if u.group == G58 then 4 else 0)
    ensures u.moduleId == ModuleIdOf(t, u.group)
  {
    var g := if final <= 4 then G14 else G58;
    Unit(t, final, if final <= 4 then final else final - 4, g, ModuleIdOf(t, g))
  }

  /** `parseApartment`. */
  function ParseApartment(id: string): (r: Result<Unit, Fault>)
    ensures r.Err? ==> r.error == InvalidApartmentId
    ensures r.Ok? ==> 1 <= r.value.final <= 8 && r.value == UnitOf(r.value.tower, r.value.final)
  {
    ParseNormalized(NormalizeApartmentId(id))
  }

  /** The pattern match and unit construction of `parseApartment`, on an id
    * already normalised. */
  function ParseNormalized(n: string): (r: Result<Unit, Fault>)
    ensures r.Err? ==> r.error == InvalidApartmentId
    ensures r.Ok? ==> 1 <= r.value.final <= 8 && r.value == UnitOf(r.value.tower, r.value.final)
    ensures r.Ok? <==> MatchesApartment(n)
    ensures r.Ok? ==> r.value.tower == TowerOf(n[0]).value && r.value.final == DigitValue(n[|n| - 1])
  {
    if !MatchesApartment(n) then Err(InvalidApartmentId)
    else
      var d := n[|n| - 1];
      assert IsFinalDigit(d);
      var v := DigitValue(d);
      assert 1 <= v <= 8;
      Ok(UnitOf(TowerOf(n[0]).value, v))
  }

  /** Parsing a normalised id of the form tower letter, optional `_`, final. */
  lemma ParseOfNormal(t: Tower, d: char)
    requires IsFinalDigit(d)
    ensures ParseNormalized(TowerName(t) + [d]) == Ok(UnitOf(t, DigitValue(d)))
    ensures ParseNormalized(TowerName(t) + "_" + [d]) == Ok(UnitOf(t, DigitValue(d)))
  {
    assert TowerOf(TowerName(t)[0]) == Some(t);
  }

  /** Every unit of the building is reachable in each of the spellings `A1`,
    * `a-1` and `A_1`. */
  lemma ParseApartmentSpellings(t: Tower, final: nat)
    requires 1 <= final <= 8
    ensures var d := DigitChar(final);
      && ParseApartment(TowerName(t) + [d]) == Ok(UnitOf(t, final))
      && ParseApartment(ToLower(TowerName(t)) + "-" + [d]) == Ok(UnitOf(t, final))
      && ParseApartment(TowerName(t) + "_" + [d]) == Ok(UnitOf(t, final))
  {
    var d := DigitChar(final);
    ParseOfNormal(t, d);
    SpellingCompact(t, d);
    SpellingHyphen(t, d);
    SpellingUnderscore(t, d);
  }

  lemma SpellingCompact(t: Tower, d: char)
    requires IsFinalDigit(d)
    ensures NormalizeApartmentId(TowerName(t) + [d]) == TowerName(t) + [d]
  {
    var n := TowerName(t) + [d];
    assert NoSpace(n) && NoLower(n) && Lacks(n, '-');
    NormalOfCanonical(n);
  }

  lemma SpellingUnderscore(t: Tower, d: char)
    requires IsFinalDigit(d)
    ensures NormalizeApartmentId(TowerName(t) + "_" + [d]) == TowerName(t) + "_" + [d]
  {
    var n := TowerName(t) + "_" + [d];
    assert NoSpace(n) && NoLower(n) && Lacks(n, '-');
    NormalOfCanonical(n);
  }

  lemma SpellingHyphen(t: Tower, d: char)
    requires IsFinalDigit(d)
    ensures NormalizeApartmentId(ToLower(TowerName(t)) + "-" + [d]) == TowerName(t) + "_" + [d]
  {
    var s := ToLower(TowerName(t)) + "-" + [d];
    var u := TowerName(t) + "-" + [d];
    HyphenSpelling(t, d);
    TrimOfNoSpace(s);
    NormalizeVia(s, s, u);
    assert StripSpaces(u) == u;
    HyphenReplaced(t, d);
  }

  lemma HyphenSpelling(t: Tower, d: char)
    requires IsFinalDigit(d)
    ensures NoSpace(ToLower(TowerName(t)) + "-" + [d])
    ensures ToUpper(ToLower(TowerName(t)) + "-" + [d]) == TowerName(t) + "-" + [d]
    ensures NoSpace(TowerName(t) + "-" + [d])
  {
  }

  lemma HyphenReplaced(t: Tower, d: char)
    requires IsFinalDigit(d)
    ensures ReplaceChar(TowerName(t) + "-" + [d], '-', '_') == TowerName(t) + "_" + [d]
  {
  }

  /** White space around an id does not change its normal form. */
  lemma NormalizeIgnoresPadding(x: string)
    requires x != [] && !IsSpace(x[0]) && !IsSpace(x[|x| - 1])
    ensures NormalizeApartmentId(" " + x + " ") == NormalizeApartmentId(x)
  {
    TrimOfPadded(x);
    TrimOfTrimmed(x);
    NormalizeVia(" " + x + " ", x, ToUpper(x));
    NormalizeVia(x, x, ToUpper(x));
  }

  lemma TrimOfPadded(x: string)
    requires x != [] && !IsSpace(x[0]) && !IsSpace(x[|x| - 1])
    ensures Trim(" " + x + " ") == x
  {
    var s := " " + x + " ";
    assert LeadingSpaces(s[1..]) == 0;
    assert TrimStart(s) == x + " ";
    assert TrailingSpaces((x + " ")[..|x|]) == 0;
    assert TrimEnd(x + " ") == x;
  }

  /** Distinct towers or groups give distinct module ids. */
  lemma ModuleIdOfInjective(t1: Tower, g1: Group, t2: Tower, g2: Group)
    requires ModuleIdOf(t1, g1) == ModuleIdOf(t2, g2)
    ensures t1 == t2 && g1 == g2
  {
    assert ModuleIdOf(t1, g1)[0] == TowerName(t1)[0];
    assert ModuleIdOf(t2, g2)[0] == TowerName(t2)[0];
    assert ModuleIdOf(t1, g1)[2] == GroupName(g1)[0];
    assert ModuleIdOf(t2, g2)[2] == GroupName(g2)[0];
  }

  /** A relay of a module drives exactly one apartment column: two units
    * with the same module and relay are the same tower and final. */
  lemma RelayIdentifiesUnit(t1: Tower, f1: nat, t2: Tower, f2: nat)
    requires 1 <= f1 <= 8 && 1 <= f2 <= 8
    requires UnitOf(t1, f1).moduleId == UnitOf(t2, f2).moduleId
    requires UnitOf(t1, f1).relay == UnitOf(t2, f2).relay
    ensures t1 == t2 && f1 == f2
  {
    ModuleIdOfInjective(t1, UnitOf(t1, f1).group, t2, UnitOf(t2, f2).group);
  }

  /** `getPwrRelayForTower`: the relay of the power-cut module that feeds a
    * tower; distinct towers use distinct relays. */
  function PwrRelayForTower(t: Tower): (r: nat)
    ensures 1 <= r <= 3
    ensures r == 1 <==> t == A
    ensures r == 2 <==> t == B
  {
    if t == A then 1 else if t == B then 2 else 3
  }

  // ------------------------------------------------------------------- hosts

  /** The position of a key of the host table, if it is one. */
  function ModuleSlot(key: string): (r: Option<nat>)
    ensures r.Some? ==> r.value < 8 && ModuleIndexMap[r.value] == key
    ensures r.None? ==> key !in ModuleIndexMap
  {
    if key == "A_14" then Some(0) else if key == "A_58" then Some(1)
    else if key == "B_14" then Some(2) else if key == "B_58" then Some(3)
    else if key == "C_14" then Some(4) else if key == "C_58" then Some(5)
    else if key == "PWR_14" then Some(6) else if key == "PWR_58" then Some(7)
    else None
  }

  /** `HOSTS[key]` is truthy. */
  predicate Configured(hosts: HostTable, key: string)
  {
    ModuleSlot(key).Some? && hosts[ModuleSlot(key).value] != ""
  }

  /** `resolveModuleHost`: the host of the trimmed, upper-cased module id, or
    * an error when none is configured. */
  function ResolveModuleHost(hosts: HostTable, moduleId: string): (r: Result<string, Fault>)
    ensures r.Ok? ==> r.value != "" && r.value in hosts
    ensures r.Err? ==> r.error == HostNotConfigured(moduleId)
  {
    var key := ToUpper(Trim(moduleId));
    if Configured(hosts, key) then Ok(hosts[ModuleSlot(key).value]) else Err(HostNotConfigured(moduleId))
  }

  /** A key of the table resolves to its host exactly when that host is set. */
  lemma ResolveKey(hosts: HostTable, key: string)
    requires ModuleSlot(key).Some?
    ensures ResolveModuleHost(hosts, key)
      == if hosts[ModuleSlot(key).value] != "" then Ok(hosts[ModuleSlot(key).value]) else Err(HostNotConfigured(key))
  {
    KeyIsCanonical(key);
  }

  /** `\d{1,3}` followed, `groups - 1` times, by `\.\d{1,3}`, spanning `s`. */
  predicate DottedOctets(s: string, groups: nat)
    decreases |s|
  {
    var d := LeadingDigits(s);
    1 <= d <= 3
    && if groups <= 1 then d == |s| else d < |s| && s[d] == '.' && DottedOctets(s[d + 1..], groups - 1)
  }

  /** `/^\d{1,3}(?:\.\d{1,3}){3}$/`. */
  predicate IsIPv4Literal(s: string) { DottedOctets(s, 4) }

  /** The keys of the host table have no white space and no lower-case
    * letter. */
  lemma KeyShape(key: string)
    requires ModuleSlot(key).Some?
    ensures NoSpace(key) && NoLower(key)
  {
  }

  /** Every key of the host table is already trimmed and upper-case. */
  lemma KeyIsCanonical(key: string)
    requires ModuleSlot(key).Some?
    ensures ToUpper(Trim(key)) == key
  {
    KeyShape(key);
    UpperOfSpaceless(key);
    ToUpperOfNoLower(key);
  }

  /** `resolveHostByModule`: an IPv4 literal is returned as given; otherwise a
    * configured module name; otherwise a 1-based index into
    * `MODULE_INDEX_MAP`. */
  function ResolveHostByModule(hosts: HostTable, moduleName: string): (r: Result<string, Fault>)
  {
    ResolveTrimmed(hosts, Trim(moduleName), moduleName)
  }

  /** `resolveHostByModule` after its first line, with `n` the trimmed
    * argument. */
  function ResolveTrimmed(hosts: HostTable, n: string, moduleName: string): (r: Result<string, Fault>)
    ensures IsIPv4Literal(n) ==> r == Ok(n)
    ensures !IsIPv4Literal(n) && Configured(hosts, ToUpper(n)) ==> r == Ok(hosts[ModuleSlot(ToUpper(n)).value])
    ensures r.Err? ==> r.error.HostNotConfigured? || r.error == InvalidModule(moduleName) || r.error == UndefinedModuleName
    ensures r.Err? && r.error == InvalidModule(moduleName) ==> !IsIPv4Literal(n) && !Configured(hosts, ToUpper(n))
  {
    if IsIPv4Literal(n) then Ok(n)
    else
      var upper := ToUpper(n);
      if Configured(hosts, upper) then
        ResolveKey(hosts, upper);
        ResolveModuleHost(hosts, upper)
      else
        var index := StringToNumber(n);
        if index.Finite? && 1.0 <= index.r <= 8.0 then
          if index.r == index.r.Floor as real then ResolveModuleHost(hosts, ModuleIndexMap[index.r.Floor - 1])
          else Err(UndefinedModuleName)
        else Err(InvalidModule(moduleName))
  }

  /** The decimal numerals of 1 to 8 are neither IPv4 literals nor keys of
    * the host table. */
  lemma IndexNumeral(k: nat)
    requires 1 <= k <= 8
    ensures var n := NatToDecimal(k);
      |n| == 1 && NoSpace(n) && ToUpper(n) == n && ModuleSlot(n).None? && !IsIPv4Literal(n)
  {
    var n := NatToDecimal(k);
    assert IsDigit(n[0]);
    LeadingDigitsOfDigits(n);
  }

  /** The index branch: a trimmed argument that is neither an IPv4 literal
    * nor a configured name and reads as an integer from 1 to 8. */
  lemma ResolveByIndex(hosts: HostTable, n: string, moduleName: string, k: nat)
    requires 1 <= k <= 8
    requires !IsIPv4Literal(n) && !Configured(hosts, ToUpper(n)) && StringToNumber(n) == Finite(k as real)
    ensures ResolveTrimmed(hosts, n, moduleName) == ResolveModuleHost(hosts, ModuleIndexMap[k - 1])
  {
    assert (k as real).Floor == k;
  }

  /** A 1-based index names the same host as the module it indexes. */
  lemma IndexAndNameAgree(hosts: HostTable, k: nat)
    requires 1 <= k <= 8
    ensures ResolveHostByModule(hosts, NatToDecimal(k)) == ResolveModuleHost(hosts, ModuleIndexMap[k - 1])
  {
    var n := NatToDecimal(k);
    IndexNumeral(k);
    TrimOfNoSpace(n);
    DigitsRoundTrip(k);
    ResolveByIndex(hosts, n, n, k);
  }

  /** `listModules`: the configured modules with their hosts, in table order. */
  function ListModules(hosts: HostTable): (ms: seq<(string, string)>)
    ensures forall m :: m in ms <==> exists j :: 0 <= j < 8 && hosts[j] != "" && m == (ModuleIndexMap[j], hosts[j])
  {
    ListFrom(hosts, 0)
  }

  function ListFrom(hosts: HostTable, i: nat): (ms: seq<(string, string)>)
    requires i <= 8
    ensures forall m :: m in ms <==> exists j :: i <= j < 8 && hosts[j] != "" && m == (ModuleIndexMap[j], hosts[j])
    decreases 8 - i
  {
    if i == 8 then []
    else if hosts[i] != "" then [(ModuleIndexMap[i], hosts[i])] + ListFrom(hosts, i + 1)
    else ListFrom(hosts, i + 1)
  }

  /** Each listed module resolves to the host it is listed with. */
  lemma ListedModuleResolves(hosts: HostTable, m: (string, string))
    requires m in ListModules(hosts)
    ensures ResolveModuleHost(hosts, m.0) == Ok(m.1)
  {
    var j :| 0 <= j < 8 && hosts[j] != "" && m == (ModuleIndexMap[j], hosts[j]);
    SlotOfIndex(j);
    ResolveKey(hosts, m.0);
  }

  lemma SlotOfIndex(j: nat)
    requires j < 8
    ensures ModuleSlot(ModuleIndexMap[j]) == Some(j)
  {
  }

  // ------------------------------------------------------------------- time

  /** `Date.now() + Math.round(minutes * 60 * 1000)`. */
  function ExpiryAfter(now: int, minutes: real): int
  {
    now + Round(minutes * 60000.0)
  }

  /** A whole number of minutes needs no rounding: the expiry is exactly
    * that many minutes of 60000 ms from now. */
  lemma WholeMinutesExpiry(now: int, k: int)
    ensures ExpiryAfter(now, k as real) == now + k * 60000
  {
    assert Round(k as real * 60000.0) == k * 60000;
  }

  /** `getRemainingMinutes`: unset (or zero) and past expiries give no value;
    * otherwise the whole minutes left, rounded up. The milliseconds left are
    * a whole number, so `Math.ceil(ms / 60000)` is the integer quotient
    * rounded up (see `RemainingIsCeil`). */
  function RemainingMinutes(expiresAt: Option<int>, now: int): (r: Option<int>)
    ensures r.None? <==> expiresAt.None? || expiresAt.value == 0 || expiresAt.value <= now
    ensures r.Some? ==> (r.value >= 1
      && (r.value - 1) * 60000 < expiresAt.value - now <= r.value * 60000)
  {
    if expiresAt.None? || expiresAt.value == 0 then None
    else
      var ms := expiresAt.value - now;
      if ms <= 0 then None else Some((ms + 59999) / 60000)
  }

  /** The quotient rounded up is `Math.ceil` of the real quotient. */
  lemma RemainingIsCeil(ms: int)
    requires ms > 0
    ensures (ms + 59999) / 60000 == Ceil(ms as real / 60000.0)
  {
    var q := (ms + 59999) / 60000;
    assert (q - 1) * 60000 < ms <= q * 60000;
    assert (q - 1) as real < ms as real / 60000.0 <= q as real;
  }

  /** Re-arming with the remaining whole minutes, as the restore loop does,
    * leaves exactly that many minutes remaining. */
  lemma RearmKeepsRemaining(now: int, k: int)
    requires now >= 0 && k >= 1
    ensures RemainingMinutes(Some(now + k * 60000), now) == Some(k)
  {
  }
}
