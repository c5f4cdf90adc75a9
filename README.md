# Condominium gateway core, modelled in Dafny

This project models the core of a Node/Express gateway that runs a residential condominium's devices:
- the **exhaust fans** of the apartment columns. These are switched through Tasmota relay modules, one module per tower and group of finals, plus a `PWR` module that cuts a tower's supply. There are two services for them, `exhaust` and `exaustor`, with their HTTP controllers.
- the **access-control** side: Freedom access registration and queries, vehicle records (v2 and the older tables), gate and door control, and a cached status of the access-control devices.
- **web-push** alarm notifications, **user settings**, the **command log** and the **middleware** that audits commands.
- the **external vehicle lookup** by plate.

Each source file is one module. Pure code becomes datatypes, functions and lemmas. Code that keeps state in place becomes a class whose methods are proved against functions of the old state:
- the in-memory maps of the exhaust services;
- the module status cache;
- the push subscription store and the alarm cooldown;
- the command log directory;
- the access-control status cache.

JavaScript semantics are written out where the code relies on them:
- `JsText`: trimming white space, ASCII case mapping, number-to-string conversion;
- `JsValues`: JSON values, `Number(...)`, truthiness, `??` and `||`;
- `OrderedMaps`: `Map` insertion order.

Several things become parameters:
- every HTTP call to a device or provider is a function of URL and command;
- the clock is a `now` parameter;
- SQL results are input tables.

Shared helper modules, which hold no source logic of their own:
- `Wrappers`, `JsText`, `JsValues`, `OrderedMaps`, `Lists`, `TextOrder`;
- `HttpReplies`, which holds the controllers' reply shape;
- `Identifiers`, which covers CPF, plate and credential checks;
- `RelayBus`, which models a relay module answering commands;
- `RelayRequests`, which parses the exhaust route parameters.

## Model

| member | source | states |
|---|---|---|
| ExhaustUnits.ModuleIndexMapDistinct | src/services/exhaust.service.ts:121-123 | the eight module ids of the index table are pairwise distinct, so a 1-based index names one module |
| ExhaustUnits.NormalizeApartmentId | src/services/exhaust.service.ts:65-69 | a normalised id has no white space, no lower-case letter and no `-` |
| ExhaustUnits.NormalizeIdempotent | src/services/exhaust.service.ts:65-69 | normalising an id twice gives the same id as normalising it once |
| ExhaustUnits.NormalOfCanonical | src/services/exhaust.service.ts:65-69 | an id already without spaces, lower case or `-` is left unchanged |
| ExhaustUnits.NormalizeIgnoresPadding | src/services/exhaust.service.ts:65-69 | white space around an id does not change its normal form |
| ExhaustUnits.UnitOf | src/services/exhaust.service.ts:371-375 | finals 1-4 are relays 1-4 of the `_14` module, finals 5-8 relays 1-4 of the `_58` module; module id is tower and group |
| ExhaustUnits.ParseApartment | src/services/exhaust.service.ts:358-378 | the only failure is the invalid-id error; a parsed id gives a final 1..8 and the unit of its tower and final |
| ExhaustUnits.ParseNormalized | src/services/exhaust.service.ts:365-377 | parsing succeeds exactly when the id matches `^(A\|B\|C)_?([1-8])$`; the tower is its first letter and the final its last digit |
| ExhaustUnits.ParseOfNormal | src/services/exhaust.service.ts:365-377 | `T<d>` and `T_<d>` both parse to the unit of tower T and final d |
| ExhaustUnits.ParseApartmentSpellings | src/services/exhaust.service.ts:358-378 | every unit of the building is reached by the spellings `A1`, `a-1` and `A_1` alike |
| ExhaustUnits.ModuleIdOfInjective | src/services/exhaust.service.ts:375 | distinct tower or group give distinct module ids |
| ExhaustUnits.RelayIdentifiesUnit | src/services/exhaust.service.ts:371-375 | a module and relay drive exactly one apartment column (same tower and final) |
| ExhaustUnits.PwrRelayForTower | src/services/exhaust.service.ts:380-389 | the PWR relay is 1 for A, 2 for B, 3 for C: distinct towers use distinct relays |
| ExhaustUnits.ModuleSlot | src/services/exhaust.service.ts:121-123 | a key's slot indexes that key in the module table; no slot means the key is not a module id |
| ExhaustUnits.ResolveModuleHost | src/services/exhaust.service.ts:71-83 | a resolved host is non-empty and configured; otherwise the error names the module id |
| ExhaustUnits.ResolveKey | src/services/exhaust.service.ts:71-83 | a module key resolves to its host exactly when that host is set |
| ExhaustUnits.KeyIsCanonical | src/services/exhaust.service.ts:15-24 | every key of the host table is already trimmed and upper-case, so trimming and upper-casing a key finds it |
| ExhaustUnits.ResolveTrimmed | src/services/exhaust.service.ts:130-148 | an IPv4 literal is returned as given; a configured module name gives its host; `Módulo inválido` only when neither holds |
| ExhaustUnits.ResolveByIndex | src/services/exhaust.service.ts:142-145 | an argument reading as an integer 1..8 resolves as the module at that 1-based index |
| ExhaustUnits.IndexAndNameAgree | src/services/exhaust.service.ts:130-148 | the numeral k names the same host as the k-th module id |
| ExhaustUnits.ListModules | src/services/exhaust.service.ts:162-170 | the listed modules are exactly the configured (module id, host) pairs |
| ExhaustUnits.ListedModuleResolves | src/services/exhaust.service.ts:162-170 | each listed module resolves to the host it is listed with |
| ExhaustUnits.WholeMinutesExpiry | src/services/exhaust.service.ts:391-399 | k whole minutes expire exactly k·60000 ms from now (no rounding) |
| ExhaustUnits.RemainingMinutes | src/services/exhaust.service.ts:496-506 | no value exactly for an unset, zero or past expiry; otherwise at least one minute, the whole minutes left rounded up |
| ExhaustUnits.RemainingIsCeil | src/services/exhaust.service.ts:505 | the integer quotient rounded up equals `Math.ceil` of the real quotient |
| ExhaustUnits.RearmKeepsRemaining | src/services/exhaust.service.ts:610-616 | re-arming with the remaining k whole minutes leaves exactly k minutes remaining |
| ExhaustService.SendW | src/services/exhaust.service.ts:94-105 | sending a command returns the module's reply at this point and appends exactly that command to the bus log |
| ExhaustService.ExpiryFor | src/services/exhaust.service.ts:472-485 | an expiry is set exactly for a positive number of minutes, and then lies that many minutes (rounded) from now |
| ExhaustService.MemorySnapshot | src/services/exhaust.service.ts:508-523 | one snapshot row per stored unit, in insertion order, with its remaining minutes |
| ExhaustService.FindMemory | src/services/exhaust.service.ts:635 | a found row is in the snapshot with that id; none is found only when no row has the id |
| ExhaustService.FindMemoryOfValid | src/services/exhaust.service.ts:631-647 | on a table keyed by id, the snapshot row of an id is the row of the entry stored under it |
| ExhaustService.TurnOnUnitEffect | src/services/exhaust.service.ts:549-576 | a turn-on changes nothing unless the module answered `Power<relay> On`; then only the unit's entry is replaced, and the cache is untouched |
| ExhaustService.TurnOnKeepsValid | src/services/exhaust.service.ts:549-576 | turning on keeps every entry under its own id with a unit of the building (and under its canonical id when keyed by unit) |
| ExhaustService.SameColumn | src/services/exhaust.service.ts:602-603 | the column holds exactly the stored units of the same tower and group |
| ExhaustService.WithHosts | src/services/exhaust.service.ts:608-609 | each unit of the column is paired, in order, with the host its module resolves to |
| ExhaustService.RestoreStep | src/services/exhaust.service.ts:608-621 | a unit is re-armed exactly when it has more than five minutes left; skipped units report their remaining minutes and change nothing; the cache is untouched |
| ExhaustService.RestoreFirstStep | src/services/exhaust.service.ts:608-621 | a completed restore loop took a first step that did not stop it |
| ExhaustService.RestoreStepLog | src/services/exhaust.service.ts:611-616 | a re-arm sends `Power<relay> On` to the unit's host, after a pause when another unit was re-armed before it |
| ExhaustService.RestoreStepRearm | src/services/exhaust.service.ts:611-616 | a re-armed unit keeps its id and unit and expires its remaining whole minutes from now |
| ExhaustService.RestoreKeepsUnits | src/services/exhaust.service.ts:608-621 | the restore loop adds, removes and reorders no unit, leaves the cache alone and only extends the log |
| ExhaustService.RestoreTouchesOnlyRearmed | src/services/exhaust.service.ts:608-621 | an entry that no unit of the loop re-arms is left exactly as it was |
| ExhaustService.RestoreRearmsExpiry | src/services/exhaust.service.ts:608-621 | when the loop completes, every unit it re-armed expires its remaining whole minutes from now |
| ExhaustService.RestoreKeepsRemaining | src/services/exhaust.service.ts:608-621 | a re-armed unit is left with exactly the whole minutes it had before the cut |
| ExhaustService.RestoreOutcomes | src/services/exhaust.service.ts:605-623 | a completed loop reports one outcome per unit of the column, in order, re-armed exactly when it had more than five minutes left |
| ExhaustService.RearmSends | src/services/exhaust.service.ts:615 | the re-arm commands are all `Power<relay> On` commands |
| ExhaustService.Spaced | src/services/exhaust.service.ts:612-614 | spacing n commands adds a pause between consecutive ones (2n-1 events, or 2n when the first is paused too) |
| ExhaustService.RestoreLog | src/services/exhaust.service.ts:607-621 | a completed loop sent exactly the due re-arm commands, with the rearm delay only between two of them |
| ExhaustService.TurnOffEffect | src/services/exhaust.service.ts:583-624 | the cut on the tower's PWR relay is the first command; without a PWR host nothing happens; a failed cut leaves the table; an answered cut forgets the key and keeps every other unit |
| ExhaustService.ColumnStored | src/services/exhaust.service.ts:602-603 | the units of a column of a table keyed by id are stored as they are |
| ExhaustService.RestoreAfterCut | src/services/exhaust.service.ts:598-623 | once the cut is answered the key is gone, the loop keeps every other unit in place and reports one outcome per column unit |
| ExhaustService.TurnOffForgetsUnit | src/services/exhaust.service.ts:583-600 | with units keyed by canonical id, an answered cut leaves no entry for that unit, whatever spelling it was switched on with |
| ExhaustService.HealthyEntry | src/services/exhaust.service.ts:172-186 | a healthy cache entry carries no error code or error and is stamped now |
| ExhaustService.ErrorEntry | src/services/exhaust.service.ts:188-202 | an error entry carries its code, no readings, and is stamped now |
| ExhaustService.At | src/services/exhaust.service.ts:225 | reading past the end of the pulse values gives `undefined` |
| ExhaustService.InitFailed | src/services/exhaust.service.ts:250-253 | a failed step records its code in the module's cache entry, returns that code and leaves units and log alone |
| ExhaustService.ExpiredIds | src/services/exhaust.service.ts:405-409 | the expired ids are exactly those of units whose expiry is set and not after now |
| ExhaustService.ForceOffSends | src/services/exhaust.service.ts:204-212 | forcing a module off sends `Power<relay> Off` to relays relay..4 in order, stopping right after the first failure; tables untouched |
| ExhaustService.ForceOffAll | src/services/exhaust.service.ts:204-212 | without failure all four `Power<n> Off` commands were sent, in order |
| ExhaustService.PulseFixes | src/services/exhaust.service.ts:224-233 | the fixes are exactly `PulseTime<relay> 5` for the relays whose value is not 5 |
| ExhaustService.EnsurePulseSends | src/services/exhaust.service.ts:214-235 | corrections are sent in order, stopping right after the first failure; without failure all were sent; tables untouched |
| ExhaustService.EnsurePulseFix | src/services/exhaust.service.ts:224-233 | a relay whose pulse time is off is sent its fix first |
| ExhaustService.EnsurePulseIdle | src/services/exhaust.service.ts:224-233 | a module whose four pulse times are already 5 receives no write |
| ExhaustService.InitializeEffect | src/services/exhaust.service.ts:237-317 | initialising leaves the units alone, only appends to the log and stores one cache entry recording the returned error code |
| ExhaustService.InitializeFrame | src/services/exhaust.service.ts:237-317 | every initialisation leaves the units untouched, the log extended and one cache entry stamped now |
| ExhaustService.InitializeCodes | src/services/exhaust.service.ts:245-312 | the only error codes are the five step codes; a failed first reading sends just `Status` |
| ExhaustService.InitializeHealthy | src/services/exhaust.service.ts:237-317 | a successful initialisation read the status, forced `Power1..4 Off` first, fixed and re-read the pulse times, and cached the first status with a reading whose four times are 5 |
| ExhaustService.RefreshEffect | src/services/exhaust.service.ts:319-346 | a refresh sends `Status` and `PulseTime`, leaves the units alone and stores one entry, healthy exactly when both came back and the status is truthy |
| ExhaustService.InitAllCovers | src/services/exhaust.service.ts:436-444 | the first pass leaves the units alone and gives every configured module a cache entry, keeping the others |
| ExhaustService.MaintainAllCovers | src/services/exhaust.service.ts:445-459 | a later pass leaves the units alone and gives every configured module a cache entry, keeping the others |
| ExhaustService.MaintainHealthyOnlyRefreshes | src/services/exhaust.service.ts:446-458 | a module in the cache with no (or an empty) error code is only refreshed, never reinitialised |
| ExhaustService.MaintainUnhealthyReinitializes | src/services/exhaust.service.ts:446-454 | a module missing from the cache, or whose entry carries an error code, is initialised again |
| ExhaustService.RestoreKeepsCache | src/services/exhaust.service.ts:608-621 | the restore loop never touches the module cache |
| ExhaustService.TurnOffKeepsCache | src/services/exhaust.service.ts:583-624 | a turn-off never touches the module cache |
| ExhaustService.TurnOffEachKeepsCache | src/services/exhaust.service.ts:411-417 | turning off the expired units never touches the module cache |
| ExhaustService.TickEffect | src/services/exhaust.service.ts:431-465 | a run that finds another one running changes nothing; any other run leaves the modules initialised with a cache entry per configured module, leaves the units alone during the module pass, then sweeps the expired ids of the table as `SweepEffect` states |
| ExhaustService.TurnOffStep | src/services/exhaust.service.ts:583-600 | one turn-off sends its cut as its first message (nothing when the id does not parse or has no PWR host), adds no entry, removes only the unit's own key and only when the cut is answered, and keeps the cache |
| ExhaustService.SweepAttempts | src/services/exhaust.service.ts:410-416 | every expired id is turned off in the world the earlier ones left, whether their turn-off failed or not |
| ExhaustService.SweepEffect | src/services/exhaust.service.ts:405-417 | for each id of the sweep the tower's PWR relay command goes to its PWR host, right after the earlier ids' messages; an answered cut leaves its key out of the table; no entry is added and none is removed except by an answered cut; the cache is untouched |
| ExhaustService.StatusAgreesWithMemory | src/services/exhaust.service.ts:631-647 | the status of an id names the unit it parses to, and its memory row is the row of the entry `getExhaustMemory` finds |
| ExhaustService.RefreshAllCovers | src/services/exhaust.service.ts:351-356 | refreshing all leaves the units alone, gives each configured module an entry and sends two commands per module |
| ExhaustService.RefreshKeepsModules | src/services/exhaust.service.ts:351-356 | a module already cached stays cached |
| ExhaustService.AllModulesStatusEffect | src/services/exhaust.service.ts:649-664 | the report is the refreshed cache and the memory snapshot, one row per stored unit |
| ExhaustService.ConfigureEffect | src/services/exhaust.service.ts:666-675 | configuring sends the raw command to the resolved module and nothing else; an unresolved module gets nothing |
| ExhaustService.ProcessStatusCounts | src/services/exhaust.service.ts:687-698 | the process status counts one row per stored unit, in table order |
| ExhaustMachine.Service.constructor | src/services/exhaust.service.ts:60-63 | a new service holds no unit, an empty cache and no loop flags set |
| ExhaustMachine.Service.TurnOn | src/services/exhaust.service.ts:543-576 | the reply and the new tables and log are those of the turn-on function on the old state; loop flags unchanged |
| ExhaustMachine.Service.SwitchOn | src/services/exhaust.service.ts:563-575 | after parsing, the new state is the unit turn-on function of the old state |
| ExhaustMachine.Service.TurnOff | src/services/exhaust.service.ts:578-624 | the reply and the new state are those of the turn-off function on the old state |
| ExhaustMachine.Service.SwitchOff | src/services/exhaust.service.ts:586-623 | after parsing, cut, forget and restore as the unit turn-off function says |
| ExhaustMachine.Service.RestoreColumn | src/services/exhaust.service.ts:605-621 | the `for` loop over the column computes the restore function, outcome by outcome |
| ExhaustMachine.Service.RestoreUnit | src/services/exhaust.service.ts:609-620 | one pass of the loop is one restore step |
| ExhaustMachine.Service.Rearm | src/services/exhaust.service.ts:612-617 | pause when needed, `Power<relay> On`, and on an answer the new expiry |
| ExhaustMachine.Service.RecordError | src/services/exhaust.service.ts:188-202 | the cache gains the error entry for the module; nothing else changes |
| ExhaustMachine.Service.ForceModuleOff | src/services/exhaust.service.ts:204-212 | the `for` loop over relays 1..4 computes the force-off function |
| ExhaustMachine.Service.EnsurePulseTime | src/services/exhaust.service.ts:214-235 | the `for` loop over relays 1..4 computes the pulse-correction function |
| ExhaustMachine.Service.InitializeModule | src/services/exhaust.service.ts:237-317 | the result and new state are those of the initialisation function |
| ExhaustMachine.Service.RefreshModuleStatus | src/services/exhaust.service.ts:319-346 | the new state is that of the refresh function |
| ExhaustMachine.Service.RefreshAllModules | src/services/exhaust.service.ts:348-356 | the loop refreshes each listed module in order |
| ExhaustMachine.Service.ProcessExpired | src/services/exhaust.service.ts:401-418 | expired ids are collected first, then turned off in turn, failures ignored: the new state is the sweep `SweepEffect` describes |
| ExhaustMachine.Service.InitializeAll | src/services/exhaust.service.ts:436-444 | the first pass initialises every configured module |
| ExhaustMachine.Service.MaintainModules | src/services/exhaust.service.ts:445-459 | later passes reinitialise modules without a healthy entry and refresh the others |
| ExhaustMachine.Service.Tick | src/services/exhaust.service.ts:431-465 | one run of the loop body, as the tick function says |
| ExhaustMachine.Service.Start | src/services/exhaust.service.ts:424-470 | the first call runs the loop body once and marks the loop started; later calls change nothing |
| ExhaustMachine.Service.AllModulesStatus | src/services/exhaust.service.ts:649-664 | returns the refreshed cache and the memory snapshot |
| ExhaustMachine.Service.Configure | src/services/exhaust.service.ts:666-675 | sends the raw command to the module named by name, index or address |
| ExhaustKeying.ParsesOfA1 | src/services/exhaust.service.ts:549-551 | `A_1` and `A1` both parse to the unit A1 |
| ExhaustKeying.AsWrittenRearmsFanJustCut | src/services/exhaust.service.ts:549-624 | as written: on as `a-1` for ten minutes, off as `A1` a minute later, the last command re-arms the fan just cut |
| ExhaustKeying.ByUnitForgetsFan | src/services/exhaust.service.ts:583-624 | keyed by unit, the same two calls cut the fan and leave no entry for it |
| ExaustorService.SendW | src/services/exaustor.service.ts:83-94 | sending a command returns the module's reply at that point of the log and appends just that command |
| ExaustorService.Snapshot | src/services/exaustor.service.ts:242-257 | one memory row per stored unit, in insertion order |
| ExaustorService.GetMemory | src/services/exaustor.service.ts:387-395 | an entry is found exactly when one is stored under the normalised id |
| ExaustorService.Column | src/services/exaustor.service.ts:313-314 | the column holds exactly the stored units of the tower and group |
| ExaustorService.Query | src/services/exaustor.service.ts:83-94 | a query appends exactly its one command to the log |
| ExaustorService.StatusSends | src/services/exaustor.service.ts:355-363 | one `Status` per configured module, in order |
| ExaustorService.Report | src/services/exaustor.service.ts:357-362 | a report sits under its module id and carries an error, with a null status, exactly when the module failed |
| ExaustorService.CancelOwn | src/services/exaustor.service.ts:217-228 | cancelling the timer of the entry under a key leaves no timer armed for it and keeps the timers in agreement with the table |
| ExaustorService.StoreScheduled | src/services/exaustor.service.ts:181-215 | scheduling a state whose only armed timer is its own, then storing it, keeps the timers in agreement |
| ExaustorService.StoreUntimed | src/services/exaustor.service.ts:207-215 | storing a state without expiry when no timer is armed for it keeps the timers in agreement |
| ExaustorService.SetStateAgrees | src/services/exaustor.service.ts:202-215 | `setState` on a new state with no timer armed for its id keeps the timers in agreement |
| ExaustorService.TurnOnKeepsTimers | src/services/exaustor.service.ts:277-295 | corrected: cancelling the replaced entry's timer, a turn-on keeps every armed timer the own timer of a stored unit, firing at its expiry |
| ExaustorService.TurnOnLeavesOldTimer | src/services/exaustor.service.ts:186-200 | as written: switching on a unit that has an armed timer leaves that timer armed while the entry no longer holds it |
| ExaustorService.TurnOnTwiceLeaves | src/services/exaustor.service.ts:277-295 | as written: switching a unit on twice leaves the first timer armed for the first expiry |
| ExaustorService.ColumnReady | src/services/exaustor.service.ts:313-314 | the column of a table keyed by id holds stored states with distinct ids |
| ExaustorService.RescheduleKeeps | src/services/exaustor.service.ts:321-324 | rescheduling a stored unit keeps the timers in agreement, the keys and the log, and touches no other entry |
| ExaustorService.RearmKeepsTimers | src/services/exaustor.service.ts:318-325 | the restore loop keeps the timers in agreement and the table's keys |
| ExaustorService.ClearKeeps | src/services/exaustor.service.ts:217-228 | `clearState` removes the entry and every timer armed for it |
| ExaustorService.TurnOffKeepsTimers | src/services/exaustor.service.ts:302-328 | a turn-off keeps the timers in agreement, whatever its outcome |
| ExaustorService.FireKeepsTimers | src/services/exaustor.service.ts:193-199 | a timer firing keeps the timers in agreement |
| ExaustorService.RearmSends | src/services/exaustor.service.ts:318-320 | one `Power<relay> On` per unit, in order, to the unit's module host |
| ExaustorService.RearmFirstStep | src/services/exaustor.service.ts:318-325 | a completed loop took a first step that did not stop it |
| ExaustorService.RearmStepFacts | src/services/exaustor.service.ts:319-320 | a step that goes on sent the unit's `Power<relay> On` and reports under the unit's id |
| ExaustorService.RearmLog | src/services/exaustor.service.ts:318-325 | a completed loop switched every unit on again, one command each, in column order and with no pause |
| ExaustorService.RearmOutcomes | src/services/exaustor.service.ts:316-327 | a completed loop reports one outcome per unit, in order |
| ExaustorService.RescheduleExpiry | src/services/exaustor.service.ts:321-324 | a unit with minutes remaining expires that many whole minutes from now; any other keeps its expiry |
| ExaustorService.RearmExpiries | src/services/exaustor.service.ts:318-325 | a completed loop gives each column unit its re-armed expiry, touches no other entry and keeps the keys |
| ExaustorService.RearmAfterClear | src/services/exaustor.service.ts:309-325 | once the cut is answered the unit's entry and its timers are gone and the timers agree with the table |
| ExaustorService.RearmColumnDone | src/services/exaustor.service.ts:313-327 | a completed loop over a column re-armed each unit in order, whatever its remaining time, with one outcome each |
| ExaustorService.TurnOffEffect | src/services/exaustor.service.ts:297-328 | without a PWR host nothing happens; the tower's PWR relay is fired first; a failed cut leaves table and timers |
| ExaustorService.TurnOnEffect | src/services/exaustor.service.ts:271-295 | one `Power<relay> On`; when answered, the reply is a one-element array and the unit is stored with its own timer at its expiry, or untimed |
| ExaustorService.ModuleOfNormal | src/services/exaustor.service.ts:336-340 | on a normalised id the module pattern matches exactly the names of the host table, naming the module as given |
| ExaustorService.StatusOfModule | src/services/exaustor.service.ts:339-343 | the status of a module name asks that module for `Status`, one command only |
| ExaustorService.StatusOfUnit | src/services/exaustor.service.ts:345-347 | the status of any other id asks the unit's relay for `Power<relay>`, one command only |
| ExaustorService.ModuleIds | src/services/exaustor.service.ts:365-368 | the reported ids are exactly the module ids of the list |
| ExaustorService.StatusAllKeys | src/services/exaustor.service.ts:354-368 | asking every module adds one report per module |
| ExaustorService.StatusAllWellFormed | src/services/exaustor.service.ts:356-368 | every report added sits under its module id, and a failed module reports null |
| ExaustorService.AllModulesStatusEffect | src/services/exaustor.service.ts:350-374 | reports on exactly the configured modules, sends each `Status`, and its memory is the table as it stands |
| ExaustorService.ConfigureEffect | src/services/exaustor.service.ts:376-385 | sends the command as given to the host the module names, and nothing when it names none |
| ExaustorMachine.Exaustor.constructor | src/services/exaustor.service.ts:49-52 | a new service holds no unit and no timer, so the timers agree |
| ExaustorMachine.Exaustor.ScheduleOffTimer | src/services/exaustor.service.ts:181-200 | the state's own timer is cancelled and a fresh one armed, as the schedule function says |
| ExaustorMachine.Exaustor.Store | src/services/exaustor.service.ts:202-215 | the new state is `setState` of the old |
| ExaustorMachine.Exaustor.Clear | src/services/exaustor.service.ts:217-228 | the new state is `clearState` of the old |
| ExaustorMachine.Exaustor.TurnOn | src/services/exaustor.service.ts:271-295 | the new state is the turn-on function of the old; with cancelling it keeps the timers in agreement |
| ExaustorMachine.Exaustor.SwitchOn | src/services/exaustor.service.ts:282-294 | after parsing, the new state is the unit turn-on function of the old |
| ExaustorMachine.Exaustor.TurnOff | src/services/exaustor.service.ts:297-328 | the new state is the turn-off function of the old, and timers in agreement stay so |
| ExaustorMachine.Exaustor.SwitchOff | src/services/exaustor.service.ts:305-327 | after parsing, cut, clear and re-arm as the unit turn-off function says |
| ExaustorMachine.Exaustor.RearmColumn | src/services/exaustor.service.ts:316-327 | the `for` loop over the column computes the restore function |
| ExaustorMachine.Exaustor.RearmUnit | src/services/exaustor.service.ts:319-324 | one pass of the loop is one restore step |
| ExaustorMachine.Exaustor.Fire | src/services/exaustor.service.ts:193-199 | a timer firing switches its unit off and keeps timers in agreement |
| ExaustorMachine.Exaustor.Ask | src/services/exaustor.service.ts:83-94 | one command and its answer |
| ExaustorMachine.Exaustor.Status | src/services/exaustor.service.ts:330-348 | the result is the status function of the old state |
| ExaustorMachine.Exaustor.AllModulesStatus | src/services/exaustor.service.ts:350-374 | the result is the all-modules function of the old state |
| ExaustorMachine.Exaustor.AskAll | src/services/exaustor.service.ts:355-368 | the loop sends `Status` to each module in order and collects the reports |
| ExaustorMachine.Exaustor.Configure | src/services/exaustor.service.ts:376-385 | sends the raw command to the module named by name, index or address |
| RelayBus.Device.Send | src/services/exhaust.service.ts:94-105 | sending records exactly that command to that host in the log and returns the module's answer at that point |
| RelayBus.Device.Wait | src/services/exhaust.service.ts:525-529 | a pause is recorded in the log and nothing else changes |
| RelayRequests.ParseMinutes | src/controllers/exhaust.controller.ts:16-31 | absent exactly for undefined, null or `''`; given exactly when `Number` reads a finite positive value, which it carries; invalid otherwise |
| RelayRequests.MinutesOfNumeral | src/controllers/exhaust.controller.ts:20-31 | a decimal numeral n > 0 is taken as n minutes |
| RelayRequests.BlankMinutesInvalid | src/controllers/exhaust.controller.ts:20-31 | a `tempo` of white space reads as 0 and is refused, not treated as absent |
| RelayRequests.MinutesArgument | src/controllers/exhaust.controller.ts:85-98 | the service gets no minutes exactly when none were given, else the given value |
| RelayRequests.LastDigit | src/controllers/exhaust.controller.ts:51 | a found position holds the last digit; none is found only when there is no digit |
| RelayRequests.LastDigitUnique | src/controllers/exhaust.controller.ts:51 | at most one position is the last digit, so the capture is determined |
| RelayRequests.ResolveUnitId | src/controllers/exhaust.controller.ts:33-57 | a truthy `id` wins, trimmed; otherwise block and apartment must both be non-empty and the id is the block followed by the apartment's last digit |
| RelayRequests.ResolvedIdParses | src/controllers/exhaust.controller.ts:37-57 | a block letter and an apartment ending in a final 1-8 give an id the service parses to that tower and final |
| RelayRequests.TurnOnRequest | src/controllers/exhaust.controller.ts:82-95 | 400 with the missing-unit message when no usable id; then 400 for an invalid `tempo`; otherwise the id and the minutes to pass on |
| RelayRequests.TurnOffRequest | src/controllers/exhaust.controller.ts:118-125 | accepted exactly when the id is usable, refused with the missing-unit message otherwise |
| RelayRequests.ConfigureRequest | src/controllers/exhaust.controller.ts:185-193 | accepted exactly when module and command are non-empty once trimmed, and then passes both on |
| RelayRequests.BlankCommandRefused | src/controllers/exhaust.controller.ts:188-193 | a blank command is refused however it is padded |
| RelayRequests.FaultThrown | src/controllers/exhaust.controller.ts:108-110 | the error a handler catches for a fault has the fault's text, and the module's HTTP status for a module's rejection and no status for any other fault |
| RelayRequests.FaultAnswer | src/controllers/exhaust.controller.ts:108-110 | a failure with the route's message and the fault's text; the status is the module's HTTP status when the fault carries one, 500 otherwise |
| RelayRequests.Serialize | src/controllers/exhaust.controller.ts:59-75 | the view keeps id, tower, final, group and expiry of the entry |
| RelayRequests.SerializeInjective | src/controllers/exhaust.controller.ts:59-75 | two entries serialise alike exactly when their ids, units and expiries agree |
| ExhaustController.SerializeState | src/controllers/exhaust.controller.ts:63-75 | no view exactly when no entry; otherwise the entry's view |
| ExhaustController.TurnOnAnswerShowsEntry | src/controllers/exhaust.controller.ts:97-106 | after a successful turn-on the answer's memory is the entry just stored, with the expiry of the requested minutes |
| ExhaustController.TurnOnHandler | src/controllers/exhaust.controller.ts:77-111 | a refused request answers 400 and leaves the service alone; otherwise the service's turn-on runs once and its result or error is answered; a failure answers the route's message with the error's status when the module rejected the request with one, and 500 otherwise |
| ExhaustController.TurnOffHandler | src/controllers/exhaust.controller.ts:113-138 | a refused request answers 400 and leaves the service alone; otherwise the turn-off runs once and its result or error is answered; a failure answers the route's message with the error's status when the module rejected the request with one, and 500 otherwise |
| ExhaustController.StatusTarget | src/controllers/exhaust.controller.ts:147-149 | the path id when it is a non-empty string, else the query id when it is one; none only when neither is |
| ExhaustController.StatusHandler | src/controllers/exhaust.controller.ts:140-163 | with an id, that unit's status, or the 500 failure when the id does not parse; without, every module's status after a refresh |
| ExhaustController.ProcessStatusHandler | src/controllers/exhaust.controller.ts:165-178 | answers 200 with one memory row per stored unit, in table order, and their count, changing nothing |
| ExhaustController.ConfigureHandler | src/controllers/exhaust.controller.ts:180-202 | a refused request answers 400 and sends nothing; otherwise the raw command is sent and its answer or error returned; a failure answers the route's message with the error's status when the module rejected the request with one, and 500 otherwise |
| ExaustorController.SerializeState | src/controllers/exaustor.controller.ts:63-75 | no view exactly when no entry; otherwise the entry without its timer |
| ExaustorController.SerializeDropsOnlyTimer | src/controllers/exaustor.controller.ts:63-75 | two entries serialise alike exactly when they differ at most in their timer handle |
| ExaustorController.TurnOnAnswerShowsEntry | src/controllers/exaustor.controller.ts:97-106 | after a successful turn-on the answer shows the unit just switched on with the expiry of the requested minutes |
| ExaustorController.TurnOnHandler | src/controllers/exaustor.controller.ts:77-111 | a refused request answers 400 and leaves the service alone; otherwise the turn-on runs once and its result or error is answered; a failure answers the route's message with the error's status when the module rejected the request with one, and 500 otherwise |
| ExaustorController.TurnOffHandler | src/controllers/exaustor.controller.ts:113-138 | a refused request answers 400 and leaves the service alone; otherwise the turn-off runs once and its result or error is answered; a failure answers the route's message with the error's status when the module rejected the request with one, and 500 otherwise |
| ExaustorController.StatusHandler | src/controllers/exaustor.controller.ts:140-153 | answers the status of every module, whatever the request says |
| ExaustorController.ConfigureHandler | src/controllers/exaustor.controller.ts:170-192 | a refused request answers 400 and sends nothing; otherwise the raw command is sent and its answer or error returned; a failure answers the route's message with the error's status when the module rejected the request with one, and 500 otherwise |
| Identifiers.JsRemainder | src/controllers/freedom.controller.ts:46 | JavaScript `%` for a positive divisor: a non-negative dividend gives Dafny's remainder, a negative one a remainder in (-b, 0] |
| Identifiers.WeightedSumNonNegative | src/controllers/freedom.controller.ts:42-44 | with positive weights the weighted digit sum is never negative |
| Identifiers.CheckDigitIsDigit | src/controllers/freedom.controller.ts:39-48 | for the CPF weights the check digit is a decimal digit |
| Identifiers.CalcDigit | src/controllers/freedom.controller.ts:39-48 | the accumulating loop computes (Σ digit·weight · 10) mod 11, with 10 written as 0 |
| Identifiers.ValidateCpf | src/controllers/freedom.controller.ts:30-54 | the result is true exactly for 11 digits, not all the same, whose two check digits (weights 10..2 and 11..2) are right |
| Identifiers.CompleteCpf | src/controllers/freedom.controller.ts:50-53 | nine base digits followed by the two check digits they call for make 11 digits starting with the base |
| Identifiers.ValidIffComplete | src/controllers/freedom.controller.ts:30-54 | an 11-digit string that is not one repeated digit is a valid CPF exactly when it is the completion of its first nine digits |
| Identifiers.CompleteIsValid | src/controllers/freedom.controller.ts:30-54 | every completion that is not a repeated digit is valid |
| Identifiers.ZerosPassChecksumOnly | src/controllers/freedom.controller.ts:35-37 | `00000000000` carries the right check digits and only the repeated-digit rule refuses it |
| Identifiers.KeepPlateChars | src/controllers/freedom.controller.ts:56 | only A-Z and 0-9 are kept, and a string of those only is unchanged |
| Identifiers.NormalizePlate | src/controllers/freedom.controller.ts:56 | the normalised plate holds only upper-case letters and digits and is no longer than the input |
| Identifiers.NormalizePlateIdempotent | src/controllers/freedom.controller.ts:56 | normalising a plate twice is normalising it once |
| Identifiers.PlateIsNotNumeric | src/controllers/freedom.controller.ts:58-59 | a plate in either format is never all digits |
| Identifiers.BuildTagCredential | src/controllers/freedom.controller.ts:61-67 | accepted exactly when the input holds 10 digits, giving `Y` and those digits (11 characters); otherwise the 400 tag error |
| Identifiers.AccessIdShape | src/controllers/freedom.controller.ts:69-80 | for up to 8 digits the credential has the form `898` + 8 digits + `787` and its middle part writes the same number |
| Identifiers.BuildAccessIdCredential | src/controllers/freedom.controller.ts:69-80 | accepted exactly for 1 to 8 digits, giving the normalised access id of them; otherwise the 400 short-id error |
| FreedomController.DetectSearchIdType | src/controllers/freedom.controller.ts:135-160 | a detected kind matches the value; a refusal is the 400 invalid-id error |
| FreedomController.DetectPriority | src/controllers/freedom.controller.ts:135-160 | the kind found is the first that matches in the order plate, CPF, tag, normalised access id, short access id; refused exactly when none matches |
| FreedomController.LegacyPlateBeforeShortId | src/controllers/freedom.controller.ts:139-157 | an old-format plate is taken as a plate although its digits alone would make a short access id |
| FreedomController.ElevenDigitsNotCpfRefused | src/controllers/freedom.controller.ts:143-159 | eleven digits failing the CPF check are none of the kinds and are refused |
| FreedomController.ResolveIdForAccess | src/controllers/freedom.controller.ts:162-185 | refused with 400 exactly for a blank id; a credential is a tag or access-id credential, a plate lookup a valid plate, a CPF lookup a valid CPF |
| FreedomController.ResolveCredentialFixed | src/controllers/freedom.controller.ts:162-185 | a resolved credential resolves to itself, so resolving is idempotent |
| FreedomController.CredentialIsCanonical | src/controllers/freedom.controller.ts:162-185 | a credential is unchanged by trimming, upper-casing and plate normalisation |
| FreedomController.TagCredentialResolves | src/controllers/freedom.controller.ts:147-177 | `Y` + 10 digits is read back as a tag and gives itself |
| FreedomController.ListAccessRequest | src/controllers/freedom.controller.ts:427-450 | the device (or `dispositivo`) must be present and a positive finite number; the limit (or `qtd`) is 10 when absent, refused when not positive and finite, else floored and capped at 50 |
| FreedomController.FractionalLimitIsZero | src/controllers/freedom.controller.ts:442-450 | a limit below one passes the positivity check and becomes 0 |
| FreedomController.Names | src/controllers/freedom.controller.ts:488-501 | one body key per field, in order |
| FreedomController.Position | src/controllers/freedom.controller.ts:488-501 | each field has its place in the order of the presence checks |
| FreedomController.FieldsPartitioned | src/controllers/freedom.controller.ts:512-526 | every field is checked either as a number or as a text, never both |
| FreedomController.Destructure | src/controllers/freedom.controller.ts:468-483 | each field of the record is the body value under its key |
| FreedomController.Refusal | src/controllers/freedom.controller.ts:503-538 | accepted exactly when nothing is missing and nothing failed; missing fields are reported first and as found; invalid ones are named once each, exactly the failed ones |
| FreedomController.VerdictMessage | src/controllers/freedom.controller.ts:503-538 | the message is an error exactly when the record is refused |
| FreedomController.CheckNewAccess | src/controllers/freedom.controller.ts:485-539 | the body passes exactly when its record is accepted |
| FreedomController.NoneMissingIff | src/controllers/freedom.controller.ts:485-506 | no field is reported missing exactly when every field is present |
| FreedomController.NewAccessAcceptedIff | src/controllers/freedom.controller.ts:485-539 | accepted exactly when all fields are present, the five numeric ones finite, the nine text ones non-blank strings, `sentido` E/S and `panico`, `classAutorizado` S/N after trimming and upper-casing |
| FreedomController.AcceptedIffNoFailure | src/controllers/freedom.controller.ts:485-539 | accepted exactly when no field is missing and no check fails |
| FreedomController.MissingReportedFirst | src/controllers/freedom.controller.ts:503-506 | a missing field is reported, before any invalid one |
| FreedomController.SentidoNamedOnce | src/controllers/freedom.controller.ts:526-537 | a `sentido` failing both its checks is listed twice but named once |
| FreedomController.SingleInvalidMessage | src/controllers/freedom.controller.ts:536-537 | the message naming a single invalid field |
| QueryController.Project | src/controllers/query.controller.ts:52-103 | each output key carries the value of its named column in the first row, in the listed order |
| QueryController.BuildVehiclePayload | src/controllers/query.controller.ts:40-143 | no rows or a falsy first row give no vehicle, unit, owner or accesses; otherwise the vehicle, unit and owner come from the first row and the accesses are those of the first row carrying each access sequence |
| QueryController.AccessesOnePerKey | src/controllers/query.controller.ts:116-142 | the accesses hold one entry per access sequence found in the rows, taken from the first row that carries it |
| QueryController.CpfQuery | src/controllers/query.controller.ts:152-164 | a parameter without digits is "required", an invalid CPF is "invalid", and the query goes on exactly with the 11 digits of a valid CPF |
| QueryController.PlateQuery | src/controllers/query.controller.ts:249-261 | a parameter without letters or digits is "required", and the query goes on exactly when seven letters or digits remain after upper-casing |
| QueryController.DigitsPassPlateQuery | src/controllers/query.controller.ts:250-261 | seven digits pass the plate query though they are in neither plate format |
| QueryController.TagQuery | src/controllers/query.controller.ts:283-295 | a parameter without digits is "required", and the query goes on exactly with ten digits |
| QueryController.CpfLinks | src/controllers/query.controller.ts:198-229 | no person found gives no links, and there are never more links than rows |
| QueryController.CpfLinksExact | src/controllers/query.controller.ts:198-229 | with a person found, every link comes from a row with both sequences set and every such row gives a link |
| QueryController.AnswerCpf | src/controllers/query.controller.ts:166-236 | the CPF exists exactly when the first row is truthy, which is when a person is reported, and a missing person has no links |
| QueryController.AnswerVehicle | src/controllers/query.controller.ts:263-304 | the vehicle exists exactly when the first row is truthy, and the accesses are then those of the payload and none otherwise |
| VehicleV2Controller.NormalizedPlatePattern | src/controllers/vehicle-v2.controller.ts:12-17 | a normalised plate matches the seven-character pattern exactly when it has seven characters |
| VehicleV2Controller.CredentialOf | src/controllers/vehicle-v2.controller.ts:40-55 | a missing person number is the 404 "not found" error, a number that is not finite and positive the 400 error, and a credential starts with 898 and ends with 787 |
| VehicleV2Controller.CredentialOfNumber | src/controllers/vehicle-v2.controller.ts:48-54 | a person number of up to eight digits gives a normalised access id whose middle eight digits write that number |
| VehicleV2Controller.FlagOfText | src/controllers/vehicle-v2.controller.ts:67-69 | a text column says yes exactly when, trimmed, it is `S` or `s` |
| VehicleV2Controller.FlagOfNullish | src/controllers/vehicle-v2.controller.ts:67-69 | a null or missing column never says yes |
| VehicleV2Controller.PermissionOfRow | src/controllers/vehicle-v2.controller.ts:64-72 | permission means PERMITIDO says yes and one of PROP, LOC and MOR says yes; no row gives no permission |
| VehicleV2Controller.UserOf | src/controllers/vehicle-v2.controller.ts:170 | the user is never empty and is already trimmed |
| VehicleV2Controller.LinkInputOf | src/controllers/vehicle-v2.controller.ts:164-190 | accepted inputs have a positive vehicle number and device, a valid CPF, a ten-digit tag and a trimmed non-empty user |
| VehicleV2Controller.LinkInputOrder | src/controllers/vehicle-v2.controller.ts:172-190 | each refusal is the first failing check, in the order vehicle number, CPF, tag, device |
| VehicleV2Controller.Authorise | src/controllers/vehicle-v2.controller.ts:193-206 | an authorised owner number is positive, and every refusal is a 400, 403 or 404 failure |
| VehicleV2Controller.LinkAnswer | src/controllers/vehicle-v2.controller.ts:208-236 | the answer succeeds exactly for a linked or swapped tag and then reports the vehicle and tag; an outcome that is not a link is a 409, with the blocking message exactly for a blocked tag; a thrown error keeps its status, 500 when it has none |
| VehicleV2Controller.LinkRouteWritesOnlyOnSuccess | src/controllers/vehicle-v2.controller.ts:164-238 | the tables change only when the answer is a success |
| VehicleV2Controller.LinkRouteAnswer | src/controllers/vehicle-v2.controller.ts:208-233 | once input and authorisation pass: 404 exactly for an unknown vehicle, 409 "blocked" exactly for a tag held elsewhere, 409 "confirm" exactly when a swap needs confirmation, success exactly for a link, marked swapped exactly for a swap |
| VehicleV2Controller.AnswerCases | src/controllers/vehicle-v2.controller.ts:216-236 | the same correspondence between outcome and answer, for each outcome of the repository |
| VehicleV2Controller.LinkRouteInstallsTag | src/controllers/vehicle-v2.controller.ts:164-238 | after a successful answer the vehicle carries the tag and its newest access row is the row written for the authorised owner |
| VehicleV2Controller.LinkHandler | src/controllers/vehicle-v2.controller.ts:164-238 | the answer and the tables afterwards are those of the link route on the tables before |
| VehicleV2Controller.OptionalText | src/controllers/vehicle-v2.controller.ts:124-126 | a present text is non-empty and trimmed, and a null or missing value gives none |
| VehicleV2Controller.OptionalTextOfString | src/controllers/vehicle-v2.controller.ts:124-126 | a blank text gives none and any other its trimmed self |
| VehicleV2Controller.UpsertInputOf | src/controllers/vehicle-v2.controller.ts:122-146 | accepted inputs have a plate of seven capitals or digits, a positive owner and, when a unit is given, a positive unit |
| VehicleV2Controller.UpsertInputOrder | src/controllers/vehicle-v2.controller.ts:133-146 | each refusal is the first failing check, in the order plate, owner, unit |
| VehicleV2Controller.UpsertRouteSaved | src/controllers/vehicle-v2.controller.ts:148-157 | a saved vehicle has the checked plate and is reported created exactly when no row had the plate and the insert went in |
| VehicleV2Controller.UpsertHandler | src/controllers/vehicle-v2.controller.ts:122-162 | the answer and the tables afterwards are those of the upsert route on the tables before |
| VehicleV2Controller.OwnerVehiclesRoute | src/controllers/vehicle-v2.controller.ts:74-88 | refused exactly when the owner number is not finite and positive; otherwise the vehicles listed are exactly those of that owner |
| VehicleV2Controller.PlateDetailsRoute | src/controllers/vehicle-v2.controller.ts:90-120 | refused exactly when the normalised plate is not seven characters; otherwise the vehicle is reported exactly when it is found |
| VehicleV2Controller.PlateDetailsFound | src/controllers/vehicle-v2.controller.ts:99-108 | a vehicle is reported exactly when one has the plate, and the one reported has it |
| VehicleV2Controller.PlateDetailsNewest | src/controllers/vehicle-v2.controller.ts:110-115 | the access row reported is the vehicle's row with the highest number, present whenever the vehicle has any |
| VehicleV2Repository.AsRows | src/repositories/vehicle-v2.repository.ts:43-53 | an array is its own rows, any other truthy value is a single row, and a falsy value gives none |
| VehicleV2Repository.FirstRowCases | src/repositories/vehicle-v2.repository.ts:55-58 | the first row is never `undefined`: a single row is its own first row, a missing result gives `null`, and an array gives its first element |
| VehicleV2Repository.UniqueViolationAnyCase | src/repositories/vehicle-v2.repository.ts:60-63 | a message holding "violation of primary", "unique key" or "duplicate" in any case and at any place is a unique violation |
| VehicleV2Repository.Newest | src/repositories/vehicle-v2.repository.ts:279-297 | the row listed first by number descending: none exactly for no rows, otherwise one of the rows with the highest number |
| VehicleV2Repository.NewestIs | src/repositories/vehicle-v2.repository.ts:279-297 | among rows with distinct numbers, the row with the highest number is the one listed first |
| VehicleV2Repository.CurrentTag | src/repositories/vehicle-v2.repository.ts:297-303 | the current tag is trimmed and is the first non-empty of the newest access row's ID2, its ID, and the vehicle's tag |
| VehicleV2Repository.ReplaceAccess | src/repositories/vehicle-v2.repository.ts:315-328 | the rewrite changes the row with the given number into the new row and leaves every other row as it was |
| VehicleV2Repository.SetTag | src/repositories/vehicle-v2.repository.ts:336-340 | the vehicle with the number gets the tag and every other vehicle is unchanged |
| VehicleV2Repository.LinkWritesOnlyWhenLinked | src/repositories/vehicle-v2.repository.ts:212-348 | the tables change only when the tag is linked or swapped |
| VehicleV2Repository.LinkDecision | src/repositories/vehicle-v2.repository.ts:229-346 | an unknown vehicle is the 404 error; the link is blocked exactly when another vehicle or another vehicle's access row carries the tag; otherwise confirmation is asked, with the current tag, exactly when a different current tag exists without forced swap, and a swap is reported exactly when one is forced |
| VehicleV2Repository.NewestAfterReplace | src/repositories/vehicle-v2.repository.ts:315-328 | rewriting a vehicle's newest access row in place leaves the rewritten row its newest |
| VehicleV2Repository.NewestAfterInsert | src/repositories/vehicle-v2.repository.ts:329-334 | a vehicle without access rows has the inserted row as its newest |
| VehicleV2Repository.LinkInstallsTag | src/repositories/vehicle-v2.repository.ts:315-346 | after a link the vehicle carries the tag and its newest access row is the row the link wrote |
| VehicleV2Repository.InstallWritesTag | src/repositories/vehicle-v2.repository.ts:305-346 | the same once no conflict was found |
| VehicleV2Repository.LinkedRowGivesTag | src/repositories/vehicle-v2.repository.ts:297-303 | the row a link writes makes its trimmed non-empty tag the vehicle's current tag |
| VehicleV2Repository.LinkSetsCurrentTag | src/repositories/vehicle-v2.repository.ts:297-346 | after a link that succeeds with a trimmed non-empty tag, the tag read back for the vehicle is the tag linked |
| VehicleV2Repository.LinkWriteKeepsValid | src/repositories/vehicle-v2.repository.ts:315-334 | the write keeps the access numbers distinct and below the generator's next value |
| VehicleV2Repository.LinkKeepsValid | src/repositories/vehicle-v2.repository.ts:212-348 | a link keeps the access numbers distinct and below the generator's next value |
| VehicleV2Repository.AmendPlate | src/repositories/vehicle-v2.repository.ts:150-163 | every vehicle with the plate gets the input's fields and every other vehicle is unchanged |
| VehicleV2Repository.AmendPlateFirst | src/repositories/vehicle-v2.repository.ts:161-166 | after the update the first vehicle with the plate is the first one before, amended |
| VehicleV2Repository.UpsertOutcome | src/repositories/vehicle-v2.repository.ts:125-210 | an existing plate is amended and reported not created; a new plate is inserted under the next number and reported created; a refused insert is rethrown unless it is a unique violation, in which case the committed row with the plate is amended, or the "missing after conflict" error is thrown |
| VehicleV2Repository.ClearVehicle | src/repositories/vehicle-v2.repository.ts:380-385 | the vehicle with the number loses its tag, and its owner when unlinking, and every other vehicle is unchanged |
| VehicleV2Repository.DetachClears | src/repositories/vehicle-v2.repository.ts:350-443 | after removal the vehicle has no access row, its row is cleared in place, and the result says whether it had an access row or a tag |
| VehicleV2Repository.NoneLeft | src/repositories/vehicle-v2.repository.ts:370-379 | once a vehicle's rows are removed none is left |
| VehicleV2Repository.NumberedAfterClear | src/repositories/vehicle-v2.repository.ts:380-385 | clearing keeps the vehicle's row first among those with its number, cleared |
| VehicleV2Repository.WithoutVehicleTwice | src/repositories/vehicle-v2.repository.ts:370-379 | removing a vehicle's rows twice is removing them once |
| VehicleV2Repository.ClearVehicleTwice | src/repositories/vehicle-v2.repository.ts:380-385 | clearing a vehicle twice is clearing it once |
| VehicleV2Repository.DetachTwice | src/repositories/vehicle-v2.repository.ts:350-443 | a second removal finds no tag and leaves the tables as the first left them |
| VehicleV2Repository.DetachKeepsValid | src/repositories/vehicle-v2.repository.ts:350-443 | removal keeps the access numbers distinct and below the generator's next value |
| VehicleV2Repository.DeletedIdsAreVehicleRows | src/repositories/vehicle-v2.repository.ts:376-379 | with distinct numbers, deleting the numbers of a vehicle's rows deletes exactly that vehicle's rows |
| VehicleV2Repository.VehicleDb.LinkVehicleTag | src/repositories/vehicle-v2.repository.ts:212-348 | the outcome and the tables afterwards are those of the link on the tables before |
| VehicleV2Repository.VehicleDb.InstallTag | src/repositories/vehicle-v2.repository.ts:297-346 | the outcome and the tables afterwards are those of the install step on the tables before |
| VehicleV2Repository.VehicleDb.UpsertVehicleByPlate | src/repositories/vehicle-v2.repository.ts:125-210 | the outcome and the tables afterwards are those of the upsert on the tables before |
| VehicleV2Repository.VehicleDb.UpdateThenReread | src/repositories/vehicle-v2.repository.ts:161-173 | the outcome and the tables afterwards are those of the update and re-read, undone when the re-read finds nothing |
| VehicleV2Repository.VehicleDb.DetachVehicle | src/repositories/vehicle-v2.repository.ts:350-443 | the outcome and the tables afterwards are those of the removal on the tables before |
| VehicleV2Repository.VehicleDb.DeleteRows | src/repositories/vehicle-v2.repository.ts:376-379 | the loop deletes exactly the vehicle's access rows and changes nothing else |
| VehicleRepository.SetUsage | src/repositories/vehicle.repository.ts:93-106 | every row of the vehicle gets the new usage and every other row is unchanged |
| VehicleRepository.LastUsageWins | src/repositories/vehicle.repository.ts:93-106 | of two usage writes to one vehicle, the last one wins |
| VehicleRepository.LockBlocksVehicle | src/repositories/vehicle.repository.ts:93-96 | after locking, every row of the vehicle is blocked and every other row is as it was |
| VehicleRepository.Inactive | src/repositories/vehicle.repository.ts:141-144 | a row is inactive exactly when it is an access row whose number is not among those seen with a tag lately |
| VehicleRepository.InactiveInOrder | src/repositories/vehicle.repository.ts:141-144 | the selection keeps table order |
| VehicleRepository.PersonsOf | src/repositories/vehicle.repository.ts:146-147 | one person number per inactive row, at the same place |
| VehicleRepository.Items | src/repositories/vehicle.repository.ts:162-171 | one item per inactive row, at the same place |
| VehicleRepository.NewTag | src/repositories/vehicle.repository.ts:175 | the tag written always ends in `B` |
| VehicleRepository.NewTagOfTrimmed | src/repositories/vehicle.repository.ts:175 | a tag without surrounding blanks gets `B` appended as it is |
| VehicleRepository.NullTagBecomesB | src/repositories/vehicle.repository.ts:175 | a row without tag is locked as `B` |
| VehicleRepository.UpdateId2 | src/repositories/vehicle.repository.ts:177-182 | the row with the number gets the new ID2 and every other row is unchanged |
| VehicleRepository.ApplyUpdates | src/repositories/vehicle.repository.ts:174-183 | the updates keep the table's size and each row's number |
| VehicleRepository.ApplyUpdatesAt | src/repositories/vehicle.repository.ts:174-183 | with distinct item numbers, a row ends with the tag of the item bearing its number, and is untouched when there is none |
| VehicleRepository.LockListEmpty | src/repositories/vehicle.repository.ts:146-151 | the list is empty, and nothing is written, exactly when every access row was seen lately |
| VehicleRepository.LockListItems | src/repositories/vehicle.repository.ts:162-171 | each item is the inactive row at the same place, with its tag and person, named after the first person row with that number, or the placeholder |
| VehicleRepository.LockMarksInactive | src/repositories/vehicle.repository.ts:113-186 | on a table with distinct numbers, exactly the rows not seen lately get their tag trimmed with `B` appended, and every other row is unchanged |
| VehicleRepository.RecentNotListed | src/repositories/vehicle.repository.ts:141-171 | a number seen lately belongs to no item |
| VehicleRepository.InactiveListed | src/repositories/vehicle.repository.ts:141-171 | a row not seen lately is found among the items, carrying its own tag |
| VehicleRepository.AccessTable.SetLockVehicle | src/repositories/vehicle.repository.ts:93-96 | the table afterwards is the old one with every row of the vehicle blocked |
| VehicleRepository.AccessTable.SetUnlockVehicle | src/repositories/vehicle.repository.ts:103-106 | the table afterwards is the old one with every row of the vehicle unblocked |
| VehicleRepository.AccessTable.LockInactive | src/repositories/vehicle.repository.ts:113-186 | the list returned is the sweep's list on the old table, and the table afterwards has the list's updates applied |
| VehicleRepository.AccessTable.WriteTags | src/repositories/vehicle.repository.ts:174-183 | the table afterwards has the items' updates applied in order |
| FreedomVehicleRepository.LockInactive | src/repositories/freedomVehicleRepository.ts:80-157 | the same sweep, writing the tag with the freedom copy's rule |
| FreedomVehicleRepository.NullTagBecomesNullB | src/repositories/freedomVehicleRepository.ts:144 | a row without tag is locked as `nullB` |
| FreedomVehicleRepository.CopiesDifferOnlyOnNull | src/repositories/freedomVehicleRepository.ts:144 | the two copies write the same tag exactly for rows that have one |
| FreedomVehicleRepository.SweepWritesNullB | src/repositories/freedomVehicleRepository.ts:110-153 | the freedom sweep turns an untagged row not seen lately into `nullB` |
| PushSubscriptionRepository.SanitizeUserForFile | src/repositories/push-subscription.repository.ts:49 | the file name is as long as the trimmed user, uses only `[a-z0-9._-]`, and keeps each lower-cased character that is allowed |
| PushSubscriptionRepository.SanitizeIdempotent | src/repositories/push-subscription.repository.ts:49 | a sanitised name is its own sanitised name |
| PushSubscriptionRepository.TextOrEmpty | src/repositories/push-subscription.repository.ts:62-67 | the text read is trimmed |
| PushSubscriptionRepository.FiniteInt | src/repositories/push-subscription.repository.ts:70-79 | a number is read exactly when the value is a finite number |
| PushSubscriptionRepository.NonBlankText | src/repositories/push-subscription.repository.ts:81-82 | a detail read is non-empty and trimmed, and none is read exactly when the value is not a string or is blank |
| PushSubscriptionRepository.NormalizeItem | src/repositories/push-subscription.repository.ts:59-93 | an item survives exactly when it has an endpoint and both keys; it is then well formed, its creation time defaults to now and its update time to its creation time |
| PushSubscriptionRepository.NormalizeAll | src/repositories/push-subscription.repository.ts:104-110 | every item kept is well formed |
| PushSubscriptionRepository.ByEndpointEntries | src/repositories/push-subscription.repository.ts:105-110 | each endpoint maps to the last item with that endpoint |
| PushSubscriptionRepository.LastWith | src/repositories/push-subscription.repository.ts:105-110 | the last item with an endpoint is one of the items with it, and there is none exactly when no item has it |
| PushSubscriptionRepository.DeduplicatedItems | src/repositories/push-subscription.repository.ts:105-115 | no endpoint is kept twice, each kept item is the last one with its endpoint, every endpoint present is kept, and the kept items come in the order their endpoints first appear |
| PushSubscriptionRepository.KeysInFirstOrder | src/repositories/push-subscription.repository.ts:105-109 | a `Map` keeps the place of a key set again, so its keys follow the first appearance of each endpoint |
| PushSubscriptionRepository.DeduplicatedDistinct | src/repositories/push-subscription.repository.ts:105-115 | items with distinct endpoints are kept as they are, in order |
| PushSubscriptionRepository.StoredData | src/repositories/push-subscription.repository.ts:95-117 | the data belong to the user, and a value that is not an object gives no items and update time 0 |
| PushSubscriptionRepository.NormalizeStoredData | src/repositories/push-subscription.repository.ts:95-117 | a non-object reads as no items; otherwise the time stamp and the deduplicated items, as the normalised data states them |
| PushSubscriptionRepository.DedupItems | src/repositories/push-subscription.repository.ts:104-115 | the loop filling the map keeps the last item per endpoint in first-appearance order, as `Deduplicated` states |
| PushSubscriptionRepository.ItemRoundTrip | src/repositories/push-subscription.repository.ts:59-93 | a normalised item survives a write and a read unchanged |
| PushSubscriptionRepository.ItemsRoundTrip | src/repositories/push-subscription.repository.ts:104-110 | a list of normalised items survives a write and a read unchanged |
| PushSubscriptionRepository.ReadAfterWrite | src/repositories/push-subscription.repository.ts:95-139 | reading back well-formed data that was written gives the same data |
| PushSubscriptionRepository.StoredDataWellFormed | src/repositories/push-subscription.repository.ts:95-117 | normalised data have well-formed items, one per endpoint |
| PushSubscriptionRepository.UpsertedItems | src/repositories/push-subscription.repository.ts:149-174 | after an upsert exactly one item has the endpoint, the last; the others are the earlier items without it, in order; the creation time is kept from the item replaced and the update times are now |
| PushSubscriptionRepository.UpsertedDetails | src/repositories/push-subscription.repository.ts:161-164 | the agent and platform are the trimmed values given, else the stored ones, else none |
| PushSubscriptionRepository.UpsertedWellFormed | src/repositories/push-subscription.repository.ts:141-178 | upserting a trimmed subscription keeps the data well formed |
| PushSubscriptionRepository.RemovedItems | src/repositories/push-subscription.repository.ts:180-200 | something is removed exactly when an item had the endpoint; no item with it is left, every other item stays, and with nothing removed the data are unchanged |
| PushSubscriptionRepository.ReadData | src/repositories/push-subscription.repository.ts:119-133 | the data read belong to the user and are well formed, and a missing file reads as no subscriptions |
| PushSubscriptionRepository.PushStore.ReadFileData | src/repositories/push-subscription.repository.ts:119-133 | the read gives the data of the stored file |
| PushSubscriptionRepository.PushStore.UpsertPushSubscription | src/repositories/push-subscription.repository.ts:141-178 | a read error is passed on and writes nothing; otherwise the upserted data are returned and written to the user's file |
| PushSubscriptionRepository.PushStore.RemovePushSubscriptionByEndpoint | src/repositories/push-subscription.repository.ts:180-200 | a read error is passed on; otherwise the data without the endpoint are returned, and written only when something was removed |
| PushSubscriptionRepository.UpsertThenRead | src/repositories/push-subscription.repository.ts:141-178 | after an upsert of a trimmed subscription the next read finds the data the upsert returned |
| PushService.CounterOf | src/services/push.service.ts:53-58 | a missing or falsy counter reads as 0, and a truthy number as itself |
| PushService.ToNotificationPayload | src/services/push.service.ts:51-79 | the source defaults to the panel's name and the time to now; the body announces an alarm exactly when the alarm count is positive; the title, tag, flags and link are fixed |
| PushService.EventWithoutCounters | src/services/push.service.ts:51-79 | an event without counters reports every counter as 0 and announces no alarm |
| PushService.Tally | src/services/push.service.ts:92-129 | every subscription is counted once, as sent or as failed |
| PushService.TallyCounts | src/services/push.service.ts:107-121 | `sent` counts exactly the subscriptions delivered, and nothing is reported removed unless some delivery failed with 404 or 410 |
| PushService.Dispatch | src/services/push.service.ts:107-121 | sending to each subscription in turn and counting sent, failed and removed yields exactly the dispatch summary of the whole list |
| PushService.AllDelivered | src/services/push.service.ts:107-128 | when every delivery succeeds nothing failed and nothing was removed |
| PushService.PushSender.constructor | src/services/push.service.ts:27-31 | the VAPID details are the trimmed variables and the sender starts unconfigured |
| PushService.PushSender.EnsureConfigured | src/services/push.service.ts:33-42 | once configured it does nothing; otherwise it fails exactly while a VAPID detail is blank, and else becomes configured |
| PushService.PushSender.PublicKey | src/services/push.service.ts:44-49 | the public key is returned exactly when it is set, else the "not configured" error |
| PushService.PushSender.SendFireAlarmPushToAll | src/services/push.service.ts:92-129 | it fails exactly when the sender is not configured and cannot be; otherwise the summary is the tally of the notification over the subscriptions |
| PushController.NormalizeUser | src/controllers/push.controller.ts:16 | the user has no lower-case letter, is empty exactly when the value is blank, and is as long as the trimmed text |
| PushController.NormalizeUserIdempotent | src/controllers/push.controller.ts:16 | a normalised user normalises to itself |
| PushController.TrimmedText | src/controllers/push.controller.ts:27-32 | the text is trimmed, and non-empty exactly when the value is a non-blank string |
| PushController.ParseSubscription | src/controllers/push.controller.ts:24-45 | a subscription is read exactly from an object with a non-blank endpoint and non-blank keys, all three trimmed; the expiration time is kept, truncated, only when it is a finite number |
| PushController.MetaOf | src/controllers/push.controller.ts:76-79 | the user agent is the body's `meta.ua` when it is a string, else the `user-agent` header when that is one, else null; the platform is the body's `meta.platform` when it is a string, else `web` |
| PushController.PublicKeyRoute | src/controllers/push.controller.ts:54-61 | the public key is answered when it is set, and otherwise a 500 failure |
| PushController.SubscribeRouteRefusals | src/controllers/push.controller.ts:63-92 | a request without user is refused with 400, then one without a valid subscription, both writing nothing; a valid one is stored |
| PushController.SaveThenRead | src/controllers/push.controller.ts:81-87 | storing answers with the user's subscription count, and the next read finds the subscription once and last |
| PushController.UnsubscribeRouteRefusals | src/controllers/push.controller.ts:94-106 | a request without user, then one without a non-blank endpoint, is refused with 400 and writes nothing; otherwise the trimmed endpoint is dropped |
| PushController.DropThenRead | src/controllers/push.controller.ts:107-118 | the answer succeeds exactly when the file can be read; the file is rewritten only when a subscription was removed; afterwards no subscription with the endpoint is left |
| PushController.CooldownSetting | src/controllers/push.controller.ts:13 | a set variable is read as a number; an unset or empty one gives the one-minute default |
| PushController.ParseCooldown | src/controllers/push.controller.ts:47-52 | anything but a finite non-negative number gives the one-minute default, and otherwise its truncation |
| PushController.EventOf | src/controllers/push.controller.ts:138-148 | an object body supplies the source, the trigger time and the counters when each has the right type, and the default source, the current time or no counters otherwise; a body that is not an object gives the default source and the current time |
| PushController.SentTimesSpaced | src/controllers/push.controller.ts:121-152 | with a clock reading positive times, two dispatches are always at least the cooldown apart, and the first at least the cooldown after an earlier one |
| PushController.FireAlarmGate.constructor | src/controllers/push.controller.ts:13-14 | the gate starts with the configured cooldown and no dispatch yet |
| PushController.FireAlarmGate.FireAlarmEvent | src/controllers/push.controller.ts:121-163 | inside the cooldown the event is skipped with the times reported and nothing changes; otherwise it is dispatched and only a successful dispatch moves the last-sent time to now; an unconfigured sender gives a 500 |
| PushController.Subscribe | src/controllers/push.controller.ts:63-92 | the reply and the directory afterwards are those of the subscribe route |
| PushController.Unsubscribe | src/controllers/push.controller.ts:94-119 | the reply and the directory afterwards are those of the unsubscribe route |
| PushController.SaveSubscription | src/controllers/push.controller.ts:81-91 | the reply and the directory afterwards are those of the storing step |
| PushController.DropSubscription | src/controllers/push.controller.ts:107-118 | the reply and the directory afterwards are those of the removal step |
| UserSettingsRepository.StringEntries | src/repositories/user-settings.repository.ts:41-49 | exactly the string-valued entries are kept, with their strings |
| UserSettingsRepository.KeepStrings | src/repositories/user-settings.repository.ts:43-49 | the loop over the entries keeps exactly the string-valued ones |
| UserSettingsRepository.PositiveTrunc | src/repositories/user-settings.repository.ts:36-39 | a positive finite number gives its truncation, anything else the fallback |
| UserSettingsRepository.StoredSettings | src/repositories/user-settings.repository.ts:33-56 | settings are read exactly from an object; they belong to the user, have a non-negative update time, and hold the string items (none when `items` is not an object) |
| UserSettingsRepository.NormalizeStoredData | src/repositories/user-settings.repository.ts:33-56 | the normalisation gives the stored settings |
| UserSettingsRepository.ReadSettings | src/repositories/user-settings.repository.ts:58-70 | no file reads as no settings, an error occurs exactly for unreadable JSON, and settings read belong to the user |
| UserSettingsRepository.Payload | src/repositories/user-settings.repository.ts:79-83 | the payload keeps the user and the items, and its update time is the given one truncated when positive and finite, else now |
| UserSettingsRepository.ReadAfterWrite | src/repositories/user-settings.repository.ts:58-87 | what is written is read back, when the update time is not negative |
| UserSettingsRepository.SettingsStore.ReadUserSettings | src/repositories/user-settings.repository.ts:58-70 | the read gives the settings of the stored file |
| UserSettingsRepository.SettingsStore.WriteUserSettings | src/repositories/user-settings.repository.ts:72-87 | the payload is returned and replaces the user's file |
| UserSettingsController.GetRoute | src/controllers/user-settings.controller.ts:11-38 | a blank user is refused with 400; a user without a file gets empty settings; a success carries the normalised user and a non-negative update time; any other failure is the 500 load error |
| UserSettingsController.StoredUpdatedAt | src/controllers/user-settings.controller.ts:62-68 | the update time stored is the body's when it is a finite number of at least 1, truncated, and the current time otherwise |
| UserSettingsController.UpsertThenGet | src/controllers/user-settings.controller.ts:40-77 | a failure is a 400 that writes nothing, in particular when `items` is not an object; a success stores the string items and a later read of the user gives exactly the answer |
| UserSettingsController.GetSettings | src/controllers/user-settings.controller.ts:11-38 | the answer is that of the read route on the directory |
| UserSettingsController.UpsertSettings | src/controllers/user-settings.controller.ts:40-77 | the answer and the directory afterwards are those of the write route |
| CommandLogService.SafeParseEntry | src/services/command-log.service.ts:40-49 | a line is accepted exactly when it is JSON for an object whose timestamp and command are strings, and is then kept as parsed |
| CommandLogService.EntryRoundTrip | src/services/command-log.service.ts:40-57 | every entry written is read back as written, under its timestamp |
| CommandLogService.RetentionDays | src/services/command-log.service.ts:17 | an unset retention reads as 7 days |
| CommandLogService.KeepOf | src/services/command-log.service.ts:34 | the number kept is `NaN` exactly for a `NaN` retention, is otherwise at least 1, and equals a retention of at least 1 |
| CommandLogService.SliceStart | src/services/command-log.service.ts:35 | `slice` starts at 0 for `NaN` or minus infinity, past the end for plus infinity, and at the truncated start (at most the length) for a non-negative number |
| CommandLogService.KeepCountPositive | src/services/command-log.service.ts:34-35 | unless the retention is `NaN`, at least one log file survives a prune |
| CommandLogService.Pruned | src/services/command-log.service.ts:27-38 | a prune only deletes, and never deletes a file that is not a day log |
| CommandLogService.CutOfDistinct | src/services/command-log.service.ts:35 | in a list of distinct names, a name falls after the cut exactly when its position is at or past it |
| CommandLogService.DoomedByRank | src/services/command-log.service.ts:27-38 | a log file is deleted exactly when at least the kept number of log files are newer than it |
| CommandLogService.KeptPrefix | src/services/command-log.service.ts:29-37 | the log files kept are the first ones of the newest-first order, as many as the kept number |
| CommandLogService.PruneKeepsNewest | src/services/command-log.service.ts:27-38 | a prune keeps exactly the kept number of log files, each newer than every file it deletes |
| CommandLogService.EffectiveRetention | src/services/command-log.service.ts:17 | the corrected retention is never `NaN` and is the setting whenever that reads as a number |
| CommandLogService.NaNRetentionDeletesAll | src/services/command-log.service.ts:17-37 | as written, a retention that does not read as a number makes every prune delete every log file |
| CommandLogService.EffectiveRetentionKeepsNewest | src/services/command-log.service.ts:27-38 | with the retention applied, the newest log file is never deleted |
| CommandLogService.NewestFirst | src/services/command-log.service.ts:78-83 | the entries of a file, last line first, are all entries and no more than its lines |
| CommandLogService.NewestFirstOfAppend | src/services/command-log.service.ts:57 | a line appended to a file is the first entry read from it |
| CommandLogService.NewestFirstPrefix | src/services/command-log.service.ts:80-87 | reading a file from a later line gives a prefix of reading it whole |
| CommandLogService.Scan | src/services/command-log.service.ts:75-88 | everything collected across the files is an entry |
| CommandLogService.ScanPrefix | src/services/command-log.service.ts:75-88 | scanning fewer files gives a prefix of the whole scan |
| CommandLogService.ListingShape | src/services/command-log.service.ts:63-91 | the listing holds at most the cap, only entries, sorted by timestamp newest first, and is a reordering of the first entries read, as many as the cap |
| CommandLogService.CappedLimit | src/services/command-log.service.ts:67 | the cap is between 1 and 200; `NaN` and 0 give 20, and a number of at least 1 its truncation up to 200 |
| CommandLogService.Appended | src/services/command-log.service.ts:51-61 | an entry whose timestamp is not a date changes nothing; otherwise it is added as the last line of its day's file |
| CommandLogService.GreatestFirst | src/services/command-log.service.ts:32 | the greatest name comes first in the newest-first order |
| CommandLogService.GreatestSurvives | src/services/command-log.service.ts:27-38 | unless the retention is `NaN`, a prune keeps the newest log file |
| CommandLogService.NewestEntryListed | src/services/command-log.service.ts:63-91 | the newest entry of the newest log file is always listed |
| CommandLogService.AppendedIsNewest | src/services/command-log.service.ts:55-57 | appending to a day's file that sorts after every log file makes it the newest log file |
| CommandLogService.AppendThenList | src/services/command-log.service.ts:51-91 | a command logged on the newest day shows up in the next listing, whatever the cap, when the retention reads as a number |
| CommandLogService.LogFileNames | src/services/command-log.service.ts:29-31 | the names listed are the day log names of the directory, each once |
| CommandLogService.Collect | src/services/command-log.service.ts:73-88 | the loops collect the first entries of the scan, as many as the cap, or all of them |
| CommandLogService.StopsAtCap | src/services/command-log.service.ts:84-86 | stopping at the cap has collected exactly the first entries of the whole scan |
| CommandLogService.SortNames | src/services/command-log.service.ts:32 | the names sorted newest first are the ranked order of the names |
| CommandLogService.CommandLog.constructor | src/services/command-log.service.ts:15-17 | the log keeps the retention as `Number(setting \|\| 7)` reads it, `NaN` included, over the given directory |
| CommandLogService.CommandLog.PruneOldFiles | src/services/command-log.service.ts:27-38 | a directory error is raised and deletes nothing; otherwise the directory afterwards is the pruned one |
| CommandLogService.CommandLog.AppendCommandLog | src/services/command-log.service.ts:51-61 | without a directory error the entry is appended after a prune, and with one nothing changes and nothing is raised |
| CommandLogService.CommandLog.ListCommandLogs | src/services/command-log.service.ts:63-91 | a directory error is returned and changes nothing; otherwise the directory is pruned and the listing for the cap is returned |
| CommandLogController.ParseLimit | src/controllers/command-log.controller.ts:4-10 | the limit is at most 200, is 20 unless the value reads as a positive finite number, and otherwise is its truncation or 200 |
| CommandLogController.ServiceCap | src/controllers/command-log.controller.ts:4-15 | the service applies the route's limit as its cap, except that a value between 0 and 1 reads as 0 in the route and then as 20 in the service |
| CommandLogController.ListCommandLogsControl | src/controllers/command-log.controller.ts:12-25 | a directory error is the 500 failure; otherwise the answer lists the logs for the parsed limit, with their number as total |
| RequestContext.Header | src/middleware/request-context.ts:5-7 | a header present reads as its value and a missing one as `undefined` |
| RequestContext.ResolveActor | src/middleware/request-context.ts:4-20 | the actor is the chosen header trimmed when not blank, else the chosen body value trimmed when a non-blank string, else "desconhecido" |
| RequestContext.ActorIsTrimmed | src/middleware/request-context.ts:4-20 | the actor is never empty and never has surrounding blanks |
| RequestContext.UserHeaderWins | src/middleware/request-context.ts:5-10 | a non-blank `x-user` decides the actor whatever the rest says |
| RequestContext.BlankUserHeaderShadows | src/middleware/request-context.ts:5-19 | a blank but non-empty `x-user` hides `x-operator`: the actor then comes from the body, or is unknown |
| RequestContext.RequestIdOf | src/middleware/request-context.ts:23-24 | a non-blank incoming request id is kept, trimmed; otherwise the fresh id is used |
| RequestContext.Exchange.Next | src/middleware/request-context.ts:33 | passing the request on counts one call and changes nothing else |
| RequestContext.RequestContextMiddleware | src/middleware/request-context.ts:22-34 | the request carries the request id and the actor, the response echoes both in its headers, and the request is passed on once |
| CommandAudit.BeforeQuery | src/middleware/command-audit.ts:25 | the path is the part before the first `?`, and holds none |
| CommandAudit.BeforeQueryOfPath | src/middleware/command-audit.ts:25 | a path followed by a query is cut back to the path, and a path alone is kept |
| CommandAudit.PathOf | src/middleware/command-audit.ts:25 | the path has no `?` and is taken from the original URL when there is one, else from the URL |
| CommandAudit.ClientAddress | src/middleware/command-audit.ts:39 | the address is the request's when set, else the socket's, else none |
| CommandAudit.EntryOf | src/middleware/command-audit.ts:42-51 | the entry carries the start time, the command and the final status |
| CommandAudit.DateKeyOf | src/middleware/command-audit.ts:44-55 | the day file of an ISO time stamp is named by its first ten characters |
| CommandAudit.AuditedEntry | src/middleware/command-audit.ts:29-51 | a command request's entry has a command method, a path without query, a command joining the two, and a trimmed non-empty actor |
| CommandAudit.CommandAuditMiddleware | src/middleware/command-audit.ts:29-57 | a request is captured exactly when its method is POST, PUT, PATCH or DELETE, and is passed on once with nothing else changed |
| CommandAudit.OnFinish | src/middleware/command-audit.ts:41-54 | at `finish` the entry with the final status is appended to the log after a prune, unless the directory fails |
| CommandAudit.AuditedCommandListed | src/middleware/command-audit.ts:29-57 | a command audited on the newest day shows up in the next listing of the history, as long as the retention setting reads as a number |
| VehicleLookupService.ConfiguredUrl | src/services/vehicle-lookup.service.ts:38-44 | a URL is configured exactly when the variable is set and not blank, and it is then the variable trimmed |
| VehicleLookupService.ProviderConfigs | src/services/vehicle-lookup.service.ts:38-44 | there are three providers, API1, API2 and API3, in that order |
| VehicleLookupService.RequestTimeout | src/services/vehicle-lookup.service.ts:38-44 | the timeout is always a positive finite number of milliseconds: the variable's value when it reads as one, else 5000 ms |
| VehicleLookupService.NormalizeText | src/services/vehicle-lookup.service.ts:46-49 | a text read is non-empty and trimmed; none is read exactly for a blank value, and always for a null or missing one |
| VehicleLookupService.NormalizeString | src/services/vehicle-lookup.service.ts:46-49 | a string reads as itself trimmed, or as nothing when blank |
| VehicleLookupService.ResolveProviderUrl | src/services/vehicle-lookup.service.ts:51-58 | a template without placeholder is kept and the plate added as its `plate` query parameter |
| VehicleLookupService.ReplaceAllKeepsReplacement | src/services/vehicle-lookup.service.ts:53-54 | a template with a placeholder has the plate in its place |
| VehicleLookupService.PlateInUrl | src/services/vehicle-lookup.service.ts:51-58 | whatever the template, the encoded plate is part of the URL |
| VehicleLookupService.FilledTemplate | src/services/vehicle-lookup.service.ts:53-54 | a template with one placeholder and no other `{` gets the plate exactly in its place |
| VehicleLookupService.PickField | src/services/vehicle-lookup.service.ts:60-69 | nothing is picked exactly when no key's value reads as text, and a pick is non-empty and trimmed |
| VehicleLookupService.PickFieldFirst | src/services/vehicle-lookup.service.ts:60-69 | the pick is the text of the first key whose value reads as text |
| VehicleLookupService.ExtractLookupData | src/services/vehicle-lookup.service.ts:71-80 | the brand, model and colour read are each non-empty and trimmed when present |
| VehicleLookupService.ExtractUnwraps | src/services/vehicle-lookup.service.ts:71-80 | the same vehicle is read whether it comes bare, under `vehicle` or under `data.vehicle` |
| VehicleLookupService.BrandFallsBack | src/services/vehicle-lookup.service.ts:71-80 | a blank `brand` falls back to `marca` |
| VehicleLookupService.RequestProvider | src/services/vehicle-lookup.service.ts:82-132 | no URL gives the "no URL" failure taking no time; a success carries data naming a brand, model or colour, and only a success carries data; an error or a status outside 2xx is a failure |
| VehicleLookupService.NoUrlNoRequest | src/services/vehicle-lookup.service.ts:82-93 | a provider without URL is never asked: its result is the same whatever the network would answer |
| VehicleLookupService.ResolveField | src/services/vehicle-lookup.service.ts:134-150 | a field has a value exactly when it has a source, exactly when some source supplies it, and a value is non-empty |
| VehicleLookupService.FirstSupplierWins | src/services/vehicle-lookup.service.ts:134-150 | the first source that supplies a field decides it, whatever later sources say |
| VehicleLookupService.ConsolidateByPriority | src/services/vehicle-lookup.service.ts:152-163 | the lookup succeeds overall exactly when some field was resolved |
| VehicleLookupService.OverallIffSupplied | src/services/vehicle-lookup.service.ts:152-163 | the lookup succeeds overall exactly when some source supplies some field |
| VehicleLookupService.SuppliesIffSuccess | src/services/vehicle-lookup.service.ts:82-132 | a provider's result supplies some field exactly when it succeeded |
| VehicleLookupService.LookupVehicleExternalSources | src/services/vehicle-lookup.service.ts:165-183 | every provider is asked once, in order; the merge is the consolidation by priority of their results; and the lookup succeeds overall exactly when some provider succeeded |
| ControlRepository.NormalizeString | src/repositories/control.repository.ts:27-33 | the text is trimmed, empty for a null or missing value, and a string's trimmed self |
| ControlRepository.NormalizeNumber | src/repositories/control.repository.ts:35-38 | a value that reads as a finite number gives that number, anything else 0 |
| ControlRepository.DoorFieldsNormalised | src/repositories/control.repository.ts:40-53 | every text field of a mapped door is trimmed, and a row that is not an object reads as an empty door |
| ControlRepository.GateFieldsNormalised | src/repositories/control.repository.ts:55-66 | every text field of a mapped gate is trimmed, and a row that is not an object reads as an empty gate |
| ControlRepository.MapRows | src/repositories/control.repository.ts:95 | one mapped row per row, at the same place |
| ControlRepository.ListAvailableDoors | src/repositories/control.repository.ts:72-96 | a result that is not an array lists no door; otherwise every row is mapped, in order |
| ControlRepository.ListAvailableGates | src/repositories/control.repository.ts:134-155 | a result that is not an array lists no gate; otherwise every row is mapped, in order |
| ControlRepository.GetDoorById | src/repositories/control.repository.ts:103-128 | no door exactly when the result is not a non-empty array, else its first row mapped |
| ControlRepository.GetGateByNumeroDispositivo | src/repositories/control.repository.ts:162-185 | no gate exactly when the result is not a non-empty array, else its first row mapped |
| ControlRepository.DoorFoundById | src/repositories/control.repository.ts:103-128 | the door found carries the id and is active, and is found exactly when some named active row of the table has that id |
| ControlRepository.DoorWithIdMaps | src/repositories/control.repository.ts:117-119 | a row the id query selects maps to an active door with that id |
| ControlRepository.GateFoundByNumber | src/repositories/control.repository.ts:162-185 | the gate found carries the number and is an active TAG gate, and is found exactly when some such row of the table has that number |
| ControlRepository.GateWithNumberMaps | src/repositories/control.repository.ts:174-176 | a row the number query selects maps to an active TAG gate with that number |
| ControlRepository.ListedDoorIsActive | src/repositories/control.repository.ts:86-87 | a door row the listing selects maps to an active door |
| ControlRepository.ListedGateIsTag | src/repositories/control.repository.ts:146 | a gate row the listing selects maps to a TAG gate |
| ControlRepository.ListedDoorsActive | src/repositories/control.repository.ts:72-96 | every door listed is active |
| ControlRepository.ListedGatesTagged | src/repositories/control.repository.ts:134-155 | every gate listed is a TAG gate |
| ControlRepository.TrimKeepsTag | src/repositories/control.repository.ts:30-32 | trimming never removes an inner `TAG` |
| AccessControlService.PositiveOr | src/services/access-control.service.ts:46-60 | `NaN`, minus infinity and numbers not above 0 give the default; any other number is kept, plus infinity included |
| AccessControlService.ResolveControlTimeout | src/services/access-control.service.ts:46-52 | the timeout is above 0: the variable's value when it reads as a positive number, else 5000 ms |
| AccessControlService.ResolveTagBasePort | src/services/access-control.service.ts:54-60 | the base port is above 0: the variable's value when it reads as a positive number, else 4000 |
| AccessControlService.TagControlHost | src/services/access-control.service.ts:35 | a non-blank host variable is used trimmed, and otherwise the default host |
| AccessControlService.AddNum | src/services/access-control.service.ts:62-67 | a finite port is offset by the device number, and a non-finite one is kept |
| AccessControlService.ProbeNotUnder | src/services/access-control.service.ts:62-67 | two hosts that differ at some position give a healthcheck URL that does not start with the other host's gate base URL |
| AccessControlService.GateBaseUrl | src/services/access-control.service.ts:62-67 | the port is the base port plus the device number, and the URL is `http://`, the host, `:` and that port |
| AccessControlService.BuildGateHealthcheckUrl | src/services/access-control.service.ts:62-67 | the healthcheck URL is the gate's base URL followed by the healthcheck path |
| AccessControlService.MapAxiosError | src/services/access-control.service.ts:69-79 | anything but an axios error is a 500 with the fixed message; an axios error keeps its response status, or 502 without one or with status 0, and the error message when the body is falsy; the status is never 0 |
| AccessControlService.ResolveHttpStatus | src/services/access-control.service.ts:81-105 | online exactly when the answer is 200; an answer reports its status and no error; a failed probe reports the mapped status and an error |
| AccessControlService.GateStatusOf | src/services/access-control.service.ts:114-129 | a gate's status carries its identity and healthcheck URL, and is online exactly when that URL answers 200 |
| AccessControlService.DoorStatusOf | src/services/access-control.service.ts:131-157 | a door without IP is offline with the fixed error and no URL; otherwise it is probed at `http://` and its IP, and is online exactly when that answers 200 |
| AccessControlService.DoorWithoutIpNotProbed | src/services/access-control.service.ts:131-143 | a door without IP is never probed: its status is the same whatever the network would answer, and offline |
| AccessControlService.GateStatuses | src/services/access-control.service.ts:114-129 | one status per gate listed, in listing order |
| AccessControlService.DoorStatuses | src/services/access-control.service.ts:131-158 | one status per door listed, in listing order |
| AccessControlService.RefreshOutcome | src/services/access-control.service.ts:107-173 | a successful refresh replaces everything, stamped now and without error, one status per listed device in order; a failed one keeps the previous devices and time and records an error |
| AccessControlService.FailureKeepsLastStatus | src/services/access-control.service.ts:166-171 | a failed refresh after a successful one still shows the devices and time of the successful one, with the failure's message |
| AccessControlService.AccessControlMonitor.constructor | src/services/access-control.service.ts:34-44 | the monitor starts with the configured host and port and the waiting cache |
| AccessControlService.AccessControlMonitor.UpdateAccessControlStatusCache | src/services/access-control.service.ts:107-173 | the cache afterwards is the refresh of the cache before |
| ControlController.ConfigOf | src/controllers/control.controller.ts:7-28 | the host is the trimmed variable, or `192.168.0.252` when it is unset or blank; the base port and the timeout are the variables' values when they read as positive numbers, else 4000 and 5000 ms |
| ControlController.DefaultHostsDiffer | src/controllers/control.controller.ts:6-9 | with no host configured, the routes command a gate on a different host from the one the status monitor probes |
| ControlController.ResolveIdNumber | src/controllers/control.controller.ts:54-65 | no id exactly for `undefined`, `null` and `''`; an id read is a positive finite number; any other value is invalid |
| ControlController.AutoCloseTime | src/controllers/control.controller.ts:93-107 | no value gives 15; a finite positive number is used as given; anything else refuses the request |
| ControlController.CaughtFailure | src/controllers/control.controller.ts:42-52 | a caught error is a failure with the route's message and a status that is never 0, 500 for anything but an axios error |
| ControlController.OpenGateRoute | src/controllers/control.controller.ts:72-121 | a missing id and an invalid id are refused with 400; an opened gate is answered with 200 and the port of its TAG service |
| ControlController.OpenGateRejectsBeforeRequest | src/controllers/control.controller.ts:72-107 | a missing or invalid id, an unknown gate and an invalid `autoCloseTime` are refused before any request to the gate |
| ControlController.OpenGateRequestSent | src/controllers/control.controller.ts:93-117 | when the gate opens without a given `autoCloseTime`, the gate was found and its TAG service was asked with `autoCloseTime` 15 |
| ControlController.RestartGateRoute | src/controllers/control.controller.ts:128-165 | a missing id and an invalid id are refused with 400; a restarted gate is answered with 200 and the port of its TAG service |
| ControlController.OpenDoorRoute | src/controllers/control.controller.ts:202-264 | a missing id and an invalid id are refused with 400 |
| ControlController.OpenDoorChecksDevice | src/controllers/control.controller.ts:223-250 | a door without IP or without either credential is refused with 400 before any request; a door that opens had both and was asked at its own IP |
| ControlController.ErrorDetail | src/controllers/control.controller.ts:178 | the detail of an `Error` is its message |
| ControlController.ListDoorsRoute | src/controllers/control.controller.ts:172-180 | a listing answers the mapped doors, and a query error is the 500 failure |
| ControlController.ListGatesRoute | src/controllers/control.controller.ts:187-195 | a listing answers the mapped gates, and a query error is the 500 failure |
| ControlController.StatusGatesAndDoorsControl | src/controllers/control.controller.ts:271-279 | the answer is the monitor's cache as it stands |
| TextOrder.NotAfterTotal | src/services/command-log.service.ts:32 | any two names or time stamps compare one way or the other |
| TextOrder.NotAfterTransitive | src/services/command-log.service.ts:32 | the comparison the sorts use is transitive |
| TextOrder.NotAfterAntisymmetric | src/services/command-log.service.ts:32 | two strings that each sort no later than the other are equal |
| TextOrder.SortDescending | src/services/command-log.service.ts:85-90 | the sort puts the greatest key first and never a smaller key before a greater one |
| TextOrder.SortPermutes | src/services/command-log.service.ts:85-90 | the sort keeps exactly the elements it was given, each as often |
| TextOrder.SortIsRanked | src/services/command-log.service.ts:71 | sorting a listing of distinct file names gives the one descending order of those names, whatever order the directory listed them in |

## Findings
| source | as written | input that shows it | evidently intended | confidence | as-written member | corrected member |
|---|---|---|---|---|---|---|
| src/services/exhaust.service.ts:549-624 | a unit is stored under its normalised id, and `a-1` and `A1` normalise to different ids for the same fan | switch on `a-1` for 10 minutes, then switch off `A1` a minute later: the entry `A_1` survives the cut and the restore loop switches the fan on again | a fan that is switched off stays off, whatever spelling named it | high, not executed | ExhaustKeying.AsWrittenRearmsFanJustCut | ExhaustService.TurnOffForgetsUnit |
| src/services/exaustor.service.ts:186-200 | `turnOnExaustor` stores a new state object, so `scheduleOffTimer` never sees the previous timer to clear it | switch a unit on for 10 minutes and again for 30: the first timer still fires after 10 minutes and switches the unit off | switching a unit on again replaces its auto-off time | high, not executed | ExaustorService.TurnOnLeavesOldTimer | ExaustorService.TurnOnKeepsTimers |
| src/repositories/freedomVehicleRepository.ts:144 | the new tag is `String(TAG).trim()` followed by `B` | an access row whose `TAG` is `null` is locked with the tag `nullB` | the tag `B`, as `vehicle.repository.ts:175` writes it with `?? ''` | medium, not executed | FreedomVehicleRepository.NullTagBecomesNullB | VehicleRepository.NullTagBecomesB |
| src/services/command-log.service.ts:17-35 | `Math.max(1, RETENTION_DAYS)` with a retention that is `NaN` is `NaN`, and `slice(NaN)` is `slice(0)` | `COMMAND_LOG_RETENTION_DAYS=abc`: every prune deletes every log file | at least the newest file is kept | medium, not executed | CommandLogService.NaNRetentionDeletesAll | CommandLogService.EffectiveRetentionKeepsNewest |

## Left out
- Relay modules are reached through `RelayBus`: a reply per host, command and log position. The axios transport, `buildUrl` and the URL concatenation of `sendRawCommand` are not modelled.
- `Promise.all` is taken as a sequential fold. This applies to the module refresh, push dispatch, access-control polling and the removal of an endpoint from every subscription file. When both access-control queries fail, the gate query's error is the one reported.
- Timers and intervals are not modelled as such. `setInterval` and the start of the access-control monitor are left out. The exhaust loop's pause is a log event. The exaustor auto-off timer is an entry in `timers` that fires as the operation `FireSpec`.
- Time is one integer `now` per call, so time passing during an `await` is not modelled. Minutes are whole milliseconds: `Math.round(minutes*60*1000)` of a fractional `tempo` is read on exact rationals, and IEEE rounding is not modelled.
- `Date` parsing and formatting (`toISOString`, the day key of a log entry, the time stamp of the process-status route, the day cut-off of `setLockVehicleByData`) are parameters or left out.
- Regular expressions, `encodeURIComponent`, `JSON.stringify` and the Base64 `Authorization` header are written as character predicates or given as parameters.
- `localeCompare` is read as code-unit order. It is only applied to names and time stamps that differ in digits.
- Case mapping is ASCII only.
- SQL text, the Firebird connection and transactions are left out. Every query's result is an input table, and `ORDER BY` is not modelled. The remaining functions of the two vehicle repositories (`getAll*`, `getOneVehicle`, `register*`) are outside the core.
- The other freedom handlers, such as `checkAccessPermission`, `purgeVehicle` and the vehicle handlers, are outside the core. They check their request parameters and then call the database, and neither step is modelled.
- The `isValidCpf` copies in `query.controller.ts:8-32` and `vehicle-v2.controller.ts:19-38` are identical to the freedom controller's. They are modelled once as `Identifiers.IsValidCpf`.
- `listAllPushSubscriptions` is left out. It is the storage listing, and push dispatch takes the subscriptions in that listing's order.
- The removal count of `removeEndpointFromAllPushSubscriptions` is a parameter `removedFor`.
- Web Push delivery is a parameter `send`. The fire-alarm route's `latestAlarmLogs` is not modelled.
- File-system errors are left out, except for one directory fault of the command log. The order of `readdir` is any order. Write errors of the user-settings files are not modelled.
- Console logging is left out.
- Random and UUID request ids, and the ids of log entries, are parameters.
- `getExaustorProcessStatusController` calls `getExaustorProcessStatus`, which `exaustor.service.ts` does not define, so it is not modelled.
- The catch of the status route in `control.controller.ts:271-279` is not modelled, since reading the cache cannot throw.
- ExhaustMachine.Service.Tick: each call runs to its end before the next one starts, so two runs never overlap across an `await`. The `running` guard's early return is modelled, but no sequence of calls reaches it. The exaustor timer callback `ExaustorMachine.Exaustor.Fire` is atomic in the same way, and so are the relay routes that may interleave with a run.
- JsValues.NumToStr: writes integers exactly and other finite numbers with up to 20 fraction digits cut off, never in exponent form. `Number.prototype.toString`'s shortest round-trip digits and its exponent form for very large or very small magnitudes are not modelled.
