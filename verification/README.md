# Genesis programs: epoch-gated activation schedule

A Dafny model of `genesis-programs/src/lib.rs`, the part of the ledger runtime that says,
for each cluster (Development, Devnet, Testnet, MainnetBeta) and each epoch, which inflation
policy takes effect and which built-in programs are active, together with the entered-epoch
callback that applies that schedule to a bank.

- `clock.dfy` — `Clock`: `Epoch` as a `u64` range, `GENESIS_EPOCH`, `Epoch::MAX`, `ClusterType`.
- `inflation.dfy` — `InflationSchedule`: `get_inflation`, the same schedule as an ordered
  breakpoint table, an exact-hit lookup on it, and the policy in effect after a run of epochs.
- `programs.dfy` — `Programs`: `enum Program`, the per-cluster tables of `get_programs`, the table
  invariant (sorted start epochs, unique names, unique ids) and `get_native_programs_for_genesis`.
- `invariants.dfy` — `TableInvariants`: the uniqueness test's row-by-row check, proved equivalent
  to the table invariant, and the fact that every cluster's table passes it.
- `callback.dfy` — `EpochCallback`: the bank as an immutable record, the closure body of
  `get_entered_epoch_callback` as a function `Bank -> Bank`, and its properties: exact
  activation condition, catch-up versus live transition, idempotence, no removal, and
  agreement between a cold start and living through every epoch.
- `scenarios.dfy` — `Scenarios`: concrete consequences for particular clusters and epochs.

The bank's `add_native_program` and `add_builtin_loader` are modelled as insertion into a set
of programs and `set_inflation` as overwriting a field; the real bank is not part of this model,
so these are assumptions about it.

## Model

| member | source | states |
|---|---|---|
| InflationSchedule.GetInflationIsLookup | genesis-programs/src/lib.rs:20-52 | `get_inflation` equals an exact-epoch lookup in the cluster's ordered breakpoint list |
| InflationSchedule.GetInflationExactHit | genesis-programs/src/lib.rs:20-52 | the lookup yields `v` at an epoch iff `(epoch, v)` is a breakpoint, and yields nothing at every epoch without a breakpoint (not the previous policy) |
| InflationSchedule.LookupExact | genesis-programs/src/lib.rs:20-52 | on a breakpoint list with strictly increasing epochs, the lookup hits with `v` exactly when `(epoch, v)` is listed |
| InflationSchedule.DevelopmentInflation | genesis-programs/src/lib.rs:22-29 | Development and Devnet yield a policy only at genesis, and that policy is Default |
| InflationSchedule.TestnetInflation | genesis-programs/src/lib.rs:30-42 | Testnet yields a policy exactly at epochs 0, 44, 68, 74: Disabled, Default, Disabled, Default |
| InflationSchedule.MainnetBetaInflation | genesis-programs/src/lib.rs:43-50 | MainnetBeta yields Disabled at genesis, Default at `Epoch::MAX`, nothing elsewhere (e.g. at 1) |
| InflationSchedule.Lookup | genesis-programs/src/lib.rs:20-52 | a breakpoint lookup yields a policy iff some breakpoint has exactly that epoch, and the policy it yields is listed at that epoch |
| InflationSchedule.InEffect | genesis-programs/src/lib.rs:147-150 | the policy in effect after a run of epochs is the starting policy or the policy of a breakpoint at or before the epoch |
| InflationSchedule.InEffectLatest | genesis-programs/src/lib.rs:147-150 | on a breakpoint list with strictly increasing epochs, the policy in effect at an epoch is that of the latest breakpoint at or before it |
| InflationSchedule.InEffectStep | genesis-programs/src/lib.rs:147-150 | from one epoch to the next, the policy in effect changes exactly when the lookup hits, to the policy it yields |
| Programs.ProgramTablesWellFormed | genesis-programs/src/lib.rs:78-124 | every cluster's table is non-empty, has non-decreasing start epochs from genesis on, and pairwise distinct names and ids across both program kinds |
| Programs.NativeAtGenesis | genesis-programs/src/lib.rs:126-136 | every pair returned names a Native row starting at genesis, and every such row's `(name, id)` is returned; loaders never appear |
| Programs.NativeAtGenesisAppend | genesis-programs/src/lib.rs:128-134 | the filter keeps table order: filtering a concatenation is the concatenation of the filtered parts |
| Programs.GetNativeProgramsForGenesis | genesis-programs/src/lib.rs:126-136 | the source's loop returns exactly the genesis-native filter of the cluster's table, each element a program of that table |
| TableInvariants.DoTestUniqueness | genesis-programs/src/lib.rs:181-199 | the row-by-row check (previous start epoch, sets of ids and names seen) passes iff the table is sorted and its names and ids are unique |
| TableInvariants.TestUniqueness | genesis-programs/src/lib.rs:201-207 | the check passes on all four clusters' tables |
| EpochCallback.Populate | genesis-programs/src/lib.rs:151-172 | registering the due rows one by one adds exactly the set of programs whose activation condition holds, keeping everything already registered and the epoch and policy |
| EpochCallback.EnteredEpoch | genesis-programs/src/lib.rs:147-172 | the callback keeps the epoch, sets the policy of a breakpoint at this epoch, keeps the policy when there is none, and registers the due programs without removing any |
| EpochCallback.InflationAfterCallback | genesis-programs/src/lib.rs:147-150 | after the callback the policy is the lookup's value on a hit and the previous policy on a miss, whatever `initial` is |
| EpochCallback.RegisteredExactlyWhenDue | genesis-programs/src/lib.rs:151-157 | a table program not yet registered is registered afterwards iff `initial && epoch >= start` or `!initial && epoch == start` |
| EpochCallback.CatchUp | genesis-programs/src/lib.rs:152-153 | with `initial`, every program whose start is at or before the epoch is registered afterwards, and no unregistered later program gets registered |
| EpochCallback.LiveTransition | genesis-programs/src/lib.rs:152-153 | without `initial`, exactly the programs starting at this epoch are newly registered |
| EpochCallback.EnteredEpochIdempotent | genesis-programs/src/lib.rs:140-145 | applying the callback twice with the same arguments gives the same bank as applying it once |
| EpochCallback.DueCatchUpStep | genesis-programs/src/lib.rs:152-153 | at genesis the catch-up and exact conditions select the same programs; later, catch-up at E selects catch-up at E-1 plus exact at E |
| EpochCallback.LiveReplayMatchesCatchUp | genesis-programs/src/lib.rs:140-153 | a cold start at epoch E registers the same programs as live callbacks at every epoch from 0 to E |
| EpochCallback.LiveReplayInflation | genesis-programs/src/lib.rs:147-150 | live callbacks at every epoch from 0 to E leave in effect the policy of the latest breakpoint at or before E |
| Scenarios.TableSizes | genesis-programs/src/lib.rs:218-247 | Development has 5 rows, all at genesis, 3 of them native at genesis; MainnetBeta's table is non-empty |
| Scenarios.DevelopmentGenesis | genesis-programs/src/lib.rs:80-90 | a Development cold start at genesis sets Default and registers the two loaders and the three native programs |
| Scenarios.TestnetToggle | genesis-programs/src/lib.rs:30-42 | Testnet is Disabled at genesis, becomes Default on entering 44, and stays Default on entering 45 |
| Scenarios.MainnetBetaGenesis | genesis-programs/src/lib.rs:111-122 | at genesis MainnetBeta sets Disabled and registers neither loader, since their starts are 34 and `Epoch::MAX`; the registered set is unchanged |
| Scenarios.MainnetBetaPlaceholder | genesis-programs/src/lib.rs:111-122 | MainnetBeta cold start at `Epoch::MAX`: Default policy and both loaders registered |

## Left out

- `impl Debug for Program` (lib.rs:59-75) and `test_debug`: formatting of a function pointer, no behaviour.
- The `info!` log line in the callback: output only, no effect on the bank.
- Boxing the closure as an `EnteredEpochCallback`: the closure body is modelled as a plain
  function of `(cluster, bank, initial)`.
- The bank itself: `set_inflation`, `add_native_program` and `add_builtin_loader` are assumed to be
  a field overwrite and set insertions; the runtime that defines them is not part of this model.
- Program names, ids and entry points come from macros in other crates (lib.rs:1-8, 82-86). Names
  are the macros' own names; ids are opaque labelled values that are pairwise distinct. Each loader
  gets its own opaque entry point, a modelling choice nothing in the proofs relies on. The actual
  32-byte ids and the instruction processors are not modelled.
- `Inflation`'s floating-point parameters: only the two values `default()` and `new_disabled()` are
  modelled, compared by equality.
- Determinism of `get_inflation` holds because every Dafny function is deterministic; it has no
  lemma of its own.
