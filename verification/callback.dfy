/** The entered-epoch callback: brings a bank's inflation policy and registered programs
    in line with the schedule for the bank's current epoch. */
module EpochCallback {
  import opened Clock
  import opened InflationSchedule
  import opened Programs

  /** The part of the runtime's bank the callback reads and writes. */
  datatype Bank = Bank(epoch: Epoch, inflation: Inflation, registered: set<Program>)

  /** `Bank::set_inflation`, assumed to overwrite the policy. */
  function SetInflation(bank: Bank, inflation: Inflation): Bank
  {
    bank.(inflation := inflation)
  }

  /** `Bank::add_native_program`, assumed to be set insertion (a repeat is a no-op). */
  function AddNativeProgram(bank: Bank, name: string, id: Pubkey): Bank
  {
    bank.(registered := bank.registered + {Native(name, id)})
  }

  /** `Bank::add_builtin_loader`, assumed to be set insertion (a repeat is a no-op). */
  function AddBuiltinLoader(bank: Bank, name: string, id: Pubkey, entry: EntryPoint): Bank
  {
    bank.(registered := bank.registered + {BuiltinLoader(name, id, entry)})
  }

  /** `should_populate`: catch up on everything already started when `initial`,
      otherwise only what starts at exactly this epoch. */
  predicate ShouldPopulate(initial: bool, epoch: Epoch, start: Epoch)
  {
    (initial && epoch >= start) || (!initial && epoch == start)
  }

  /** The programs of table `t` that are due at `epoch`. */
  ghost function Due(t: seq<ProgramEntry>, epoch: Epoch, initial: bool): set<Program>
  {
    set i | 0 <= i < |t| && ShouldPopulate(initial, epoch, t[i].start) :: t[i].program
  }

  /** The loop over the table: register each due program with the call its kind needs. */
  function Populate(t: seq<ProgramEntry>, bank: Bank, initial: bool): (r: Bank)
    ensures r == bank.(registered := bank.registered + Due(t, bank.epoch, initial))
    decreases |t|
  {
    if |t| == 0 then bank
    else
      var bank' :=
        if ShouldPopulate(initial, bank.epoch, t[0].start) then
          match t[0].program
          case Native(name, id) => AddNativeProgram(bank, name, id)
          case BuiltinLoader(name, id, entry) => AddBuiltinLoader(bank, name, id, entry)
        else bank;
      var r := Populate(t[1..], bank', initial);
      assert Due(t, bank.epoch, initial) ==
             (if ShouldPopulate(initial, bank.epoch, t[0].start) then {t[0].program} else {})
             + Due(t[1..], bank.epoch, initial)
      by {
        assert forall i :: 0 < i < |t| ==> t[i] == t[1..][i - 1];
        assert forall j :: 0 <= j < |t[1..]| ==> t[1..][j] == t[j + 1];
      }
      r
  }

  /** The body of `get_entered_epoch_callback`'s closure, as a function of the bank. */
  function EnteredEpoch(cluster: ClusterType, bank: Bank, initial: bool): (r: Bank)
    ensures r.epoch == bank.epoch
    ensures forall v :: Breakpoint(bank.epoch, v) in Breakpoints(cluster) ==> r.inflation == v
    ensures (forall i :: 0 <= i < |Breakpoints(cluster)| ==> Breakpoints(cluster)[i].epoch != bank.epoch)
              ==> r.inflation == bank.inflation
    ensures r.registered == bank.registered + Due(GetPrograms(cluster), bank.epoch, initial)
  {
    GetInflationExactHitAll(cluster, bank.epoch);
    var bank' :=
      match GetInflation(cluster, bank.epoch)
      case Some(inflation) => SetInflation(bank, inflation)
      case None => bank;
    Populate(GetPrograms(cluster), bank', initial)
  }

  /** Re-running the callback with the same arguments changes nothing further. */
  lemma EnteredEpochIdempotent(cluster: ClusterType, bank: Bank, initial: bool)
    ensures EnteredEpoch(cluster, EnteredEpoch(cluster, bank, initial), initial)
            == EnteredEpoch(cluster, bank, initial)
  {
    var once := EnteredEpoch(cluster, bank, initial);
    var twice := EnteredEpoch(cluster, once, initial);
    GetInflationExactHitAll(cluster, bank.epoch);
    if GetInflation(cluster, bank.epoch).Some? {
      assert Breakpoint(bank.epoch, GetInflation(cluster, bank.epoch).value) in Breakpoints(cluster);
    }
  }

  /** A table entry that was not registered before is registered afterwards exactly when
      its activation condition holds. */
  lemma RegisteredExactlyWhenDue(cluster: ClusterType, bank: Bank, initial: bool, i: int)
    requires 0 <= i < |GetPrograms(cluster)|
    requires GetPrograms(cluster)[i].program !in bank.registered
    ensures GetPrograms(cluster)[i].program in EnteredEpoch(cluster, bank, initial).registered
            <==> ShouldPopulate(initial, bank.epoch, GetPrograms(cluster)[i].start)
  {
    var t := GetPrograms(cluster);
    ProgramTablesWellFormed(cluster);
    if t[i].program in Due(t, bank.epoch, initial) {
      var j :| 0 <= j < |t| && ShouldPopulate(initial, bank.epoch, t[j].start) && t[j].program == t[i].program;
      UniqueIdsDistinctPrograms(t, i, j);
    }
  }

  /** Cold start or restore (`initial`): every program started by now is registered, and
      nothing scheduled for a later epoch is newly registered. */
  lemma CatchUp(cluster: ClusterType, bank: Bank)
    ensures forall i :: 0 <= i < |GetPrograms(cluster)| && GetPrograms(cluster)[i].start <= bank.epoch
              ==> GetPrograms(cluster)[i].program in EnteredEpoch(cluster, bank, true).registered
    ensures forall i :: 0 <= i < |GetPrograms(cluster)| && GetPrograms(cluster)[i].start > bank.epoch
              && GetPrograms(cluster)[i].program !in bank.registered
              ==> GetPrograms(cluster)[i].program !in EnteredEpoch(cluster, bank, true).registered
  {
    forall i | 0 <= i < |GetPrograms(cluster)| && GetPrograms(cluster)[i].program !in bank.registered {
      RegisteredExactlyWhenDue(cluster, bank, true, i);
    }
  }

  /** A live epoch transition (not `initial`): exactly the programs starting at this epoch
      are newly registered. */
  lemma LiveTransition(cluster: ClusterType, bank: Bank)
    ensures forall i :: 0 <= i < |GetPrograms(cluster)| && GetPrograms(cluster)[i].start == bank.epoch
              ==> GetPrograms(cluster)[i].program in EnteredEpoch(cluster, bank, false).registered
    ensures forall i :: 0 <= i < |GetPrograms(cluster)| && GetPrograms(cluster)[i].start != bank.epoch
              && GetPrograms(cluster)[i].program !in bank.registered
              ==> GetPrograms(cluster)[i].program !in EnteredEpoch(cluster, bank, false).registered
  {
    forall i | 0 <= i < |GetPrograms(cluster)| && GetPrograms(cluster)[i].program !in bank.registered {
      RegisteredExactlyWhenDue(cluster, bank, false, i);
    }
  }

  /** A node that went live at genesis and took the callback at every epoch from 0 to `epoch`
      in turn, never with `initial`. */
  ghost function LiveFromGenesis(cluster: ClusterType, bank: Bank, epoch: Epoch): Bank
    decreases epoch
  {
    var before := if epoch == 0 then bank else LiveFromGenesis(cluster, bank, epoch - 1);
    EnteredEpoch(cluster, before.(epoch := epoch), false)
  }

  /** Whatever the mode, the callback leaves in force the policy the breakpoint lookup
      yields, or the previous one on a miss. */
  lemma InflationAfterCallback(cluster: ClusterType, bank: Bank, initial: bool)
    ensures EnteredEpoch(cluster, bank, initial).inflation ==
            match Lookup(Breakpoints(cluster), bank.epoch)
            case Some(v) => v
            case None => bank.inflation
  {
    BreakpointsIncreasing(cluster);
    match Lookup(Breakpoints(cluster), bank.epoch)
    case Some(v) =>
      LookupExact(Breakpoints(cluster), bank.epoch, v);
    case None =>
  }

  /** Catch-up registers at `epoch` what it registered at `epoch - 1` plus what a live
      transition registers at `epoch`. */
  lemma DueCatchUpStep(t: seq<ProgramEntry>, epoch: Epoch)
    ensures epoch == 0 ==> Due(t, epoch, true) == Due(t, epoch, false)
    ensures epoch > 0 ==> Due(t, epoch, true) == Due(t, epoch - 1, true) + Due(t, epoch, false)
  {
  }

  /** Catch-up is sound: a cold start at `epoch` registers the same programs as living
      through every epoch up to it. */
  lemma {:induction false} LiveReplayMatchesCatchUp(cluster: ClusterType, bank: Bank, epoch: Epoch)
    ensures LiveFromGenesis(cluster, bank, epoch).epoch == epoch
    ensures LiveFromGenesis(cluster, bank, epoch).registered
            == EnteredEpoch(cluster, bank.(epoch := epoch), true).registered
  {
    var t := GetPrograms(cluster);
    var before := if epoch == 0 then bank else LiveFromGenesis(cluster, bank, epoch - 1);
    var after := EnteredEpoch(cluster, before.(epoch := epoch), false);
    assert LiveFromGenesis(cluster, bank, epoch) == after;
    assert after.registered == before.registered + Due(t, epoch, false);
    DueCatchUpStep(t, epoch);
    if epoch > 0 {
      LiveReplayMatchesCatchUp(cluster, bank, epoch - 1);
      assert before.registered == bank.registered + Due(t, epoch - 1, true);
    }
  }

  /** Living through every epoch up to `epoch` leaves in effect the policy of the latest
      inflation breakpoint at or before `epoch`. */
  lemma {:induction false} LiveReplayInflation(cluster: ClusterType, bank: Bank, epoch: Epoch)
    ensures LiveFromGenesis(cluster, bank, epoch).inflation
            == InEffect(Breakpoints(cluster), epoch, bank.inflation)
  {
    var before := if epoch == 0 then bank else LiveFromGenesis(cluster, bank, epoch - 1);
    assert LiveFromGenesis(cluster, bank, epoch) == EnteredEpoch(cluster, before.(epoch := epoch), false);
    BreakpointsIncreasing(cluster);
    InEffectStep(Breakpoints(cluster), epoch, bank.inflation);
    InflationAfterCallback(cluster, before.(epoch := epoch), false);
    if epoch == 0 {
      InEffectAllLater(Breakpoints(cluster), -1, bank.inflation);
    } else {
      LiveReplayInflation(cluster, bank, epoch - 1);
    }
  }
}
