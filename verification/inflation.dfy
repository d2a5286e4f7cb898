/** The inflation schedule: which inflation policy a cluster switches to at a given epoch. */
module InflationSchedule {
  import opened Clock

  datatype Option<T> = None | Some(value: T)

  /** The two canonical policies; the real parameters are floating point and are not modelled. */
  datatype Inflation = Default | Disabled

  /** `get_inflation`: the policy defined for exactly this epoch, or `None` when the
      schedule has no breakpoint there (not the policy that is currently in effect). */
  function GetInflation(cluster: ClusterType, epoch: Epoch): Option<Inflation>
  {
    match cluster
    case Development => if epoch == 0 then Some(Default) else None
    case Devnet => if epoch == 0 then Some(Default) else None
    case Testnet =>
      if epoch == 0 then Some(Disabled)
      else if epoch == 44 then Some(Default)
      else if epoch == 68 then Some(Disabled)
      else if epoch == 74 then Some(Default)
      else None
    case MainnetBeta =>
      if epoch == 0 then Some(Disabled)
      else if epoch == EPOCH_MAX then Some(Default)
      else None
  }

  /** One point of a schedule: from `epoch` on, `inflation` is the policy. */
  datatype Breakpoint = Breakpoint(epoch: Epoch, inflation: Inflation)

  /** The same schedule written as a list of breakpoints per cluster, in epoch order. */
  function Breakpoints(cluster: ClusterType): seq<Breakpoint>
  {
    match cluster
    case Development => [Breakpoint(GENESIS_EPOCH, Default)]
    case Devnet => [Breakpoint(GENESIS_EPOCH, Default)]
    case Testnet =>
      [Breakpoint(GENESIS_EPOCH, Disabled), Breakpoint(44, Default),
       Breakpoint(68, Disabled), Breakpoint(74, Default)]
    case MainnetBeta => [Breakpoint(GENESIS_EPOCH, Disabled), Breakpoint(EPOCH_MAX, Default)]
  }

  ghost predicate StrictlyIncreasing(bps: seq<Breakpoint>)
  {
    forall i, j :: 0 <= i < j < |bps| ==> bps[i].epoch < bps[j].epoch
  }

  /** The policy of a breakpoint at exactly `epoch`, if any. */
  function Lookup(bps: seq<Breakpoint>, epoch: Epoch): (r: Option<Inflation>)
    ensures r.Some? <==> exists i :: 0 <= i < |bps| && bps[i].epoch == epoch
    ensures r.Some? ==> Breakpoint(epoch, r.value) in bps
  {
    if |bps| == 0 then None
    else if bps[0].epoch == epoch then Some(bps[0].inflation)
    else
      var r := Lookup(bps[1..], epoch);
      assert forall i :: 0 < i < |bps| ==> bps[i] == bps[1..][i - 1];
      r
  }

  /** With distinct epochs, a lookup hits with `v` exactly when `(epoch, v)` is a breakpoint. */
  lemma {:induction false} LookupExact(bps: seq<Breakpoint>, epoch: Epoch, v: Inflation)
    requires StrictlyIncreasing(bps)
    ensures Lookup(bps, epoch) == Some(v) <==> Breakpoint(epoch, v) in bps
  {
    if |bps| > 0 && bps[0].epoch != epoch {
      LookupExact(bps[1..], epoch, v);
      assert Breakpoint(epoch, v) in bps <==> Breakpoint(epoch, v) in bps[1..];
    }
  }

  lemma BreakpointsIncreasing(cluster: ClusterType)
    ensures StrictlyIncreasing(Breakpoints(cluster))
    ensures |Breakpoints(cluster)| > 0 && Breakpoints(cluster)[0].epoch == GENESIS_EPOCH
  {
  }

  /** `get_inflation` is a lookup in the breakpoint table. */
  lemma GetInflationIsLookup(cluster: ClusterType, epoch: Epoch)
    ensures GetInflation(cluster, epoch) == Lookup(Breakpoints(cluster), epoch)
  {
    var bps := Breakpoints(cluster);
    BreakpointsIncreasing(cluster);
    match GetInflation(cluster, epoch)
    case Some(v) =>
      assert Breakpoint(epoch, v) in bps;
      LookupExact(bps, epoch, v);
    case None =>
      assert forall i :: 0 <= i < |bps| ==> bps[i].epoch != epoch;
  }

  /** Exact-hit semantics: the lookup yields `v` at `epoch` iff the schedule has the
      breakpoint `(epoch, v)`, and yields nothing at every other epoch. */
  lemma GetInflationExactHit(cluster: ClusterType, epoch: Epoch, v: Inflation)
    ensures GetInflation(cluster, epoch) == Some(v) <==> Breakpoint(epoch, v) in Breakpoints(cluster)
    ensures GetInflation(cluster, epoch).None? <==>
              forall i :: 0 <= i < |Breakpoints(cluster)| ==> Breakpoints(cluster)[i].epoch != epoch
  {
    GetInflationIsLookup(cluster, epoch);
    BreakpointsIncreasing(cluster);
    LookupExact(Breakpoints(cluster), epoch, v);
  }

  /** The policy in effect at `epoch`: start from `current` and apply, in order, every
      breakpoint at or before `epoch`. */
  function InEffect(bps: seq<Breakpoint>, epoch: int, current: Inflation): (r: Inflation)
    ensures r == current || exists i :: 0 <= i < |bps| && bps[i].epoch <= epoch && bps[i].inflation == r
  {
    if |bps| == 0 then current
    else
      var r := InEffect(bps[1..], epoch, if bps[0].epoch <= epoch then bps[0].inflation else current);
      assert forall j :: 0 <= j < |bps[1..]| ==> bps[1..][j] == bps[j + 1];
      r
  }

  /** No breakpoint at or before `epoch`: the current policy stays. */
  lemma {:induction false} InEffectAllLater(bps: seq<Breakpoint>, epoch: int, current: Inflation)
    requires forall i :: 0 <= i < |bps| ==> bps[i].epoch > epoch
    ensures InEffect(bps, epoch, current) == current
  {
    if |bps| > 0 {
      InEffectAllLater(bps[1..], epoch, current);
    }
  }

  /** With epochs strictly increasing, the policy in effect is that of the latest breakpoint
      at or before `epoch`. */
  lemma {:induction false} InEffectLatest(bps: seq<Breakpoint>, epoch: int, current: Inflation, k: int)
    requires StrictlyIncreasing(bps)
    requires 0 <= k < |bps| && bps[k].epoch <= epoch
    requires k + 1 == |bps| || bps[k + 1].epoch > epoch
    ensures InEffect(bps, epoch, current) == bps[k].inflation
  {
    var rest := bps[1..];
    assert forall j :: 0 <= j < |rest| ==> rest[j] == bps[j + 1];
    if k == 0 {
      InEffectAllLater(rest, epoch, bps[0].inflation);
    } else {
      InEffectLatest(rest, epoch, bps[0].inflation, k - 1);
    }
  }

  /** Moving from `epoch - 1` to `epoch`, the policy in effect changes exactly when the
      lookup hits, and then to the policy it yields. */
  lemma {:induction false} InEffectStep(bps: seq<Breakpoint>, epoch: Epoch, current: Inflation)
    requires StrictlyIncreasing(bps)
    ensures InEffect(bps, epoch, current) ==
            match Lookup(bps, epoch)
            case Some(v) => v
            case None => InEffect(bps, epoch - 1, current)
  {
    if |bps| > 0 {
      var rest := bps[1..];
      assert StrictlyIncreasing(rest);
      if bps[0].epoch < epoch {
        InEffectStep(rest, epoch, bps[0].inflation);
      } else if bps[0].epoch == epoch {
        InEffectAllLater(rest, epoch, bps[0].inflation);
      } else {
        InEffectAllLater(bps, epoch, current);
        InEffectAllLater(bps, epoch - 1, current);
        assert Lookup(bps, epoch).None?;
      }
    }
  }

  /** `GetInflationExactHit` for every policy at once. */
  lemma GetInflationExactHitAll(cluster: ClusterType, epoch: Epoch)
    ensures forall v :: GetInflation(cluster, epoch) == Some(v) <==> Breakpoint(epoch, v) in Breakpoints(cluster)
    ensures GetInflation(cluster, epoch).None? <==>
              forall i :: 0 <= i < |Breakpoints(cluster)| ==> Breakpoints(cluster)[i].epoch != epoch
  {
    forall v: Inflation
      ensures GetInflation(cluster, epoch) == Some(v) <==> Breakpoint(epoch, v) in Breakpoints(cluster)
    {
      GetInflationExactHit(cluster, epoch, v);
    }
    GetInflationExactHit(cluster, epoch, Default);
  }

  /** Development and Devnet: `Default` at genesis, no change afterwards. */
  lemma DevelopmentInflation(cluster: ClusterType, epoch: Epoch)
    requires cluster == Development || cluster == Devnet
    ensures GetInflation(cluster, epoch).Some? <==> epoch == GENESIS_EPOCH
    ensures GetInflation(cluster, GENESIS_EPOCH) == Some(Default)
  {
  }

  /** Testnet toggles twice: Disabled, Default, Disabled, Default at 0, 44, 68, 74. */
  lemma TestnetInflation(epoch: Epoch)
    ensures GetInflation(Testnet, epoch).Some? <==> epoch in {0, 44, 68, 74}
    ensures GetInflation(Testnet, 0) == Some(Disabled) && GetInflation(Testnet, 44) == Some(Default)
    ensures GetInflation(Testnet, 68) == Some(Disabled) && GetInflation(Testnet, 74) == Some(Default)
  {
  }

  /** MainnetBeta: Disabled at genesis; Default only at the `Epoch::MAX` placeholder. */
  lemma MainnetBetaInflation(epoch: Epoch)
    ensures GetInflation(MainnetBeta, epoch).Some? <==> epoch == GENESIS_EPOCH || epoch == EPOCH_MAX
    ensures GetInflation(MainnetBeta, GENESIS_EPOCH) == Some(Disabled)
    ensures GetInflation(MainnetBeta, EPOCH_MAX) == Some(Default)
    ensures GetInflation(MainnetBeta, 1) == None
  {
  }
}
