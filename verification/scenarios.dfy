/** Concrete consequences of the schedule, matching the repository's unit tests and the
    callback's catch-up and exact activation for particular clusters and epochs. */
module Scenarios {
  import opened Clock
  import opened InflationSchedule
  import opened Programs
  import opened EpochCallback

  /** `test_development_programs`, `test_native_development_programs`,
      `test_softlaunch_programs`: table sizes. */
  lemma TableSizes()
    ensures |GetPrograms(Development)| == 5
    ensures forall i :: 0 <= i < 5 ==> GetPrograms(Development)[i].start == GENESIS_EPOCH
    ensures |NativeAtGenesis(GetPrograms(Development))| == 3
    ensures |GetPrograms(MainnetBeta)| > 0
  {
  }

  /** A Development cold start at genesis enables the default policy and registers all
      five programs: three native ones and two loaders. */
  lemma DevelopmentGenesis(bank: Bank)
    requires bank.epoch == GENESIS_EPOCH
    ensures EnteredEpoch(Development, bank, true).inflation == Default
    ensures EnteredEpoch(Development, bank, true).registered
            == bank.registered + {BPF_LOADER, BPF_LOADER_DEPRECATED, VEST, BUDGET, EXCHANGE}
  {
    var t := GetPrograms(Development);
    assert Breakpoint(GENESIS_EPOCH, Default) in Breakpoints(Development);
    assert t[0].program == BPF_LOADER && t[1].program == BPF_LOADER_DEPRECATED;
    assert t[2].program == VEST && t[3].program == BUDGET && t[4].program == EXCHANGE;
  }

  /** Testnet: Disabled at genesis; a live transition into epoch 44 enables the default
      policy and the following epoch, which has no breakpoint, keeps it. */
  lemma TestnetToggle(bank: Bank)
    ensures EnteredEpoch(Testnet, bank.(epoch := 0), true).inflation == Disabled
    ensures EnteredEpoch(Testnet, bank.(epoch := 44), false).inflation == Default
    ensures EnteredEpoch(Testnet, EnteredEpoch(Testnet, bank.(epoch := 44), false).(epoch := 45), false).inflation
            == Default
  {
    assert Breakpoint(0, Disabled) in Breakpoints(Testnet);
    assert Breakpoint(44, Default) in Breakpoints(Testnet);
  }

  /** MainnetBeta at genesis: inflation disabled and neither loader registered yet (the
      deprecated loader starts at 34, the current one at the `Epoch::MAX` placeholder). */
  lemma MainnetBetaGenesis(bank: Bank)
    requires bank.epoch == GENESIS_EPOCH
    ensures EnteredEpoch(MainnetBeta, bank, true).inflation == Disabled
    ensures EnteredEpoch(MainnetBeta, bank, true).registered == bank.registered
  {
    assert Breakpoint(GENESIS_EPOCH, Disabled) in Breakpoints(MainnetBeta);
  }

  /** MainnetBeta at the placeholder epoch: a cold start enables the default policy and
      catches up on both loaders. */
  lemma MainnetBetaPlaceholder(bank: Bank)
    requires bank.epoch == EPOCH_MAX
    ensures EnteredEpoch(MainnetBeta, bank, true).inflation == Default
    ensures EnteredEpoch(MainnetBeta, bank, true).registered
            == bank.registered + {BPF_LOADER_DEPRECATED, BPF_LOADER}
  {
    var t := GetPrograms(MainnetBeta);
    assert Breakpoint(EPOCH_MAX, Default) in Breakpoints(MainnetBeta);
    assert t[0].program == BPF_LOADER_DEPRECATED && t[1].program == BPF_LOADER;
  }
}
