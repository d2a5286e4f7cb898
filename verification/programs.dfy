/** The program activation table: which built-in programs a cluster has, and from which epoch. */
module Programs {
  import opened Clock

  /** A program address. The 32-byte values come from crates outside this model;
      only their identity matters here, so each is an opaque label. */
  datatype Pubkey = Pubkey(tag: string)

  /** A loader's instruction-processing entry point; it is only forwarded to the bank. */
  datatype EntryPoint = EntryPoint(tag: string)

  /** `enum Program`: a native program, or a loader that runs other programs' code. */
  datatype Program =
    | Native(name: string, id: Pubkey)
    | BuiltinLoader(name: string, id: Pubkey, entry: EntryPoint)

  /** One row of a cluster's table: the program and its first active epoch. */
  datatype ProgramEntry = ProgramEntry(program: Program, start: Epoch)

  const BPF_LOADER: Program :=
    BuiltinLoader("solana_bpf_loader_program", Pubkey("bpf_loader"), EntryPoint("bpf_loader"))
  const BPF_LOADER_DEPRECATED: Program :=
    BuiltinLoader("solana_bpf_loader_deprecated_program", Pubkey("bpf_loader_deprecated"),
                  EntryPoint("bpf_loader_deprecated"))
  const VEST: Program := Native("solana_vest_program", Pubkey("vest"))
  const BUDGET: Program := Native("solana_budget_program", Pubkey("budget"))
  const EXCHANGE: Program := Native("solana_exchange_program", Pubkey("exchange"))

  /** `get_programs`: the entire set of programs a cluster enables, in table order. */
  function GetPrograms(cluster: ClusterType): seq<ProgramEntry>
  {
    match cluster
    case Development =>
      [ProgramEntry(BPF_LOADER, GENESIS_EPOCH), ProgramEntry(BPF_LOADER_DEPRECATED, GENESIS_EPOCH),
       ProgramEntry(VEST, GENESIS_EPOCH), ProgramEntry(BUDGET, GENESIS_EPOCH),
       ProgramEntry(EXCHANGE, GENESIS_EPOCH)]
    case Devnet =>
      [ProgramEntry(BPF_LOADER_DEPRECATED, GENESIS_EPOCH), ProgramEntry(VEST, GENESIS_EPOCH),
       ProgramEntry(BUDGET, GENESIS_EPOCH), ProgramEntry(EXCHANGE, GENESIS_EPOCH),
       ProgramEntry(BPF_LOADER, 400)]
    case Testnet =>
      [ProgramEntry(BPF_LOADER_DEPRECATED, GENESIS_EPOCH), ProgramEntry(BPF_LOADER, 89)]
    case MainnetBeta =>
      [ProgramEntry(BPF_LOADER_DEPRECATED, 34), ProgramEntry(BPF_LOADER, EPOCH_MAX)]
  }

  /** Start epochs never decrease along the table. */
  ghost predicate Sorted(t: seq<ProgramEntry>)
  {
    forall i, j :: 0 <= i < j < |t| ==> t[i].start <= t[j].start
  }

  ghost predicate UniqueNames(t: seq<ProgramEntry>)
  {
    forall i, j :: 0 <= i < j < |t| ==> t[i].program.name != t[j].program.name
  }

  ghost predicate UniqueIds(t: seq<ProgramEntry>)
  {
    forall i, j :: 0 <= i < j < |t| ==> t[i].program.id != t[j].program.id
  }

  /** The table invariant: sorted by start epoch, names and ids unique across both kinds. */
  ghost predicate WellFormed(t: seq<ProgramEntry>)
  {
    Sorted(t) && UniqueNames(t) && UniqueIds(t)
  }

  /** Every cluster's table satisfies the invariant and starts no earlier than genesis. */
  lemma ProgramTablesWellFormed(cluster: ClusterType)
    ensures WellFormed(GetPrograms(cluster))
    ensures |GetPrograms(cluster)| > 0 && GetPrograms(cluster)[0].start >= GENESIS_EPOCH
  {
  }

  /** Unique ids make every program occur at most once in a table. */
  lemma UniqueIdsDistinctPrograms(t: seq<ProgramEntry>, i: int, j: int)
    requires UniqueIds(t)
    requires 0 <= i < |t| && 0 <= j < |t| && t[i].program == t[j].program
    ensures i == j
  {
  }

  /** Whether row `e` is a native program active from genesis. */
  predicate IsNativeAtGenesis(e: ProgramEntry)
  {
    e.program.Native? && e.start == GENESIS_EPOCH
  }

  /** Row `e` is the native genesis program named by `p`. */
  predicate NativeRowFor(e: ProgramEntry, p: (string, Pubkey))
  {
    IsNativeAtGenesis(e) && e.program == Native(p.0, p.1)
  }

  /** The `(name, id)` of the native programs active from genesis, in table order. */
  function NativeAtGenesis(t: seq<ProgramEntry>): (r: seq<(string, Pubkey)>)
    ensures |r| <= |t|
    ensures forall k :: 0 <= k < |r| ==> exists i :: 0 <= i < |t| && NativeRowFor(t[i], r[k])
    ensures forall i :: 0 <= i < |t| && IsNativeAtGenesis(t[i]) ==>
              (t[i].program.name, t[i].program.id) in r
  {
    if |t| == 0 then []
    else
      var rest := NativeAtGenesis(t[1..]);
      assert forall i :: 0 < i < |t| ==> t[i] == t[1..][i - 1];
      assert forall k :: 0 <= k < |rest| ==> exists j :: 0 <= j < |t[1..]| && NativeRowFor(t[1..][j], rest[k]);
      assert forall k :: 0 <= k < |rest| ==> exists i :: 0 <= i < |t| && NativeRowFor(t[i], rest[k]);
      if IsNativeAtGenesis(t[0]) then [(t[0].program.name, t[0].program.id)] + rest else rest
  }

  /** The filter keeps table order: filtering a concatenation concatenates the filtered parts. */
  lemma {:induction false} NativeAtGenesisAppend(a: seq<ProgramEntry>, b: seq<ProgramEntry>)
    ensures NativeAtGenesis(a + b) == NativeAtGenesis(a) + NativeAtGenesis(b)
  {
    if |a| > 0 {
      assert (a + b)[1..] == a[1..] + b;
      NativeAtGenesisAppend(a[1..], b);
    } else {
      assert a + b == b;
    }
  }

  /** `get_native_programs_for_genesis`: the loop over the table pushing every native
      program whose start epoch is genesis. */
  method GetNativeProgramsForGenesis(cluster: ClusterType) returns (r: seq<(string, Pubkey)>)
    ensures r == NativeAtGenesis(GetPrograms(cluster))
    ensures forall k :: 0 <= k < |r| ==> Native(r[k].0, r[k].1) in ProgramsOf(GetPrograms(cluster))
  {
    var t := GetPrograms(cluster);
    r := [];
    for i := 0 to |t|
      invariant r == NativeAtGenesis(t[..i])
    {
      assert t[..i + 1] == t[..i] + [t[i]];
      NativeAtGenesisAppend(t[..i], [t[i]]);
      if t[i].program.Native? && t[i].start == GENESIS_EPOCH {
        r := r + [(t[i].program.name, t[i].program.id)];
      }
    }
    assert t[..|t|] == t;
  }

  /** The programs a table mentions. */
  function ProgramsOf(t: seq<ProgramEntry>): set<Program>
  {
    set i | 0 <= i < |t| :: t[i].program
  }
}
