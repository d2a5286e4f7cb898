/** The table invariant as the repository's uniqueness test checks it, one row at a time. */
module TableInvariants {
  import opened Clock
  import opened Programs

  /** `do_test_uniqueness`: walks the table once, keeping the previous start epoch and the
      sets of ids and names seen so far. A failed `assert!` in the Rust test is `ok == false`. */
  method DoTestUniqueness(programs: seq<ProgramEntry>) returns (ok: bool)
    ensures ok <==> WellFormed(programs)
  {
    var uniqueIds: set<Pubkey> := {};
    var uniqueNames: set<string> := {};
    var prevStart: Epoch := GENESIS_EPOCH;
    for i := 0 to |programs|
      invariant WellFormed(programs[..i])
      invariant uniqueIds == set k | 0 <= k < i :: programs[k].program.id
      invariant uniqueNames == set k | 0 <= k < i :: programs[k].program.name
      invariant prevStart == if i == 0 then GENESIS_EPOCH else programs[i - 1].start
    {
      var next := programs[i];
      if next.start < prevStart {
        assert programs[i - 1].start > programs[i].start;
        return false;
      }
      if next.program.id in uniqueIds {
        var k :| 0 <= k < i && programs[k].program.id == next.program.id;
        assert programs[k].program.id == programs[i].program.id;
        return false;
      }
      uniqueIds := uniqueIds + {next.program.id};
      if next.program.name in uniqueNames {
        var k :| 0 <= k < i && programs[k].program.name == next.program.name;
        assert programs[k].program.name == programs[i].program.name;
        return false;
      }
      uniqueNames := uniqueNames + {next.program.name};
      prevStart := next.start;
      assert programs[..i + 1] == programs[..i] + [next];
    }
    assert programs[..|programs|] == programs;
    return true;
  }

  /** `test_uniqueness`: the check passes on every cluster's table. */
  method TestUniqueness() returns (ok: bool)
    ensures ok
  {
    ProgramTablesWellFormed(Development);
    ProgramTablesWellFormed(Devnet);
    ProgramTablesWellFormed(Testnet);
    ProgramTablesWellFormed(MainnetBeta);
    var a := DoTestUniqueness(GetPrograms(Development));
    var b := DoTestUniqueness(GetPrograms(Devnet));
    var c := DoTestUniqueness(GetPrograms(Testnet));
    var d := DoTestUniqueness(GetPrograms(MainnetBeta));
    ok := a && b && c && d;
  }
}
