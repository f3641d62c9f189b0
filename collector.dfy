/** The coverage collector of main.go: validation of the input profile sets
    and the per-package statement counts. */
module Collector {
  import opened GoStrings
  import opened Cover

  /** The three sentinel errors of main.go. */
  datatype CollectorError = ErrInvalidMode | ErrNoProfiles | ErrTooManyProfiles

  /** A Go `error` result: `None` is `nil`. */
  datatype Option<T> = None | Some(value: T)

  /** The only supported profile mode, the bytes of "set". */
  const SET_MODE: GoString := [0x73, 0x65, 0x74]

  /** The parsed profile sets, one per input file (`NewCoverageCollector`). */
  datatype CoverageCollector = CoverageCollector(files: seq<seq<Profile>>)

  /** True when every profile of the set is in "set" mode. */
  ghost predicate AllSetMode(f: seq<Profile>)
  {
    forall p :: p in f ==> p.mode == SET_MODE
  }

  // ---------------------------------------------------------------------
  // Validate

  /** Checks, in this order: no profile set, more than one profile set,
      a profile whose mode is not "set". */
  method Validate(c: CoverageCollector) returns (err: Option<CollectorError>)
    ensures err == Some(ErrNoProfiles) <==> |c.files| == 0
    ensures err == Some(ErrTooManyProfiles) <==> |c.files| > 1
    ensures err == Some(ErrInvalidMode) <==> |c.files| == 1 && !AllSetMode(c.files[0])
    ensures err == None <==> |c.files| == 1 && AllSetMode(c.files[0])
  {
    if |c.files| == 0 {
      return Some(ErrNoProfiles);
    }
    if |c.files| > 1 {
      return Some(ErrTooManyProfiles);
    }
    var i := 0;
    while i < |c.files|
      invariant 0 <= i <= |c.files|
      invariant forall k :: 0 <= k < i ==> AllSetMode(c.files[k])
    {
      var f := c.files[i];
      var j := 0;
      while j < |f|
        invariant 0 <= j <= |f|
        invariant forall k :: 0 <= k < j ==> f[k].mode == SET_MODE
      {
        if f[j].mode != SET_MODE {
          return Some(ErrInvalidMode);
        }
        j := j + 1;
      }
      i := i + 1;
    }
    return None;
  }

  // ---------------------------------------------------------------------
  // PackageCoverage.Coverage

  /** One package (a directory) and the blocks of all its profiles. */
  datatype PackageCoverage = PackageCoverage(package: GoString, blocks: seq<ProfileBlock>)

  /** Sum of `numStmt` over all blocks. */
  function TotalStmts(bs: seq<ProfileBlock>): int
  {
    if bs == [] then 0 else TotalStmts(bs[..|bs| - 1]) + bs[|bs| - 1].numStmt
  }

  /** Sum of `numStmt` over the blocks that ran (`count > 0`). */
  function CoveredStmts(bs: seq<ProfileBlock>): int
  {
    if bs == [] then 0
    else CoveredStmts(bs[..|bs| - 1]) + (if bs[|bs| - 1].count > 0 then bs[|bs| - 1].numStmt else 0)
  }

  /** The blocks that ran, in order. */
  function CoveredBlocks(bs: seq<ProfileBlock>): seq<ProfileBlock>
  {
    if bs == [] then []
    else CoveredBlocks(bs[..|bs| - 1]) + (if bs[|bs| - 1].count > 0 then [bs[|bs| - 1]] else [])
  }

  /** The two accumulators of `Coverage`: statements covered and statements
      in all. The ratio `covered / total` itself is floating point and is
      not part of the model. */
  method Coverage(p: PackageCoverage) returns (covered: int, total: int)
    ensures total == TotalStmts(p.blocks)
    ensures covered == CoveredStmts(p.blocks)
  {
    total := 0;
    covered := 0;
    var i := 0;
    while i < |p.blocks|
      invariant 0 <= i <= |p.blocks|
      invariant total == TotalStmts(p.blocks[..i])
      invariant covered == CoveredStmts(p.blocks[..i])
    {
      var b := p.blocks[i];
      assert p.blocks[..i + 1][..i] == p.blocks[..i];
      total := total + b.numStmt;
      if b.count > 0 {
        covered := covered + b.numStmt;
      }
      i := i + 1;
    }
    assert p.blocks[..i] == p.blocks;
  }

  /** With non-negative statement counts the covered count lies between zero
      and the total. */
  lemma {:induction false} CoverageBounds(bs: seq<ProfileBlock>)
    requires forall b :: b in bs ==> b.numStmt >= 0
    ensures 0 <= CoveredStmts(bs) <= TotalStmts(bs)
  {
    if bs != [] {
      var init := bs[..|bs| - 1];
      assert forall b :: b in init ==> b in bs;
      CoverageBounds(init);
    }
  }

  /** The covered count is the total of the blocks that ran. */
  lemma {:induction false} CoveredIsTotalOfCovered(bs: seq<ProfileBlock>)
    ensures CoveredStmts(bs) == TotalStmts(CoveredBlocks(bs))
  {
    if bs != [] {
      var init, last := bs[..|bs| - 1], bs[|bs| - 1];
      CoveredIsTotalOfCovered(init);
      var extra := if last.count > 0 then [last] else [];
      StmtsAppend(CoveredBlocks(init), extra);
      assert TotalStmts(extra) == (if last.count > 0 then last.numStmt else 0) by {
        if last.count > 0 {
          assert extra[..0] == [];
        }
      }
    }
  }

  /** The blocks that ran are exactly the input blocks whose count is
      positive. */
  lemma {:induction false} CoveredBlocksMembers(bs: seq<ProfileBlock>)
    ensures forall b :: b in CoveredBlocks(bs) <==> b in bs && b.count > 0
  {
    if bs != [] {
      var init, last := bs[..|bs| - 1], bs[|bs| - 1];
      CoveredBlocksMembers(init);
      assert bs == init + [last];
    }
  }

  /** Both accumulators add up over concatenated block lists, so a package's
      counts are the sums of the counts of its profiles. */
  lemma {:induction false} StmtsAppend(a: seq<ProfileBlock>, b: seq<ProfileBlock>)
    ensures TotalStmts(a + b) == TotalStmts(a) + TotalStmts(b)
    ensures CoveredStmts(a + b) == CoveredStmts(a) + CoveredStmts(b)
  {
    if b != [] {
      var init := b[..|b| - 1];
      assert (a + b)[..|a + b| - 1] == a + init;
      StmtsAppend(a, init);
    } else {
      assert a + b == a;
    }
  }
}
