/** The report printed by `main` in main.go: one line per package, the name
    padded with spaces to a common column, then the package's coverage. */
module Report {
  import opened GoStrings
  import opened Cover
  import opened Collector
  import opened Packages

  /** The widest package name, in bytes; 0 for no packages. */
  function MaxNameWidth(packages: seq<PackageCoverage>): (w: nat)
    ensures forall k :: 0 <= k < |packages| ==> |packages[k].package| <= w
    ensures packages == [] ==> w == 0
    ensures packages != [] ==> exists k :: 0 <= k < |packages| && |packages[k].package| == w
  {
    if packages == [] then 0
    else
      var w := MaxNameWidth(packages[..|packages| - 1]);
      var n := |packages[|packages| - 1].package|;
      if n > w then n else w
  }

  /** One printed line: `padded` is the package name followed by its padding;
      `covered` and `total` are what `Coverage` divides. The text
      `coverage (<percent>)%` that follows `padded` is not modelled. */
  datatype ReportLine = ReportLine(padded: GoString, covered: int, total: int)

  /** `padded` is `name` followed by spaces up to `width + 1` bytes, so at
      least one space separates the name from the coverage column. */
  predicate PaddedTo(padded: GoString, name: GoString, width: nat)
  {
    && |padded| == width + 1
    && |name| < |padded|
    && padded[..|name|] == name
    && forall i :: |name| <= i < |padded| ==> padded[i] == SPACE
  }

  /** `name` plus `width - len(name) + 1` spaces has that shape. */
  lemma PaddingShape(name: GoString, width: nat)
    requires |name| <= width
    ensures PaddedTo(name + Spaces(width - |name| + 1), name, width)
  {
  }

  /** The width loop and the printing loop of `main`. Every name is padded
      to one byte more than the widest name, so the coverage column lines
      up, and each line carries its package's two statement counts. */
  method Render(packages: seq<PackageCoverage>) returns (lines: seq<ReportLine>)
    ensures |lines| == |packages|
    ensures forall k :: 0 <= k < |lines| ==>
      PaddedTo(lines[k].padded, packages[k].package, MaxNameWidth(packages))
    ensures forall k :: 0 <= k < |lines| ==>
      lines[k].covered == CoveredStmts(packages[k].blocks) && lines[k].total == TotalStmts(packages[k].blocks)
  {
    var maxWidth := 0;
    var i := 0;
    while i < |packages|
      invariant 0 <= i <= |packages|
      invariant maxWidth == MaxNameWidth(packages[..i])
    {
      assert packages[..i + 1][..i] == packages[..i];
      if |packages[i].package| > maxWidth {
        maxWidth := |packages[i].package|;
      }
      i := i + 1;
    }
    assert packages[..i] == packages;

    lines := [];
    i := 0;
    while i < |packages|
      invariant 0 <= i <= |packages|
      invariant |lines| == i
      invariant forall k :: 0 <= k < i ==> PaddedTo(lines[k].padded, packages[k].package, maxWidth)
      invariant forall k :: 0 <= k < i ==>
        lines[k].covered == CoveredStmts(packages[k].blocks) && lines[k].total == TotalStmts(packages[k].blocks)
    {
      var p := packages[i];
      var padding := Spaces(maxWidth - |p.package| + 1);
      PaddingShape(p.package, maxWidth);
      var covered, total := Coverage(p);
      lines := lines + [ReportLine(p.package + padding, covered, total)];
      i := i + 1;
    }
  }

  /** What one run of the program produces: the validation error it reports,
      or the lines it prints. */
  datatype Outcome = Failed(err: CollectorError) | Printed(lines: seq<ReportLine>)

  /** `main` after the profiles are parsed: validate, and on success collect
      the packages and render them. The printed lines are those of the
      packages in ascending name order, one per package key, each padded to
      the common column and carrying that package's two statement counts. */
  method Run(files: seq<seq<Profile>>, dir: GoString -> GoString) returns (out: Outcome)
    ensures out == Failed(ErrNoProfiles) <==> |files| == 0
    ensures out == Failed(ErrTooManyProfiles) <==> |files| > 1
    ensures out == Failed(ErrInvalidMode) <==> |files| == 1 && !AllSetMode(files[0])
    ensures out.Printed? <==> |files| == 1 && AllSetMode(files[0])
    ensures out.Printed? ==> |out.lines| == |PackageKeys(files[0], dir)|
    ensures out.Printed? ==> exists r: seq<PackageCoverage> ::
      && StrictlySorted(r)
      && Names(r) == PackageKeys(files[0], dir)
      && (forall k :: 0 <= k < |r| ==> r[k].blocks == BlocksOf(files[0], dir, r[k].package))
      && |out.lines| == |r|
      && (forall k :: 0 <= k < |r| ==>
            && PaddedTo(out.lines[k].padded, r[k].package, MaxNameWidth(r))
            && out.lines[k].covered == CoveredStmts(r[k].blocks)
            && out.lines[k].total == TotalStmts(r[k].blocks))
  {
    var c := CoverageCollector(files);
    var err := Validate(c);
    if err.Some? {
      return Failed(err.value);
    }
    var packages := CollectPackages(c, dir);
    var lines := Render(packages);
    assert Flatten(files) == files[0] by {
      assert files[..0] == [];
    }
    SortedNamesCount(packages);
    return Printed(lines);
  }

  /** A strictly sorted package list has as many entries as names. */
  lemma {:induction false} SortedNamesCount(r: seq<PackageCoverage>)
    requires StrictlySorted(r)
    ensures |Names(r)| == |r|
  {
    NamesEmpty(r);
    if r != [] {
      RestNames(r);
      SortedNamesCount(r[1..]);
    }
  }
}
