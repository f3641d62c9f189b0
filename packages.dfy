/** `CoverageCollector.CollectPackages` of main.go: every profile's blocks are
    filed under the directory of its file name, and the packages come out
    sorted by name. The directory function (`filepath.Dir`) is a parameter,
    so every property here holds whatever it computes. */
module Packages {
  import opened GoStrings
  import opened Cover
  import opened Collector

  // ---------------------------------------------------------------------
  // The specification of the grouping

  /** All profiles of all profile sets, in the order they are visited. */
  function Flatten(files: seq<seq<Profile>>): seq<Profile>
  {
    if files == [] then [] else Flatten(files[..|files| - 1]) + files[|files| - 1]
  }

  /** The package keys the profiles produce. */
  function PackageKeys(ps: seq<Profile>, dir: GoString -> GoString): set<GoString>
  {
    set p | p in ps :: dir(p.fileName)
  }

  /** The blocks of every profile whose package is `pkg`, concatenated in
      input order. */
  function BlocksOf(ps: seq<Profile>, dir: GoString -> GoString, pkg: GoString): seq<ProfileBlock>
  {
    if ps == [] then []
    else
      var last := ps[|ps| - 1];
      BlocksOf(ps[..|ps| - 1], dir, pkg) + (if dir(last.fileName) == pkg then last.blocks else [])
  }

  /** The blocks of all profiles, concatenated in input order. */
  function AllBlocks(ps: seq<Profile>): seq<ProfileBlock>
  {
    if ps == [] then [] else AllBlocks(ps[..|ps| - 1]) + ps[|ps| - 1].blocks
  }

  /** The package names occurring in a package list. */
  function Names(r: seq<PackageCoverage>): set<GoString>
  {
    set x | x in r :: x.package
  }

  /** Strictly ascending by package name, as `sort.Slice` with `<` leaves a
      list whose names are distinct. */
  predicate StrictlySorted(r: seq<PackageCoverage>)
  {
    forall i, j :: 0 <= i < j < |r| ==> Less(r[i].package, r[j].package)
  }

  predicate DistinctNames(r: seq<PackageCoverage>)
  {
    forall i, j :: 0 <= i < j < |r| ==> r[i].package != r[j].package
  }

  /** The package table after some prefix `seen` of the profiles: one entry
      per key, holding that key and its blocks so far. */
  ghost predicate TableOf(packages: map<GoString, PackageCoverage>, seen: seq<Profile>, dir: GoString -> GoString)
  {
    && packages.Keys == PackageKeys(seen, dir)
    && forall k :: k in packages ==> packages[k] == PackageCoverage(k, BlocksOf(seen, dir, k))
  }

  // ---------------------------------------------------------------------
  // Lemmas that make one step of the grouping loop

  lemma PackageKeysSnoc(ps: seq<Profile>, p: Profile, dir: GoString -> GoString)
    ensures PackageKeys(ps + [p], dir) == PackageKeys(ps, dir) + {dir(p.fileName)}
  {
  }

  lemma BlocksOfSnoc(ps: seq<Profile>, p: Profile, dir: GoString -> GoString, pkg: GoString)
    ensures BlocksOf(ps + [p], dir, pkg)
         == BlocksOf(ps, dir, pkg) + (if dir(p.fileName) == pkg then p.blocks else [])
  {
  }

  /** A package no profile maps to has no blocks. */
  lemma {:induction false} BlocksOfAbsent(ps: seq<Profile>, dir: GoString -> GoString, pkg: GoString)
    requires pkg !in PackageKeys(ps, dir)
    ensures BlocksOf(ps, dir, pkg) == []
  {
    if ps != [] {
      var init, last := ps[..|ps| - 1], ps[|ps| - 1];
      assert ps == init + [last];
      PackageKeysSnoc(init, last, dir);
      BlocksOfAbsent(init, dir, pkg);
    }
  }

  /** Inserting or extending the entry of the next profile's package keeps
      the table equal to the grouping of the profiles seen so far. */
  lemma TableStep(packages: map<GoString, PackageCoverage>, seen: seq<Profile>, p: Profile, dir: GoString -> GoString)
    requires TableOf(packages, seen, dir)
    ensures var pkg := dir(p.fileName);
      TableOf(packages[pkg := PackageCoverage(pkg,
                (if pkg in packages then packages[pkg].blocks else []) + p.blocks)],
              seen + [p], dir)
  {
    var pkg := dir(p.fileName);
    PackageKeysSnoc(seen, p, dir);
    if pkg !in packages {
      BlocksOfAbsent(seen, dir, pkg);
    }
    forall k | k in PackageKeys(seen + [p], dir)
      ensures BlocksOf(seen + [p], dir, k)
           == BlocksOf(seen, dir, k) + (if pkg == k then p.blocks else [])
    {
      BlocksOfSnoc(seen, p, dir, k);
    }
    assert [] + p.blocks == p.blocks;
  }

  lemma FlattenSnoc(files: seq<seq<Profile>>, i: nat)
    requires i < |files|
    ensures Flatten(files[..i + 1]) == Flatten(files[..i]) + files[i]
  {
    assert files[..i + 1][..i] == files[..i];
  }

  lemma NamesSnoc(r: seq<PackageCoverage>, x: PackageCoverage)
    ensures Names(r + [x]) == Names(r) + {x.package}
  {
  }

  lemma NamesOfPermutation(r: seq<PackageCoverage>, s: seq<PackageCoverage>)
    requires multiset(r) == multiset(s)
    ensures Names(r) == Names(s)
    ensures forall x :: x in r <==> x in s
  {
    assert forall x :: x in r <==> x in multiset(r);
    assert forall x :: x in s <==> x in multiset(s);
  }

  // ---------------------------------------------------------------------
  // sort.Slice by package name

  method Swap(a: array<PackageCoverage>, i: int, j: int)
    requires 0 <= i < j < a.Length
    modifies a
    ensures a[i] == old(a[j]) && a[j] == old(a[i])
    ensures forall k :: 0 <= k < a.Length && k != i && k != j ==> a[k] == old(a[k])
    ensures multiset(a[..]) == old(multiset(a[..]))
  {
    a[i], a[j] := a[j], a[i];
  }

  /** Sorts the package list in place, ascending by name; the names are
      distinct, so the order is strict. */
  method SortByPackage(a: array<PackageCoverage>)
    requires DistinctNames(a[..])
    modifies a
    ensures StrictlySorted(a[..])
    ensures multiset(a[..]) == old(multiset(a[..]))
  {
    var i := 0;
    while i < a.Length
      invariant 0 <= i <= a.Length
      invariant forall x, y :: 0 <= x < y < i ==> Less(a[x].package, a[y].package)
      invariant forall x, y :: 0 <= x < y < a.Length ==> a[x].package != a[y].package
      invariant multiset(a[..]) == old(multiset(a[..]))
    {
      var j := i;
      while j > 0 && Less(a[j].package, a[j - 1].package)
        invariant 0 <= j <= i
        invariant forall x, y :: 0 <= x < y <= i && x != j && y != j ==> Less(a[x].package, a[y].package)
        invariant forall y :: j < y <= i ==> Less(a[j].package, a[y].package)
        invariant forall x, y :: 0 <= x < y < a.Length ==> a[x].package != a[y].package
        invariant multiset(a[..]) == old(multiset(a[..]))
      {
        Swap(a, j - 1, j);
        j := j - 1;
      }
      if j > 0 {
        LessTotal(a[j].package, a[j - 1].package);
        forall x | 0 <= x < j - 1
          ensures Less(a[x].package, a[j].package)
        {
          LessTransitive(a[x].package, a[j - 1].package, a[j].package);
        }
      }
      i := i + 1;
    }
  }

  // ---------------------------------------------------------------------
  // CollectPackages

  /** The values of the package table, in an order the model leaves open
      (Go's map iteration order). */
  method TableValues(packages: map<GoString, PackageCoverage>) returns (slice: seq<PackageCoverage>)
    requires forall k :: k in packages ==> packages[k].package == k
    ensures Names(slice) == packages.Keys
    ensures DistinctNames(slice)
    ensures forall x :: x in slice ==> x.package in packages && packages[x.package] == x
  {
    slice := [];
    var remaining := packages.Keys;
    while remaining != {}
      invariant remaining <= packages.Keys
      invariant Names(slice) + remaining == packages.Keys
      invariant Names(slice) !! remaining
      invariant DistinctNames(slice)
      invariant forall x :: x in slice ==> x.package in packages && packages[x.package] == x
      decreases remaining
    {
      var key :| key in remaining;
      assert forall x :: x in slice ==> x.package in Names(slice);
      NamesSnoc(slice, packages[key]);
      slice := slice + [packages[key]];
      remaining := remaining - {key};
    }
  }

  /** Groups the blocks of every profile by package and returns the packages
      strictly ascending by name: one per key that some profile produces,
      holding the blocks of that key's profiles in input order. */
  method CollectPackages(c: CoverageCollector, dir: GoString -> GoString) returns (r: seq<PackageCoverage>)
    ensures StrictlySorted(r)
    ensures Names(r) == PackageKeys(Flatten(c.files), dir)
    ensures forall k :: 0 <= k < |r| ==> r[k].blocks == BlocksOf(Flatten(c.files), dir, r[k].package)
  {
    var packages: map<GoString, PackageCoverage> := map[];
    ghost var seen: seq<Profile> := [];
    var i := 0;
    while i < |c.files|
      invariant 0 <= i <= |c.files|
      invariant seen == Flatten(c.files[..i])
      invariant TableOf(packages, seen, dir)
    {
      var f := c.files[i];
      var j := 0;
      while j < |f|
        invariant 0 <= j <= |f|
        invariant seen == Flatten(c.files[..i]) + f[..j]
        invariant TableOf(packages, seen, dir)
      {
        var p := f[j];
        var pkg := dir(p.fileName);
        TableStep(packages, seen, p, dir);
        if pkg !in packages {
          packages := packages[pkg := PackageCoverage(pkg, p.blocks)];
        } else {
          var pCov := packages[pkg];
          packages := packages[pkg := pCov.(blocks := pCov.blocks + p.blocks)];
        }
        assert f[..j + 1] == f[..j] + [p];
        seen := seen + [p];
        j := j + 1;
      }
      assert f[..j] == f;
      FlattenSnoc(c.files, i);
      i := i + 1;
    }
    assert c.files[..i] == c.files;

    var slice := TableValues(packages);
    var a := new PackageCoverage[|slice|](k requires 0 <= k < |slice| => slice[k]);
    assert a[..] == slice;
    SortByPackage(a);
    r := a[..];
    NamesOfPermutation(r, slice);
  }

  // ---------------------------------------------------------------------
  // Properties of the result

  /** A strictly sorted package list names no package twice. */
  lemma SortedNamesDistinct(r: seq<PackageCoverage>)
    requires StrictlySorted(r)
    ensures DistinctNames(r)
  {
    forall i, j | 0 <= i < j < |r|
      ensures r[i].package != r[j].package
    {
      LessIrreflexive(r[i].package);
    }
  }

  /** Two strictly sorted package lists with the same names have the same
      names at every position. */
  lemma {:induction false} SortedByNamesUnique(r: seq<PackageCoverage>, s: seq<PackageCoverage>)
    requires StrictlySorted(r) && StrictlySorted(s)
    requires Names(r) == Names(s)
    ensures |r| == |s|
    ensures forall k :: 0 <= k < |r| ==> r[k].package == s[k].package
  {
    NamesEmpty(r);
    NamesEmpty(s);
    if r != [] && s != [] {
      var a, b := r[0].package, s[0].package;
      assert a in Names(s);
      assert b in Names(r);
      if a != b {
        var x :| x in s && x.package == a;
        var kx :| 0 <= kx < |s| && s[kx] == x;
        var y :| y in r && y.package == b;
        var ky :| 0 <= ky < |r| && r[ky] == y;
        assert kx > 0 && ky > 0;
        LessTransitive(a, b, a);
        LessIrreflexive(a);
      }
      RestNames(r);
      RestNames(s);
      SortedByNamesUnique(r[1..], s[1..]);
    }
  }

  lemma NamesEmpty(r: seq<PackageCoverage>)
    ensures Names(r) == {} <==> r == []
  {
    if r != [] {
      assert r[0].package in Names(r);
    }
  }

  /** Without its first entry a strictly sorted list loses exactly that
      entry's name. */
  lemma RestNames(r: seq<PackageCoverage>)
    requires StrictlySorted(r) && r != []
    ensures StrictlySorted(r[1..])
    ensures Names(r[1..]) == Names(r) - {r[0].package}
  {
    SortedNamesDistinct(r);
    assert r == [r[0]] + r[1..];
    forall x | x in r[1..]
      ensures x.package != r[0].package
    {
      var k :| 0 <= k < |r[1..]| && r[1..][k] == x;
      assert r[k + 1] == x;
    }
  }

  /** Whatever order the table is read in, the result is the same: it is
      determined by the profiles and the directory function alone. */
  lemma CollectPackagesDeterministic(files: seq<seq<Profile>>, dir: GoString -> GoString,
                                     r: seq<PackageCoverage>, s: seq<PackageCoverage>)
    requires StrictlySorted(r) && StrictlySorted(s)
    requires Names(r) == PackageKeys(Flatten(files), dir) == Names(s)
    requires forall k :: 0 <= k < |r| ==> r[k].blocks == BlocksOf(Flatten(files), dir, r[k].package)
    requires forall k :: 0 <= k < |s| ==> s[k].blocks == BlocksOf(Flatten(files), dir, s[k].package)
    ensures r == s
  {
    SortedByNamesUnique(r, s);
  }

  /** The blocks that `BlocksOf` assigns to the names of `r`, in the order of
      `r`. */
  function Gather(ps: seq<Profile>, dir: GoString -> GoString, r: seq<PackageCoverage>): seq<ProfileBlock>
  {
    if r == [] then [] else Gather(ps, dir, r[..|r| - 1]) + BlocksOf(ps, dir, r[|r| - 1].package)
  }

  /** The blocks of all packages of a list, concatenated in list order. */
  function ConcatBlocks(r: seq<PackageCoverage>): seq<ProfileBlock>
  {
    if r == [] then [] else ConcatBlocks(r[..|r| - 1]) + r[|r| - 1].blocks
  }

  lemma {:induction false} GatherSnoc(ps: seq<Profile>, p: Profile, dir: GoString -> GoString, r: seq<PackageCoverage>)
    requires DistinctNames(r)
    ensures multiset(Gather(ps + [p], dir, r))
         == multiset(Gather(ps, dir, r))
          + (if dir(p.fileName) in Names(r) then multiset(p.blocks) else multiset{})
  {
    if r != [] {
      var init, last := r[..|r| - 1], r[|r| - 1];
      assert r == init + [last];
      NamesSnoc(init, last);
      GatherSnoc(ps, p, dir, init);
      BlocksOfSnoc(ps, p, dir, last.package);
    }
  }

  /** When the names of `r` are distinct and cover every package key, the
      blocks assigned to them are the blocks of all profiles, rearranged. */
  lemma {:induction false} GatherCovers(ps: seq<Profile>, dir: GoString -> GoString, r: seq<PackageCoverage>)
    requires DistinctNames(r)
    requires PackageKeys(ps, dir) <= Names(r)
    ensures multiset(Gather(ps, dir, r)) == multiset(AllBlocks(ps))
  {
    if ps == [] {
      GatherEmpty(dir, r);
    } else {
      var init, last := ps[..|ps| - 1], ps[|ps| - 1];
      assert ps == init + [last];
      PackageKeysSnoc(init, last, dir);
      GatherCovers(init, dir, r);
      GatherSnoc(init, last, dir, r);
    }
  }

  lemma {:induction false} GatherEmpty(dir: GoString -> GoString, r: seq<PackageCoverage>)
    ensures Gather([], dir, r) == []
  {
    if r != [] {
      GatherEmpty(dir, r[..|r| - 1]);
    }
  }

  lemma {:induction false} GatherIsConcat(ps: seq<Profile>, dir: GoString -> GoString, r: seq<PackageCoverage>)
    requires forall k :: 0 <= k < |r| ==> r[k].blocks == BlocksOf(ps, dir, r[k].package)
    ensures ConcatBlocks(r) == Gather(ps, dir, r)
  {
    if r != [] {
      GatherIsConcat(ps, dir, r[..|r| - 1]);
    }
  }

  /** No block is lost or duplicated: the packages' blocks, taken together,
      are exactly the blocks of all input profiles, so the total block count
      is preserved. */
  lemma CollectPackagesPreservesBlocks(files: seq<seq<Profile>>, dir: GoString -> GoString, r: seq<PackageCoverage>)
    requires StrictlySorted(r)
    requires Names(r) == PackageKeys(Flatten(files), dir)
    requires forall k :: 0 <= k < |r| ==> r[k].blocks == BlocksOf(Flatten(files), dir, r[k].package)
    ensures multiset(ConcatBlocks(r)) == multiset(AllBlocks(Flatten(files)))
    ensures |ConcatBlocks(r)| == |AllBlocks(Flatten(files))|
  {
    SortedNamesDistinct(r);
    GatherIsConcat(Flatten(files), dir, r);
    GatherCovers(Flatten(files), dir, r);
    assert |multiset(ConcatBlocks(r))| == |ConcatBlocks(r)|;
    assert |multiset(AllBlocks(Flatten(files)))| == |AllBlocks(Flatten(files))|;
  }
}
