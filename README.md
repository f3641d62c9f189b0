# coveragecollector, modelled in Dafny

coveragecollector is a small command-line tool. It reads one Go coverage
profile in "set" mode and prints the statement coverage of each package.
A package here is the directory of a profiled file. This project models the
aggregation in `main.go` and proves its contracts:

- validating the profile sets (`Collector.Validate`);
- counting covered and total statements of a package (`Collector.Coverage`);
- grouping the profiles' blocks by package and sorting the packages by name
  (`Packages.CollectPackages`, with `Packages.SortByPackage` standing for
  `sort.Slice`);
- the column alignment of the report (`Report.Render`);
- the whole run after parsing (`Report.Run`).

Files:

- `strings.dfy`: module `GoStrings`. Go strings are modelled as byte
  sequences, so `len` counts bytes and `<` is Go's bytewise lexicographic
  order. It also proves that this order is a strict total order.
- `cover.dfy`: module `Cover`, the `Profile` and `ProfileBlock` records of
  `golang.org/x/tools/cover`, used as input data.
- `collector.dfy`: module `Collector`, with the sentinel errors, `Validate`,
  `PackageCoverage` and `Coverage`.
- `packages.dfy`: module `Packages`, with `CollectPackages`, the map
  read-out, the sort and the grouping lemmas.
- `report.dfy`: module `Report`, with the width and padding loops of `main`
  and the run from validation to the printed lines.

`filepath.Dir` is the parameter `dir: GoString -> GoString`. Every grouping
property is proved for every such function. Go map iteration order is
modelled as an arbitrary choice (`:|`). `CollectPackagesDeterministic`
proves that the sorted result does not depend on that choice.

What main.go does not do:

- main.go never deduplicates blocks. It does not merge repeated spans and
  does not sum their hit counts. A package's blocks are just the
  concatenation of its profiles' blocks as the parser returns them
  (main.go:79, main.go:82).
- main.go has no per-file grouping inside a package and no sorting of
  files. Only the package list is sorted (main.go:92).
- main.go adds no special case for a package with zero statements. The
  float division just yields NaN. The model exposes the two integer
  accumulators instead (see "Left out").

## Model

| member | source | states |
|---|---|---|
| `Collector.Validate` | main.go:36-51 | returns `ErrNoProfiles` iff there are no profile sets; `ErrTooManyProfiles` iff there is more than one, whatever the modes; `ErrInvalidMode` iff the single set holds a profile whose mode is not "set"; `nil` iff the single set is all "set" mode |
| `Collector.Coverage` | main.go:58-66 | the loop's `total` is the sum of `NumStmt` over all blocks, and `covered` is the sum over blocks with `Count > 0` |
| `Collector.CoverageBounds` | main.go:58-66 | if no block has a negative statement count, then `0 <= covered <= total` |
| `Collector.CoveredIsTotalOfCovered` | main.go:63-65 | the covered count equals the total count of the sub-list of blocks that ran |
| `Collector.CoveredBlocksMembers` | main.go:63 | a block is counted as covered exactly when it is one of the blocks and its `Count` is positive |
| `Collector.StmtsAppend` | main.go:61-66 | both counts add up over concatenated block lists, so a package's counts are the sums over its profiles |
| `GoStrings.LessIrreflexive` | main.go:92 | no string is `<` itself |
| `GoStrings.LessTransitive` | main.go:92 | Go's string `<` is transitive |
| `GoStrings.LessTotal` | main.go:92 | of two different strings, one is `<` the other |
| `Packages.BlocksOfAbsent` | main.go:76-80 | a package key that no profile seen so far produces has no blocks, so a first profile starts its package with its own blocks |
| `Packages.TableStep` | main.go:75-83 | creating the entry of a new key, or appending to an existing one, keeps the map equal to the grouping of the profiles seen so far: same key set, each entry holding its key and that key's blocks in input order |
| `Packages.TableValues` | main.go:87-90 | reading the map out yields each entry once: the names are exactly the map's keys, no name repeats, and each element is that key's entry |
| `Packages.SortByPackage` | main.go:92 | sorts in place into strictly ascending name order and keeps the same multiset of packages |
| `Packages.CollectPackages` | main.go:71-94 | the result is strictly ascending by package name; its names are exactly the set of `dir(p.FileName)` over all input profiles; each package's blocks are the in-order concatenation of the blocks of every profile in that package |
| `Packages.SortedNamesDistinct` | main.go:92 | in the sorted result no package name occurs twice |
| `Packages.SortedByNamesUnique` | main.go:92 | two strictly sorted package lists with the same set of names have the same name at every position |
| `Packages.CollectPackagesDeterministic` | main.go:71-94 | any two results meeting `CollectPackages`'s contract are equal, so map iteration order cannot change the output |
| `Packages.GatherCovers` | main.go:76-83 | if the names are distinct and cover every package key, the blocks assigned to them are a rearrangement of all input blocks |
| `Packages.CollectPackagesPreservesBlocks` | main.go:76-83 | all packages' blocks together are the same multiset as all input blocks, so the total block count is preserved |
| `Report.SortedNamesCount` | main.go:87-92 | the sorted package list has exactly one entry per distinct package name |
| `Report.MaxNameWidth` | main.go:112-117 | the width is at least every package name's byte length, equals one of them, and is 0 when there are no packages |
| `Report.PaddingShape` | main.go:119 | a name followed by `maxWidth - len + 1` spaces is `maxWidth + 1` bytes long, starts with the name, ends with spaces, and has at least one space |
| `Report.Render` | main.go:112-121 | one line per package, in order; each line's name plus padding is exactly one byte wider than the widest name, with at least one space; each line carries that package's covered and total statement counts |
| `Report.Run` | main.go:106-121 | fails with exactly `Validate`'s error in exactly `Validate`'s cases; otherwise prints one line per distinct package key of the single profile set, and the lines are those of a package list that is strictly ascending by name, names exactly the profiles' keys and holds each key's blocks in input order: line k is package k's name padded to one byte past the widest name, with that package's covered and total counts |

## Left out

- Parsing: the argument loop and `cover.ParseProfiles` (main.go:97-104) do
  file I/O and call a parser whose source is not part of this model. Parsed
  profiles are input values, and `Run` takes them as a parameter.
- `reportErr` and `os.Exit` (main.go:124-127): writing to stderr and ending
  the process. `Run` returns the error as `Failed(err)` instead.
- `Collector.Coverage`: the float division `covered / total` (main.go:68) is left out.
  It gives NaN when `total == 0`. The `%.1f` percentage formatting of the
  report line (main.go:120) is left out too. The model keeps the two integer
  accumulators, and `ReportLine` carries them in place of the formatted
  number.
- `Collector.Coverage`: Go's `int` is 32 or 64 bits wide depending on the
  platform; the model's sums are unbounded, and wrap-around is not modelled.
- `filepath.Dir`: the platform path rules (volume names, `Clean`) come from
  the standard library. `dir` is an arbitrary function parameter.
- Go slice aliasing: the first profile's `Blocks` slice is stored in the map
  and later appended to (main.go:79, main.go:82). That can share memory with
  the input. Blocks are modelled as value sequences, so sharing is not
  captured.
- `PackageCoverage` entries are pointers in Go. In the model they are values
  stored in a `map`, and an update replaces the entry.
- `sort.Slice` is a standard-library algorithm that is not in the source.
  `Packages.SortByPackage` is an insertion sort with the same outcome. Keys
  are distinct, so any correct sort gives the same order.
- The text `coverage (…)%` printed after the padding (main.go:120) is not
  modelled as bytes.
