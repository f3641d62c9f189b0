/** The parsed profile records that the program consumes. They are the types
    `Profile` and `ProfileBlock` of the package golang.org/x/tools/cover,
    which parses the on-disk profile format; the parser is not part of this
    model, so profiles are plain input values. */
module Cover {
  import opened GoStrings

  /** One instrumented source span: its bounds, how many statements it
      holds and how often it ran (in "set" mode: 0 or 1). */
  datatype ProfileBlock = ProfileBlock(
    startLine: int, startCol: int,
    endLine: int, endCol: int,
    numStmt: int, count: int)

  /** The blocks recorded for one source file, with the profile's mode. */
  datatype Profile = Profile(fileName: GoString, mode: GoString, blocks: seq<ProfileBlock>)
}
