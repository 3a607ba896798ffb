/** What several modules share. */
module Common {
  // param.h
  const MAXOPBLOCKS := 10
  const LOGSIZE := 30
  const NBUF := 30

  /** The values of a 32-bit word. */
  const WORD := 0x1_0000_0000

  /** A value that may be missing. */
  datatype Option<+T> = None | Some(value: T)

  predicate Distinct(s: seq<nat>) {
    forall i, j :: 0 <= i < j < |s| ==> s[i] != s[j]
  }
}
