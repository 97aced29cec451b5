/** What the alignment of an observation yields. */
module Alignments {
  import opened Wrappers
  import opened EditScript
  import opened Corpus

  datatype AlignmentPath = AlignmentPath(
    score: real,
    editCount: nat,
    matchedLookaheadCount: nat,
    operations: seq<Operation>)

  /** The number of consecutive matches from position k on. */
  function MatchRun(ops: seq<Operation>, k: nat): nat
    decreases |ops| - k
  {
    if k < |ops| && ops[k].Match? then 1 + MatchRun(ops, k + 1) else 0
  }

  datatype AlignmentCandidate = AlignmentCandidate(
    symbolIndex: nat,
    location: Location,
    alignment: AlignmentPath,
    score: real,
    scoreMargin: real,
    cursorDistance: nat,
    continuity: real,
    forwardMovement: nat,
    isReread: bool)

  /** The best two candidates of an observation. */
  datatype Located = Located(best: Option<AlignmentCandidate>, second: Option<AlignmentCandidate>)
}
