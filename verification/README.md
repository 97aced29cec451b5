# QARAA verification

QARAA aligns a stream of spoken phonemes with a fixed text. This project models the parts of it in
which something can go subtly wrong and proves what they promise:

- **Alignment** (`EditScript`, `Alignments`, `EditPath`): the edit-distance table in reused storage, its backtrace, and the
  score. The result depends on the two sequences only, is a complete edit script of minimal cost, and is the
  one script that, read from its end, prefers matches, substitutions, deletions and insertions in this order.
- **Corpus** (`Corpus`, `ValidateCorpus`, `Observations`, `IndexCorpus`): several local checks together imply
  that words and ayat cut the symbol array into consecutive pieces; the index of a valid corpus is exact.
- **Retrieval and location** (`Postings`, `LocalCandidates`, `NgramQueries`, `GlobalSearch`, `Candidates`,
  `Sorting`, `Locate`): budgeted lookups, capped candidate sets and the ranking of evaluated positions. The
  whole search is a function of its inputs, the in-place methods compute it, and what it finds is proved of
  the function; so where an observation is located is a function of corpus, observation, cursor and commit
  point.
- **Reading tracker** (`Confidence`, `Findings`, `WordProgress`, `TouchedWords`, `TrackerModel`,
  `TrackerTheorems`, `CandidateTheorems`, `LocatedObservations`, `ReadingTracker`): one submission or reset as a
  step on values, the class that performs it in place, and what holds over every run: commit point, completed
  words, dedup window, confirmations.
- **Session service** (`SessionProtocol`, `SessionTheorems`, `ServiceModel`, `ListenerCalls`, `SessionService`): per-session
  queues of operations that suspend in the middle, stored records, live streams and capacity limits, as a
  transition system whose steps end only where the program awaits, and the class that takes these steps.
- **Remote client** (`RemoteClient`, `RemoteWorld`, `RemoteListeners`, `RemoteTheorems`, `RemoteSession`,
  `RemoteServer`): the client, whose listeners may call back into it, together with one server session, which
  may have a past of its own, over a network that loses requests or responses; and the proof that in every run
  this server does and answers what the session service does.
- **Plain JSON check** (`PlainJson`): the explicit-stack search refines a recursive definition on any finite
  object graph, cyclic or not.

Code that changes state step by step is modelled by classes and methods with loops, and each method is
proved against functions or predicates about which the theorems are stated. Scores are exact reals.

Three laws that one would expect of the client are false as usually put; each has a run that shows it and
the exact condition under which it holds.

- Between two resets that the client knows to have succeeded, an observation can advance the server twice:
  when the responses to the submission and to a reset after it are lost, the server has been reset although
  the client has been told of a failure, and the client holds no acknowledgement that would keep it from
  submitting again (`RemoteTheorems.LostResetAdvancesTwice`, `RemoteTheorems.AdvancesAgainIffResetLost`).
- A submission can be answered from an acknowledgement that is older than a reset which took effect, when
  only the reset's response is lost (`RemoteTheorems.LostResetAnswersFromBefore`,
  `RemoteTheorems.AcknowledgementHoldsIff`).
- A listener can be called twice with one revision: when it is subscribed again with the revision it was
  last called with, or when it is subscribed during a notification whose turn for it is yet to come or has
  been, by a listener called in the same notification (`RemoteTheorems.ResubscribedListenerSeesRevisionTwice`,
  `RemoteTheorems.OvertakenListenerSeesRevisionTwice`). Its revisions strictly increase exactly when it is
  never subscribed, outside a notification, with the revision it was last called with or again in the course
  of its own subscription, and during a notification not at all if its own turn comes and otherwise at most
  once (`RemoteTheorems.ListenersSeeIncreasingRevisions`).

## Model

| member | source | states |
|---|---|---|
| EditScript.Neighbours | packages/core/src/alignment/edit-path.ts:91-95 | neighbouring distances differ by at most one |
| EditScript.DiagonalNeighbours | packages/core/src/alignment/edit-path.ts:85-89 | the diagonal distance is at most one more than either side neighbour |
| EditScript.EqualPhonemesTakeDiagonal | packages/core/src/alignment/edit-path.ts:85-89 | taking the diagonal unconditionally on equal phonemes gives the minimum of all three moves |
| EditScript.DistanceBounds | packages/core/src/alignment/edit-path.ts:72-106 | a distance lies between the difference and the maximum of the lengths, so table entries fit their storage |
| EditScript.DistanceIsZeroOnlyWhenEqual | packages/core/src/alignment/edit-path.ts:162-166 | the distance is zero exactly for equal sequences |
| EditScript.ScriptToIsComplete | packages/core/src/alignment/edit-path.ts:108-150 | scripts built step by step are exactly the complete scripts: every actual and reference index once, in order, matches equal, substitutions unequal |
| EditScript.ScriptCostsAtLeastDistance | packages/core/src/alignment/edit-path.ts:150-153 | no complete script costs less than the edit distance |
| EditScript.CanonicalIsOptimalTo | packages/core/src/alignment/edit-path.ts:91-101 | following the recorded directions backwards gives a complete script whose cost is the edit distance |
| EditScript.CanonicalIsPreferredTo | packages/core/src/alignment/edit-path.ts:96-100 | among all optimal scripts it is preferred, read from the end: match, substitution, deletion, insertion |
| EditScript.PreferenceIsAntisymmetric | packages/core/src/alignment/edit-path.ts:96-100 | only one script can be the preferred one |
| EditPath.AlignmentIsMinimalScript | packages/core/src/alignment/edit-path.ts:57-170 | the returned operations are a complete script, editCount counts its edits, equals the edit distance and is minimal over all scripts |
| EditPath.AlignmentIsPreferredScript | packages/core/src/alignment/edit-path.ts:57-170 | the returned operations are the preferred optimal script |
| EditPath.AlignmentScore | packages/core/src/alignment/edit-path.ts:162-166 | the score lies in the unit interval and is one exactly for equal sequences |
| EditPath.FillFirstRow | packages/core/src/alignment/edit-path.ts:72-76 | the first row of distances and directions is that of the empty actual sequence, whatever the storage held before |
| EditPath.FillRow | packages/core/src/alignment/edit-path.ts:78-101 | one row of distances and directions is computed from the row before, inside the storage |
| EditPath.Backtrace | packages/core/src/alignment/edit-path.ts:108-150 | every direction read was written in this call, and the walk yields the preferred script |
| EditPath.CountEdits | packages/core/src/alignment/edit-path.ts:151-153 | the number of operations other than matches |
| EditPath.CountLookahead | packages/core/src/alignment/edit-path.ts:154-161 | the number of matches directly after the first edit |
| EditPath.Align | packages/core/src/alignment/edit-path.ts:57-170 | fails exactly when a sequence exceeds the capacity; otherwise the result is a function of the two sequences alone, at the cost of one table cell per pair of phonemes |
| EditPath.AlignmentWorkspace.constructor | packages/core/src/alignment/edit-path.ts:28-39 | the storage has room for the whole table of the given capacities |
| PlainJson.ArrayKeysByCount | packages/protocol/src/errors.ts:21-33 | counting own keys and finding each index is the same as having exactly the keys of a dense array |
| PlainJson.PlainArrayValues | packages/protocol/src/errors.ts:21-33 | yields the elements in order exactly for plain dense arrays with data properties |
| PlainJson.PlainObjectValues | packages/protocol/src/errors.ts:35-47 | yields the values exactly for plain records with enumerable string-keyed data properties |
| PlainJson.CheckDecidesPlainGraph | packages/protocol/src/errors.ts:50-88 | the recursive check with an active-path set holds exactly when every reachable node is plain and no path repeats a container |
| PlainJson.ExitsAreActivePath | packages/protocol/src/errors.ts:58-61 | the containers of the exit frames on the stack form a path from the root in which each is entered once |
| PlainJson.PushChildren | packages/protocol/src/errors.ts:78-81 | children are pushed so that the first one is searched first, on top of their container's exit frame |
| PlainJson.IsPlainJsonValue | packages/protocol/src/errors.ts:50-88 | terminates on every finite object graph and returns true exactly when every reachable node is plain and no cycle is reachable; shared children are accepted |
| Corpus.ChecksOfValidCorpus | packages/core/src/corpus/validate.ts:86-137 | a corpus has no defect exactly when each of the local checks holds |
| Corpus.SymbolsOrderedThroughout | packages/core/src/corpus/validate.ts:98-100 | comparing neighbours orders all symbols |
| Corpus.GroupsTile | packages/core/src/corpus/validate.ts:116-129 | increasing groups with ordered owners are consecutive intervals |
| Corpus.GroupsCover | packages/core/src/corpus/validate.ts:134-136 | together they cover every position |
| Corpus.WordsTileSymbols | packages/core/src/corpus/validate.ts:106-136 | in a valid corpus the words tile the symbol array in word order without gap or overlap |
| ValidateCorpus.ValidateSymbols | packages/core/src/corpus/validate.ts:92-104 | accepts exactly well-formed, distinctly named symbols in strictly increasing order and returns their index table |
| ValidateCorpus.ValidateWordSymbols | packages/core/src/corpus/validate.ts:116-129 | accepts exactly a word whose symbols exist, lie at its location, increase, and belong to no other word |
| ValidateCorpus.ValidateWords | packages/core/src/corpus/validate.ts:106-132 | accepts exactly well-formed, distinctly named, ordered words that share no symbol |
| ValidateCorpus.AllReferenced | packages/core/src/corpus/validate.ts:134-136 | accepts exactly when every symbol belongs to a word |
| ValidateCorpus.Validate | packages/core/src/corpus/validate.ts:86-137 | accepts exactly the corpora without defect and otherwise reports a defect that the corpus has, the first one met |
| ValidateCorpus.OneFirstDefect | packages/core/src/corpus/validate.ts:86-137 | which defect is reported is determined: names, then symbols in order, then words and their ids in order, then missing references |
| Observations.ValidateToken | packages/core/src/corpus/validate.ts:139-164 | accepts a token exactly when its timestamps continue the earlier ones and its confidence lies in the unit interval |
| Observations.ValidateTokens | packages/core/src/corpus/validate.ts:186-205 | accepts exactly distinctly named tokens with proper timestamps and at most 128 phonemes in all |
| Observations.Validate | packages/core/src/corpus/validate.ts:167-206 | accepts exactly the valid observations and otherwise reports the first reason met |
| Observations.OneRejection | packages/core/src/corpus/validate.ts:167-206 | which reason is reported is determined: the observation itself before its tokens, and these in order |
| IndexCorpus.RangesOfValidCorpus | packages/core/src/corpus/index-corpus.ts:98-102 | each word's range starts where the words before it end, has the length of its symbol list, and the ranges tile the corpus |
| IndexCorpus.NextAyahIsNew | packages/core/src/corpus/index-corpus.ts:104-116 | no ayah key is written twice |
| IndexCorpus.AyatTile | packages/core/src/corpus/index-corpus.ts:104-116 | every position lies in the range of its own ayah, and a range that does not start at zero starts where the one before it ends |
| IndexCorpus.AyatDisjoint | packages/core/src/corpus/index-corpus.ts:104-116 | ranges of different ayat have no position in common |
| IndexCorpus.IndexAyat | packages/core/src/corpus/index-corpus.ts:104-116 | the ranges found by scanning are those of all ayat |
| IndexCorpus.LongerKey | packages/core/src/corpus/index-corpus.ts:74-77 | at one start different lengths never give the same joined key |
| IndexCorpus.PushKeepsPostings | packages/core/src/corpus/index-corpus.ts:76-79 | adding a start keeps every list strictly increasing and exact so far |
| IndexCorpus.AddNgramPostings | packages/core/src/corpus/index-corpus.ts:72-83 | each list is strictly increasing and holds exactly the starts at which one to three joined phonemes equal its key |
| IndexCorpus.Index | packages/core/src/corpus/index-corpus.ts:89-126 | indexes exactly the valid corpora, and the index has all properties later code relies on |
| Postings.BitsIsLogarithm | packages/core/src/alignment/candidates.ts:129-138 | the bound on inspections is floor(log2 length) + 1 |
| Postings.CompareIsWalkOrder | packages/core/src/alignment/candidates.ts:31-38 | comparing around the cursor is a total order by distance in which the left one of two equally distant positions comes first |
| Postings.LowerBound | packages/core/src/alignment/candidates.ts:123-139 | finds the first posting not below the target, spends at most floor(log2 length) + 1 inspections, and gives up only when the budget is too small |
| Postings.NearestFirstIsUnique | packages/core/src/alignment/candidates.ts:156-182 | there is only one way to take k postings nearest first |
| Postings.WindowIsNearestFirst | packages/core/src/alignment/candidates.ts:156-182 | the postings between the two ends of the walk are the nearest ones |
| Postings.PostingCursor.TakenNearestFirst | packages/core/src/alignment/candidates.ts:156-182 | after any number of takes the taken postings are the nearest ones, nearest first, without repetition |
| Postings.CreatePostingCursor | packages/core/src/alignment/candidates.ts:141-154 | places the walk at the cursor or has used up the budget |
| Postings.TakeNearestPosting | packages/core/src/alignment/candidates.ts:156-182 | takes the next nearest posting for at most two inspections; takes none only at the end of the list or of the budget |
| LocalCandidates.LocalPositionsSpread | packages/core/src/alignment/candidates.ts:40-108 | the collected positions are the cursor's surroundings, the end of the previous ayah and the forward positions, as many as fit |
| LocalCandidates.LocalPositionsCorrect | packages/core/src/alignment/candidates.ts:40-108 | local candidates are distinct, in range, number min(48, total), contain everything when it fits, and otherwise the nearest positions of the active ayah and the last of the previous one |
| LocalCandidates.LocalPositions | packages/core/src/alignment/candidates.ts:40-108 | the loop collects these positions |
| NgramQueries.SampledOffsetsSpread | packages/core/src/alignment/candidates.ts:205-211 | sampled offsets are strictly increasing, in range, as many as allowed, and reach from the first to the last |
| NgramQueries.QueriesBounded | packages/core/src/alignment/candidates.ts:217-226 | at most 48 n-grams are sampled, all inside the observation |
| NgramQueries.QueryAnchors | packages/core/src/alignment/candidates.ts:213-237 | every sampled n-gram is looked up, and the anchors are those that occur, rarest first |
| NgramQueries.AnchorsOfQueries | packages/core/src/alignment/candidates.ts:221-230 | no sampled n-gram that occurs in the corpus is missing among the anchors |
| GlobalSearch.StartIsAdded | packages/core/src/alignment/candidates.ts:184-188 | a start joins the candidates only when it is in range and new, and always when there is room |
| GlobalSearch.NeighboursAreAdded | packages/core/src/alignment/candidates.ts:190-203 | adds only neighbours up to three positions away, and all of them while there is room |
| GlobalSearch.TakeWalksOn | packages/core/src/alignment/candidates.ts:156-182 | a take extends the walked stretch of a list by its next posting, or the list or the budget is used up |
| GlobalSearch.OpenUpToIsOk | packages/core/src/alignment/candidates.ts:251-262 | when the first postings are taken, each list has been walked by at most one posting, whose exact start has been tried |
| GlobalSearch.NeighboursReached | packages/core/src/alignment/candidates.ts:264-273 | then everything up to three positions around these postings has been tried, unless the set is full |
| GlobalSearch.FillKeeps | packages/core/src/alignment/candidates.ts:279-294 | each further take keeps: whatever has been walked of any list has been tried with its neighbours, unless the set is full |
| GlobalSearch.RoundSpends | packages/core/src/alignment/candidates.ts:277-296 | a round that spends nothing of a budget that is not used up has found every list used up |
| GlobalSearch.RoundsKeep | packages/core/src/alignment/candidates.ts:277-296 | the rounds end, and then the set is full, the budget spent, or every list used up |
| GlobalSearch.ExhaustedIsComplete | packages/core/src/alignment/candidates.ts:239-297 | when all lists are used up, every occurrence of every sampled n-gram has been tried with its neighbours |
| GlobalSearch.SearchedExtends | packages/core/src/alignment/candidates.ts:239-297 | the given candidates stay the prefix, and everything added is within three positions of an occurrence |
| GlobalSearch.SearchFinds | packages/core/src/alignment/candidates.ts:239-297 | at most 64 distinct candidates in range after at most 128 inspections, and no occurrence is missed unless room or inspections run out |
| Candidates.CandidateSet.AddStart | packages/core/src/alignment/candidates.ts:184-188 | adds in place what the search says |
| Candidates.CandidateSet.AddDisplacedStarts | packages/core/src/alignment/candidates.ts:190-203 | the loop over distances adds the neighbours in the order of the search |
| Candidates.TakeFirstPostings | packages/core/src/alignment/candidates.ts:251-262 | candidates, budget and cursors end where the search has them after one exact hypothesis per anchor |
| Candidates.AddNeighbours | packages/core/src/alignment/candidates.ts:264-273 | candidates end where the search has them after the neighbours |
| Candidates.FillAt | packages/core/src/alignment/candidates.ts:280-294 | one take moves one cursor, the candidates and the budget as the search says and leaves the other cursors alone |
| Candidates.FillRound | packages/core/src/alignment/candidates.ts:279-294 | one round does so for all cursors in order |
| Candidates.FillSpareCapacity | packages/core/src/alignment/candidates.ts:277-296 | the loop over rounds ends where the search ends |
| Candidates.AddGlobalCandidates | packages/core/src/alignment/candidates.ts:239-297 | the candidates are exactly those of the search, in its order, and the inspections those it spends; with all that is proved of the search |
| Candidates.RetrieveCandidatePositions | packages/core/src/alignment/candidates.ts:303-316 | returns a function of its inputs: at most 64 distinct positions in range, the local ones first, and on request those of the search |
| Sorting.SortOrders | packages/core/src/alignment/candidates.ts:231-235 | sorting by a weak order leaves nothing out of order |
| Sorting.SortKeepsElements | packages/core/src/alignment/locate.ts:167-167 | sorting keeps the elements |
| Locate.BestOfIsUnique | packages/core/src/alignment/locate.ts:57-80 | the best span and the true second-best score of a candidate are determined |
| Locate.CandidateIsBestSpan | packages/core/src/alignment/locate.ts:37-94 | a candidate carries the best of all its spans, and its margin is the best score minus the true second best |
| Locate.EvaluateCandidate | packages/core/src/alignment/locate.ts:37-94 | the capacity error cannot occur, and one candidate costs at most 114,688 table cells |
| Locate.SpanCellsBounded | packages/core/src/alignment/locate.ts:48-56 | at most seven spans of bounded length are aligned |
| Locate.RankingIsTotal | packages/core/src/alignment/locate.ts:96-103 | the six-key ranking is a strict total order on candidates at different positions |
| Locate.SortedTopTwo | packages/core/src/alignment/locate.ts:167-171 | the first two after sorting are the best two of all candidates |
| Locate.TopTwoIgnoresOrder | packages/core/src/alignment/locate.ts:167-171 | the answer depends on which positions were evaluated, not on their order |
| Locate.LocationIsUnique | packages/core/src/alignment/locate.ts:106-172 | the evaluated positions, the candidates and the result are determined by corpus, observation, cursor and commit point |
| Locate.EvaluatePositions | packages/core/src/alignment/locate.ts:129-144 | each position is evaluated once, over both phases |
| Locate.EvaluateAndRank | packages/core/src/alignment/locate.ts:121-171 | at most 64 positions and 7,340,032 table cells; global positions are evaluated exactly when no local candidate reaches 0.72, and then no occurrence is missed unless room or inspections run out |
| Locate.LocateObservation | packages/core/src/alignment/locate.ts:106-172 | rejects exactly the invalid observations; otherwise the top two of the candidates at these positions, or none for an empty observation or corpus |
| Confidence.AlignedAcousticConfidence | packages/core/src/confidence/score.ts:22-40 | the mean of the usable per-phoneme confidences, when there is one per phoneme |
| Confidence.ScoreInUnit | packages/core/src/confidence/score.ts:43-69 | all components and the combined score lie in the unit interval |
| Confidence.ScoreConfidence | packages/core/src/confidence/score.ts:43-69 | computes this score |
| Findings.SubstitutionFromIsFirst | packages/core/src/findings/classify.ts:34-39 | the selected operation is the first substitution |
| Findings.AdjustedIsRescored | packages/core/src/findings/classify.ts:62-73 | adjusting the combined score for another lookahead equals scoring afresh with that lookahead |
| Findings.DeriveSubstitutionEvidence | packages/core/src/findings/classify.ts:55-75 | selects the substitution with its own lookahead, none for rereads |
| Findings.CountFindingContextPhonemes | packages/core/src/tracking/reading-tracker.ts:179-199 | the number of matches around the substitution, cut off at four |
| WordProgress.WordAtContains | packages/core/src/tracking/reading-tracker.ts:90-98 | every position lies in exactly the word found for it |
| WordProgress.CommitTouchedIsCommitAll | packages/core/src/tracking/reading-tracker.ts:308-353 | committing the touched words equals committing over all words of the corpus in order |
| WordProgress.CommitWordsKeep | packages/core/src/tracking/reading-tracker.ts:348-351 | completed words stay in strictly increasing corpus order, grow only at the end, and the commit point stays the maximum of the initial symbol and their last symbols |
| WordProgress.CommitIsSupported | packages/core/src/tracking/reading-tracker.ts:336-346 | a new commit point is a consumed position; for partial observations the two positions after it are matched |
| TouchedWords.OrderedWordsAreInCorpusOrder | packages/core/src/tracking/reading-tracker.ts:84-88 | sorting by range leaves the words in corpus order |
| TouchedWords.WordIdsBySymbol | packages/core/src/tracking/reading-tracker.ts:90-98 | every symbol gets the id of the word that contains it |
| TouchedWords.ActiveReferenceOffset | packages/core/src/tracking/reading-tracker.ts:123-131 | the highest reference index paired with a spoken phoneme |
| TouchedWords.ConsumedAndMatched | packages/core/src/tracking/reading-tracker.ts:312-319 | the positions paired and the positions matched by the alignment |
| TouchedWords.SupportWithin | packages/core/src/tracking/reading-tracker.ts:312-319 | what an alignment consumes lies between its start and its active position |
| TouchedWords.CollectTouchedWordIds | packages/core/src/tracking/reading-tracker.ts:138-161 | the touched ids are those of a stretch of consecutive words, in corpus order, each once |
| TrackerModel.OwnLocationIsFound | packages/core/src/tracking/reading-tracker.ts:78-82 | a symbol's own location leads back to that symbol |
| CandidateTheorems.CandidateIsAligned | packages/core/src/alignment/locate.ts:37-94 | every candidate aligns the whole observation with the symbols from its position on |
| TrackerTheorems.StartKeeps | packages/core/src/tracking/reading-tracker.ts:355-375 | start and reset establish the tracker's invariant; a reset takes the next revision |
| TrackerTheorems.RememberKeeps | packages/core/src/tracking/reading-tracker.ts:270-276 | id set and id queue stay in agreement, at most 512 long, without repetition |
| TrackerTheorems.TouchedCommitIsFullCommit | packages/core/src/tracking/reading-tracker.ts:308-353 | for every located observation, committing touched words loses nothing against scanning the corpus |
| TrackerTheorems.MoveKeeps | packages/core/src/tracking/reading-tracker.ts:410-422 | the reread flag, computed before words are committed, is right afterwards; a partial observation that commits leaves two positions between commit point and cursor |
| TrackerTheorems.SubmitKeeps | packages/core/src/tracking/reading-tracker.ts:382-459 | every submission keeps: display at the cursor, reread exactly in front of the commit point, completed words in order and only appended to, commit point never back |
| TrackerTheorems.AcceptAdvances | packages/core/src/tracking/reading-tracker.ts:387-458 | an accepted submission advances the revision by one and takes over id and source revision |
| TrackerTheorems.FindingIsSound | packages/core/src/tracking/reading-tracker.ts:425-439 | a finding names two different phonemes at a symbol between the old commit point and the new cursor, and the display moves with it |
| TrackerTheorems.FindingIsRescored | packages/core/src/findings/classify.ts:93-124 | a finding comes only with a position that passes the gate and carries the score recomputed with the substitution's own lookahead, in the unit interval |
| TrackerTheorems.TrailingRunIsMaximal | packages/core/src/tracking/reading-tracker.ts:56-69 | the run of agreeing contributions is the longest suffix of them |
| TrackerTheorems.SubmitExtendsTrace | packages/core/src/tracking/reading-tracker.ts:283-306 | the provisional finding counts exactly the maximal suffix of accepted observations with the same eligible fingerprint |
| TrackerTheorems.SoftFindingIsConfirmed | packages/core/src/findings/classify.ts:84-88 | a soft finding is backed by at least two consecutive agreeing observations |
| TrackerTheorems.FingerprintIdentifies | packages/core/src/tracking/reading-tracker.ts:201-211 | equal fingerprints stand for the same phoneme spoken at the same symbol, when ids and phonemes do not contain the separator |
| TrackerTheorems.FindingExactlyWhen | packages/core/src/findings/classify.ts:77-124 | a finding appears exactly when an unread substitution passes the position gate and the immediate gate, the final gate on a final observation, or agrees with the observation before it; it is marked with the first of these |
| TrackerTheorems.StabilityIsAgreement | packages/core/src/tracking/reading-tracker.ts:163-169 | stability is a share, and full exactly when both remembered hypotheses agree with this one |
| TrackerTheorems.RunInvariant | packages/core/src/tracking/reading-tracker.ts:377-462 | every reachable state satisfies the invariant, remembers the last 512 ids accepted since the last reset, and counts agreeing contributions since then; ignored inputs change nothing |
| TrackerTheorems.ProgressBetweenResets | packages/core/src/tracking/reading-tracker.ts:308-375 | between resets completed words are only appended and the commit point never moves back |
| ReadingTracker.WordsById | packages/core/src/tracking/reading-tracker.ts:100-111 | every word is found under its id with its range |
| ReadingTracker.StabilityOf | packages/core/src/tracking/reading-tracker.ts:163-169 | the share of the history that equals the hypothesis |
| LocatedObservations.LocatedIsGood | packages/core/src/tracking/reading-tracker.ts:390-392 | what the aligner returns is aligned from the tracker's own commit point |
| LocatedObservations.IndexIsUnique | packages/core/src/corpus/index-corpus.ts:89-126 | there is only one index of the same symbols and words |
| LocatedObservations.LocatedInIsUnique | packages/core/src/tracking/reading-tracker.ts:390-392 | where an observation is located is determined by words, symbols, observation, cursor and commit point |
| LocatedObservations.LocationExists | packages/core/src/alignment/locate.ts:106-172 | every observation with phonemes is located somewhere in an indexed corpus that is not empty |
| ReadingTracker.MarginIsLead | packages/core/src/tracking/reading-tracker.ts:171-176 | the location margin is the exact lead of the best candidate over the second; the ranking never lets it be negative |
| ReadingTracker.ReadingTracker.Create | packages/core/src/tracking/reading-tracker.ts:231-268 | fails exactly for an empty corpus or an unknown location |
| ReadingTracker.ReadingTracker.RememberObservationId | packages/core/src/tracking/reading-tracker.ts:270-276 | appends to the window and drops the oldest id beyond 512 |
| ReadingTracker.ReadingTracker.RememberHypothesis | packages/core/src/tracking/reading-tracker.ts:278-281 | appends to the history and drops the oldest entry beyond two |
| ReadingTracker.ReadingTracker.UpdateProvisionalFinding | packages/core/src/tracking/reading-tracker.ts:283-306 | advances or clears the provisional finding |
| ReadingTracker.ReadingTracker.CommitSupportedWords | packages/core/src/tracking/reading-tracker.ts:308-353 | commits the touched words that are consumed and have their lookahead, in place |
| ReadingTracker.ReadingTracker.Submit | packages/core/src/tracking/reading-tracker.ts:382-459 | rejects invalid observations without effect, ignores duplicates and stale ones, and otherwise takes the modelled step for where the aligner located the observation |
| ReadingTracker.ReadingTracker.Reset | packages/core/src/tracking/reading-tracker.ts:355-375 | an unknown location has no effect; otherwise everything but the revision starts over |
| SessionTheorems.RetainedAreConsecutive | packages/server/src/session-service.ts:418-427 | the record keeps the last min(256, r + 1) consecutive revisions ending at the current one |
| SessionTheorems.AboveIsSuffix | packages/server/src/session-service.ts:514-515 | filtering by revision cuts a suffix |
| SessionTheorems.ResumeReplaysRetained | packages/server/src/session-service.ts:510-524 | resuming replays exactly the retained revisions above the given one, up to the current one |
| SessionTheorems.PublishCatchesUp | packages/server/src/session-service.ts:340-351 | publishing brings every remaining subscriber up to date, once |
| SessionTheorems.RegisterKeeps | packages/server/src/session-service.ts:526-560 | a subscription starts at the oldest retained revision above the last one seen, or else at the next one published, and is up to date after its replay |
| SessionTheorems.RecordKnowsDuplicates | packages/server/src/session-service.ts:463-478 | the record recognises exactly the duplicates and stale observations that the tracker would ignore |
| SessionTheorems.SubmissionAdvances | packages/server/src/session-service.ts:463-493 | a submission that passes the record's checks advances the tracker by exactly one, so the exit for an unchanged revision is never taken, and the record keeps mirroring the tracker |
| SessionTheorems.CreateKeeps | packages/server/src/session-service.ts:353-393 | each step of a creation keeps the session's invariant, also when the id exists already |
| SessionTheorems.ResetKeeps | packages/server/src/session-service.ts:409-442 | so does each step of a reset |
| SessionTheorems.SubscribeKeeps | packages/server/src/session-service.ts:526-560 | so does each step of a subscription |
| SessionTheorems.DeleteKeeps | packages/server/src/session-service.ts:562-577 | so does each step of a deletion |
| SessionTheorems.AdvanceKeeps | packages/server/src/session-service.ts:242-254 | every step of every operation keeps the session's invariant, keeps what live subscribers have received, and adds at most one subscriber, if there is room |
| SessionTheorems.StepIsDetermined | packages/server/src/session-service.ts:463-493 | a step is determined by the session, the resolved corpus and the listeners' reactions; where an observation is located, from the session's own corpus, cursor and commit point, is no choice |
| SessionTheorems.OperationsEndInOrder | packages/server/src/session-service.ts:242-254 | operations of a session end one by one in call order, each with one reply after at most three steps, and a failing one leaves those behind it alone |
| SessionTheorems.StreamsHaveNoGaps | packages/server/src/session-service.ts:340-351 | between operations the record mirrors the tracker and each live subscriber has received all revisions from its first to the current one, each once, in order |
| SessionTheorems.IdleSessionIsWhole | packages/server/src/session-service.ts:562-577 | between operations record and tracker exist together, and subscribers only with them |
| ServiceModel.TotalStore | packages/server/src/session-service.ts:319-324 | replacing one entry of a map changes a total by the difference of its weights |
| ServiceModel.StepClaims | packages/server/src/session-service.ts:308-317 | no step claims more sessions than were reserved for it |
| ServiceModel.NextKeeps | packages/server/src/session-service.ts:308-393 | every transition keeps: sessions plus reservations within the limit, reservations equal to unfinished creations, subscriber count equal to the sum of the set sizes and within its limit, every session's invariant |
| ServiceModel.EveryRunIsOk | packages/server/src/session-service.ts:223-578 | all of this at every point of every interleaving of calls, steps and unsubscriptions |
| ServiceModel.IdleSessionsAgree | packages/server/src/session-service.ts:409-493 | after any run, a session with no operation under way has a record that mirrors its tracker and streams without gaps |
| ServiceModel.RunIsDetermined | packages/server/src/session-service.ts:223-578 | what a run makes of the service depends on calls, order, resolved corpora and reactions only |
| ServiceModel.StreamsPersist | packages/server/src/session-service.ts:526-560 | a subscriber still live later has been live all along, starts at the same revision, and keeps everything it received, across resets and across deletion and recreation of other sessions |
| ListenerCalls.CallingAllPublishes | packages/server/src/session-service.ts:343-350 | calling a copy of the subscribers one by one, while some are released, equals publishing to the survivors |
| SessionService.SessionService.Create | packages/server/src/session-service.ts:353-359 | refused exactly when live sessions and reservations fill the limit; otherwise reserved and queued |
| SessionService.SessionService.Submit | packages/server/src/session-service.ts:444-459 | an invalid observation is refused before it is queued |
| SessionService.SessionService.ReleaseSubscriber | packages/server/src/session-service.ts:319-324 | removes and counts a subscriber once; a late release does nothing |
| SessionService.SessionService.ReleaseAll | packages/server/src/session-service.ts:319-324 | ending several subscriptions one by one counts each that was there once |
| SessionService.SessionService.CallListener | packages/server/src/session-service.ts:343-349 | a listener that ends subscriptions and then throws, having been released already or not, changes set and count together, each release counted once |
| SessionService.SessionService.Publish | packages/server/src/session-service.ts:340-351 | every subscriber of the copy is called, throwing ones are released one by one, and the count follows |
| SessionService.SessionService.StoreRecord | packages/server/src/memory-store.ts:25-32 | an existing record is not replaced |
| SessionService.SessionService.SubmitToTracker | packages/server/src/session-service.ts:480-493 | tracker and record are updated together |
| SessionService.SessionService.AddSubscriber | packages/server/src/session-service.ts:537-552 | registers and replays; what the listener ends and a throwing listener itself are released one by one |
| SessionService.SessionService.RemoveSession | packages/server/src/session-service.ts:565-569 | tracker and subscribers go together, and the count follows |
| SessionService.SessionService.Step | packages/server/src/session-service.ts:242-254 | takes exactly the modelled step of the session's running operation and keeps every invariant |
| SessionService.SessionService.Unsubscribe | packages/server/src/session-service.ts:554-559 | ending a subscription, even again or after the session is gone, keeps every invariant |
| RemoteListeners.ReactKeeps | packages/client/src/remote-session.ts:429-524 | whatever a called listener does, subscribing, unsubscribing, submitting, resetting or closing to any depth, keeps the client's invariants and at most queues mutations |
| RemoteListeners.ReactCalls | packages/client/src/remote-session.ts:431-446 | meanwhile a listener is called with the current snapshot exactly as often as it is subscribed, and is live only if it was or has been subscribed |
| RemoteListeners.DeliveredCalls | packages/client/src/remote-session.ts:299-306 | after any part of a notification a listener has been called once for its own turn, if it was there, and once for every time it has been subscribed |
| RemoteListeners.NotifyKeeps | packages/client/src/remote-session.ts:296-308 | a notification passes a newer snapshot to every listener that is there when its turn comes, once, and besides only to those subscribed meanwhile, once each time; whoever is live at the end has been called with it; an older snapshot reaches nobody |
| RemoteTheorems.ExchangeKeeps | packages/client/src/remote-session.ts:255-289 | a request and its outcome, delivered, refused or lost on either way, keeps the invariant of client and server |
| RemoteTheorems.EveryRunIsOk | packages/client/src/remote-session.ts:325-332 | the invariant holds in every run, whatever the session had accepted before the client came |
| RemoteTheorems.AtMostOnce | packages/client/src/remote-session.ts:447-482 | between two server resets the client makes an id advance the server at most once unless 512 others are accepted in between; ids accepted before it came count |
| RemoteTheorems.RepeatNeedsLostReset | packages/client/src/remote-session.ts:483-504 | between two resets known to have succeeded an id advances the server twice only across a reset whose response was lost |
| RemoteTheorems.AttemptAdvancesAgainIff | packages/client/src/remote-session.ts:454-482 | when the turn of a submission comes whose id was accepted before, it advances the server again exactly when there has been a reset since, its source revision is not stale, and the client holds no acknowledgement of it |
| RemoteTheorems.AdvancesAgainIffResetLost | packages/client/src/remote-session.ts:447-504 | calling submit again with an accepted id makes it advance the server again exactly then; unless the client knows of a reset since, that is one whose response was lost |
| RemoteTheorems.LostResetAdvancesTwice | packages/client/src/remote-session.ts:483-504 | a run in which that happens |
| RemoteTheorems.RetryIsNeverStale | packages/client/src/remote-session.ts:447-482 | sending a submission again, in the same or a later call, whose id is among the last 512 entries since the last reset changes nothing and is not answered as stale |
| RemoteTheorems.NextAttemptIsNeverStale | packages/client/src/remote-session.ts:260-272 | so neither is the next attempt of a submission whose response was lost |
| RemoteTheorems.AttemptsAreBounded | packages/client/src/remote-session.ts:260-272 | in every run a submission is sent at most maxAttempts times and a reset once |
| RemoteTheorems.AcknowledgementHoldsIff | packages/client/src/remote-session.ts:499-500 | an acknowledged id is one the server has accepted since its last reset exactly when no reset with a lost response came after the acknowledgement |
| RemoteTheorems.LostResetAnswersFromBefore | packages/client/src/remote-session.ts:449-450 | a run in which a call is answered from an acknowledgement older than a reset that took effect |
| RemoteTheorems.ImmediateAnswerIsFresh | packages/client/src/remote-session.ts:449-450 | a call answered at once is answered with no reset pending, from an acknowledgement later than every reset known to have succeeded, and current exactly when no lost reset came after it |
| RemoteTheorems.AnswerToListenerIsFresh | packages/client/src/remote-session.ts:447-450 | the same holds of a call that a listener makes while a reply is passed on |
| RemoteTheorems.QueuedAnswerIsFresh | packages/client/src/remote-session.ts:454-455 | a queued call answered without a request is so when exactly the resets requested before it have ended, and its acknowledgement is as current |
| RemoteTheorems.SharedIsQueued | packages/client/src/remote-session.ts:451-452 | a call that shares a submission shares one that is still queued for its id, with every pending reset in front of it and none behind |
| RemoteTheorems.SharedAnswerIsFresh | packages/client/src/remote-session.ts:451-482 | however the run goes on, when the shared submission has its turn exactly the resets requested before the call have ended, and its reply or acknowledgement is later than every reset known to have succeeded |
| RemoteTheorems.ListenersSeeIncreasingRevisions | packages/client/src/remote-session.ts:296-308 | a listener's revisions strictly increase exactly when it is never subscribed with the revision it was last called with, nor twice in one subscription, and during a notification not at all if its own turn comes and otherwise at most once |
| RemoteTheorems.ResubscribedListenerSeesRevisionTwice | packages/client/src/remote-session.ts:431-439 | a run in which a listener is called twice with one revision |
| RemoteTheorems.OvertakenListenerSeesRevisionTwice | packages/client/src/remote-session.ts:299-306 | another, in which a listener called earlier in the same notification subscribes it with a revision it has not been called with |
| RemoteSession.RemoteSession.Submit | packages/client/src/remote-session.ts:447-482 | answered, shared or queued as modelled |
| RemoteSession.RemoteSession.Reset | packages/client/src/remote-session.ts:483-504 | counted and queued behind earlier mutations, or refused on a closed session |
| RemoteSession.RemoteSession.ReceiveReply | packages/client/src/remote-session.ts:260-289 | retries lost submissions up to the limit, acknowledges, clears acknowledgements after a reset, and notifies |
| RemoteSession.RemoteSession.NotifyListeners | packages/client/src/remote-session.ts:296-308 | calls a copy of the listeners, skipping those gone by then |
| RemoteSession.RemoteSession.RunListener | packages/client/src/remote-session.ts:299-306 | a called listener acts on the session in place, step by step, and is dropped when it throws |
| RemoteSession.RemoteSession.SubscribeListener | packages/client/src/remote-session.ts:431-446 | refused on a closed session, otherwise added and called at once, and dropped again with an error when it throws |
| RemoteSession.RemoteSession.CloseSession | packages/client/src/remote-session.ts:505-524 | closing clears listeners, acknowledgements, submissions and queued notifications |
| RemoteServer.SubmissionIsServed | packages/server/src/session-service.ts:463-493 | the service answers and records a submission as the remote model's server does |
| RemoteServer.ResetIsServed | packages/server/src/session-service.ts:409-427 | a reset to a location of the corpus does what the remote model says, and one to another location is rejected and changes nothing |
| RemoteServer.InvalidIsRefused | packages/server/src/session-service.ts:452-459 | an invalid observation is refused and changes nothing, as a refused request in the remote model |
| RemoteServer.NewSessionIsServer | packages/server/src/session-service.ts:372-380 | a new session is the server a remote session starts with |
| RemoteServer.ExchangeIsServed | packages/server/src/session-service.ts:409-508 | the call of a request and the service's steps up to its reply, on a session that only this client calls, do what one exchange of the remote model does, with the same reply |
| RemoteServer.RunIsServed | packages/server/src/session-service.ts:409-508 | in every run of client and service together the session becomes what the remote model's server becomes, and every request that reaches it is answered alike, whatever other sessions do |
| RemoteServer.RecordFollowsLog | packages/server/src/session-service.ts:463-493 | so the record holds the last 512 ids accepted since the last reset and the last source revision, as the log of the run says |

## Left out

- HTTP and WebSocket plumbing, JSON schemas, message patterns, loggers and metrics sinks: I/O and bookkeeping without effect on results; work bounds are ghost counts.
- Socket reconnection and URL building: a stream message is an environment step that carries some revision the server has reached.
- Delayed requests: a request is served, if at all, before its outcome is known to the client.
- Rounding and NaN in scores: reals are used; inputs that are not finite numbers are not representable.
- String-length limits, token text and type checks of untyped input: values are typed, and no later code looks at them.
- Freezing of results and the cached preparation of a corpus: immutable values need neither.
- The per-operation `score` field of alignment operations: one for matches and zero otherwise.
- Widths of the table entries: values are bounded by the longer length (`EditScript.DistanceBounds`), so nothing wraps.
- Keys made by joining numbers: ayah keys and hypothesis fingerprints are pairs; n-gram keys and finding fingerprints are strings as in the program.
- Fallbacks that an indexed corpus cannot reach: a missing ayah range, a missing word for an id, a candidate without any span.
- The session service's trackers are values, not objects: `ReadingTracker.ReadingTracker.Submit` shows that the object takes the same step; that two sessions never share a tracker object is not captured.
- The store's own queue per session: the service runs one operation of a session at a time, so that queue never holds more than one.
- Injected stores, trackers and id sources: the memory store and the core tracker are assumed; session ids may repeat.
- A listener of the service that ends subscriptions of another session: a separate transition of that session.
- Operations that a listener of the service calls while it is called: they only join queues, so they are transitions after the step.
- Session and corpus ids inside a stored record: they never change after its creation.
- Snapshot contents on the client: only revisions decide what it does.
