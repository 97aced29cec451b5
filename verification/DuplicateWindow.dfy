/** The window of remembered observation ids, the same in the tracker and in the session record. */
module DuplicateWindow {
  const OBSERVATION_ID_LIMIT := 512
}
