/**
 * The per-video progress dictionary shared by the main page and the training tab:
 * each video goes `not-started` → `in-progress` (when selected) → `finished` (when the
 * player reports that it ended), and never goes back.
 */
module VideoProgress {

  const NotStarted: string := "not-started"
  const InProgress: string := "in-progress"
  const Finished: string := "finished"

  /** The YouTube player state code for a video that has ended (`YT.PlayerState.ENDED`). */
  const EndedCode: int := 0

  /** `videoStatus`: video id to status string. */
  type StatusMap = map<string, string>

  /** The three videos, all not started. */
  const InitialStatus: StatusMap := map["workplace" := NotStarted, "fire" := NotStarted, "emergency" := NotStarted]

  /** One of the three status strings. */
  predicate IsStatus(s: string) {
    s == NotStarted || s == InProgress || s == Finished
  }

  /** Every entry holds one of the three status strings. */
  predicate WellFormed(status: StatusMap) {
    forall k :: k in status ==> IsStatus(status[k])
  }

  /** How far along a status is. */
  function Rank(s: string): (r: nat)
    ensures r <= 2
    ensures IsStatus(s) ==> (r == 0 <==> s == NotStarted) && (r == 2 <==> s == Finished)
  {
    if s == Finished then 2 else if s == InProgress then 1 else 0
  }

  /** The dictionary after `selectVideo(videoId)`: a not-started video becomes in-progress. */
  function AfterSelect(status: StatusMap, videoId: string): (r: StatusMap)
    ensures r.Keys == status.Keys
    ensures videoId in status && status[videoId] == NotStarted ==> r[videoId] == InProgress
    ensures forall k :: k in status && (k != videoId || status[k] != NotStarted) ==> r[k] == status[k]
  {
    if videoId in status && status[videoId] == NotStarted then status[videoId := InProgress] else status
  }

  /** The dictionary after a player state change with code `code` for `videoId`: the end
      event marks the video finished, inserting it when it was not there. */
  function AfterPlayerEvent(status: StatusMap, videoId: string, code: int): (r: StatusMap)
    ensures code != EndedCode ==> r == status
    ensures code == EndedCode ==> r.Keys == status.Keys + {videoId} && r[videoId] == Finished
    ensures forall k :: k in status && k != videoId ==> k in r && r[k] == status[k]
  {
    if code == EndedCode then status[videoId := Finished] else status
  }

  /** All three videos start not started. */
  lemma InitialStatusNotStarted()
    ensures WellFormed(InitialStatus)
    ensures InitialStatus.Keys == {"workplace", "fire", "emergency"}
    ensures forall k :: k in InitialStatus ==> InitialStatus[k] == NotStarted
  {
  }

  /** Both operations keep every entry a status string, and no status moves backwards;
      in particular a finished video stays finished. */
  lemma ProgressIsMonotone(status: StatusMap, videoId: string, code: int)
    requires WellFormed(status)
    ensures WellFormed(AfterSelect(status, videoId))
    ensures WellFormed(AfterPlayerEvent(status, videoId, code))
    ensures forall k :: k in status ==> Rank(status[k]) <= Rank(AfterSelect(status, videoId)[k])
    ensures forall k :: k in status ==> Rank(status[k]) <= Rank(AfterPlayerEvent(status, videoId, code)[k])
  {
  }

  /** Selecting a video that is not in the dictionary adds no entry, but an end event for
      such a video inserts it as finished. */
  lemma UnknownVideo(status: StatusMap, videoId: string)
    requires videoId !in status
    ensures AfterSelect(status, videoId) == status
    ensures videoId in AfterPlayerEvent(status, videoId, EndedCode)
    ensures |AfterPlayerEvent(status, videoId, EndedCode).Keys| == |status.Keys| + 1
  {
    assert AfterPlayerEvent(status, videoId, EndedCode).Keys == status.Keys + {videoId};
  }

  /** Selecting a video twice is the same as selecting it once. */
  lemma SelectIdempotent(status: StatusMap, videoId: string)
    ensures AfterSelect(AfterSelect(status, videoId), videoId) == AfterSelect(status, videoId)
  {
  }
}
