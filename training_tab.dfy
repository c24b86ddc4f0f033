/**
 * `TrainingTabComponent`: the training-video tab, which tracks the selected video and each
 * video's progress.
 */
module TrainingTab {
  import opened Wrappers
  import opened VideoProgress

  class TrainingTabComponent {
    var selectedVideo: Option<string>
    var videoStatus: StatusMap

    /** The progress dictionary only holds the three status strings. */
    predicate Valid()
      reads this
    {
      WellFormed(videoStatus)
    }

    /** No video selected; all three videos not started. */
    constructor ()
      ensures selectedVideo == None
      ensures videoStatus == InitialStatus
      ensures Valid()
    {
      selectedVideo := None;
      videoStatus := InitialStatus;
    }

    /** `selectVideo`: always selects the video and starts it when it was not started. */
    method SelectVideo(videoId: string)
      requires Valid()
      modifies this
      ensures selectedVideo == Some(videoId)
      ensures videoStatus == AfterSelect(old(videoStatus), videoId)
      ensures Valid()
    {
      selectedVideo := Some(videoId);
      if videoId in videoStatus && videoStatus[videoId] == NotStarted {
        videoStatus := videoStatus[videoId := InProgress];
      }
      ProgressIsMonotone(old(videoStatus), videoId, EndedCode);
    }

    /** `onPlayerStateChange(event, videoId)` with `event.data == code`: the end event marks the
        video finished; any other code changes nothing. */
    method OnPlayerStateChange(code: int, videoId: string)
      requires Valid()
      modifies this
      ensures selectedVideo == old(selectedVideo)
      ensures videoStatus == AfterPlayerEvent(old(videoStatus), videoId, code)
      ensures Valid()
    {
      if code == EndedCode {
        videoStatus := videoStatus[videoId := Finished];
      }
      ProgressIsMonotone(old(videoStatus), videoId, code);
    }
  }

  /** Watching a video to the end after selecting it leaves it finished, and selecting it
      again does not reset it. */
  method WatchWorkplaceVideo() returns (status: string)
    ensures status == Finished
  {
    var tab := new TrainingTabComponent();
    tab.SelectVideo("workplace");
    tab.OnPlayerStateChange(EndedCode, "workplace");
    tab.SelectVideo("workplace");
    status := tab.videoStatus["workplace"];
  }
}
