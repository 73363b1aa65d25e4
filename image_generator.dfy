/** The generation controller, `ImageGenerator`: the run-lifecycle flags, the
    per-step callback that records the frame history, and the saving of the
    final image and of the history at the end of a run. */
module Generator {
  import opened Wrappers
  import ArtifactPath

  /** What the model hands to the step callback in place of a numpy array. */
  type Latents = seq<real>

  /** A 512x512 RGB frame, described by how it was produced. */
  datatype Frame =
    | FlatNoise(draw: nat)          // one random grey level over the whole frame
    | PixelNoise(draw: nat)         // independent random values per pixel
    | RawLatents(latents: Latents)  // the latents, passed through undecoded
    | Decoded(latents: Latents)     // the model's decoding of the latents, scaled to 0..255

  /** The frame the callback produces for one step.  `draw` stands for the
      random numbers numpy would draw; a frame duration below 1 is the
      sentinel that skips decoding. */
  function MakeFrame(latents: Option<Latents>, frameDuration: int, draw: nat): (f: Frame)
    ensures latents.None? <==> (f.FlatNoise? || f.PixelNoise?)
    ensures latents.Some? ==> f.latents == latents.value
    ensures (f.FlatNoise? || f.RawLatents?) <==> frameDuration < 1
  {
    match latents
    case None => if frameDuration < 1 then FlatNoise(draw) else PixelNoise(draw)
    case Some(l) => if frameDuration < 1 then RawLatents(l) else Decoded(l)
  }

  /** The `history` dictionary: the request fields recorded for naming, and
      the frames in step order.  Seed and guidance are kept as the text that
      formatting them produces. */
  datatype History = History(
    prompt: Option<string>,
    negativePrompt: Option<string>,
    steps: Option<int>,
    guidence: Option<string>,
    seed: Option<string>,
    images: seq<Frame>)

  const EmptyHistory := History(None, None, None, None, None, [])

  /** One notification sent to the external callback. */
  datatype Notification = Notification(iter: int, timeLeft: real, frame: Frame)

  /** A file the generator writes. */
  datatype Artifact =
    | StillImage(path: string, frame: Frame)
    | Animation(path: string, frames: seq<Frame>, frameDuration: int)

  /** Why saving raises: there is no current image to convert, or there is no
      first history frame to anchor the animation. */
  datatype SaveError = NoImage | NoFrames

  /** What `__call__` did: refused because a run was active, or ran and then
      saved (or failed to save). */
  datatype CallOutcome = Rejected | Ran(saved: Result<seq<Artifact>, SaveError>)

  /** One callback invocation by the model.  `cancelBefore` records that the
      user asked to cancel while the model computed this step. */
  datatype StepEvent = StepEvent(
    cancelBefore: bool,
    iter: int,
    timeLeft: real,
    latents: Option<Latents>,
    draw: nat)

  /** How many of `run`'s invocations happen: the model stops after the first
      one whose callback returns false, i.e. the first that sees a pending
      cancellation. */
  function Consumed(run: seq<StepEvent>, cancelled: bool): (k: nat)
    ensures k <= |run|
    ensures |run| > 0 ==> k >= 1
  {
    if |run| == 0 then 0
    else if cancelled || run[0].cancelBefore then 1
    else 1 + Consumed(run[1..], false)
  }

  /** Whether the user asked to cancel during any of `run`'s steps. */
  predicate CancelRequested(run: seq<StepEvent>)
  {
    |run| > 0 && (CancelRequested(run[..|run| - 1]) || run[|run| - 1].cancelBefore)
  }

  /** `CancelRequested` holds exactly when some event of the run requests a
      cancellation. */
  lemma {:induction false} CancelRequestedSome(run: seq<StepEvent>)
    ensures CancelRequested(run) <==> exists j :: 0 <= j < |run| && run[j].cancelBefore
    decreases |run|
  {
    if |run| > 0 {
      var init := run[..|run| - 1];
      CancelRequestedSome(init);
      if exists j :: 0 <= j < |init| && init[j].cancelBefore {
        var j :| 0 <= j < |init| && init[j].cancelBefore;
        assert run[j].cancelBefore;
      }
      if exists j :: 0 <= j < |run| && run[j].cancelBefore {
        var j :| 0 <= j < |run| && run[j].cancelBefore;
        if j < |run| - 1 {
          assert init[j].cancelBefore;
        }
      }
    }
  }

  /** The frame the callback records for one invocation. */
  function FrameOf(event: StepEvent, frameDuration: int): (f: Frame)
  {
    MakeFrame(event.latents, frameDuration, event.draw)
  }

  /** The frames the callback records for the invocations in `run`, in order. */
  function Frames(run: seq<StepEvent>, frameDuration: int): (fs: seq<Frame>)
    ensures |fs| == |run|
  {
    if |run| == 0 then []
    else Frames(run[..|run| - 1], frameDuration) + [FrameOf(run[|run| - 1], frameDuration)]
  }

  /** The notifications the external callback receives for the invocations in
      `run`, in order. */
  function Notes(run: seq<StepEvent>, frameDuration: int): (ns: seq<Notification>)
    ensures |ns| == |run|
  {
    if |run| == 0 then []
    else
      var last := run[|run| - 1];
      Notes(run[..|run| - 1], frameDuration)
      + [Notification(last.iter, last.timeLeft, FrameOf(last, frameDuration))]
  }

  /** The `j`-th recorded frame is made from the `j`-th invocation. */
  lemma {:induction false} FramesAt(run: seq<StepEvent>, frameDuration: int, j: nat)
    requires j < |run|
    ensures Frames(run, frameDuration)[j] == FrameOf(run[j], frameDuration)
    decreases |run|
  {
    if j < |run| - 1 {
      FramesAt(run[..|run| - 1], frameDuration, j);
    }
  }

  /** The `j`-th notification carries the `j`-th recorded frame, with the
      step index and time estimate of the same invocation. */
  lemma {:induction false} NotesCarryFrames(run: seq<StepEvent>, frameDuration: int, j: nat)
    requires j < |run|
    ensures Notes(run, frameDuration)[j]
         == Notification(run[j].iter, run[j].timeLeft, Frames(run, frameDuration)[j])
    decreases |run|
  {
    if j < |run| - 1 {
      NotesCarryFrames(run[..|run| - 1], frameDuration, j);
    }
  }

  /** One more invocation appends its frame and its notification. */
  lemma FramesSnoc(run: seq<StepEvent>, i: nat, frameDuration: int)
    requires i < |run|
    ensures CancelRequested(run[..i + 1]) == (CancelRequested(run[..i]) || run[i].cancelBefore)
    ensures Frames(run[..i + 1], frameDuration)
         == Frames(run[..i], frameDuration) + [FrameOf(run[i], frameDuration)]
    ensures Notes(run[..i + 1], frameDuration)
         == Notes(run[..i], frameDuration)
            + [Notification(run[i].iter, run[i].timeLeft, FrameOf(run[i], frameDuration))]
  {
    assert run[..i + 1][..i] == run[..i];
  }

  /** Unfolding `Consumed` at position `i`. */
  lemma ConsumedAt(run: seq<StepEvent>, i: nat, cancelled: bool)
    requires i < |run|
    ensures Consumed(run[i..], cancelled)
         == if cancelled || run[i].cancelBefore then 1 else 1 + Consumed(run[i + 1..], false)
  {
    assert run[i..][1..] == run[i + 1..];
  }

  /** With no cancellation pending or requested, every invocation happens. */
  lemma {:induction false} NoCancelRunsAll(run: seq<StepEvent>)
    requires forall j :: 0 <= j < |run| ==> !run[j].cancelBefore
    ensures Consumed(run, false) == |run|
  {
    if |run| > 0 {
      NoCancelRunsAll(run[1..]);
    }
  }

  /** A cancellation requested during step `k` (and none before) makes step
      `k` the last one. */
  lemma {:induction false} CancelStopsAt(run: seq<StepEvent>, k: nat)
    requires k < |run| && run[k].cancelBefore
    requires forall j :: 0 <= j < k ==> !run[j].cancelBefore
    ensures Consumed(run, false) == k + 1
  {
    if k > 0 {
      CancelStopsAt(run[1..], k - 1);
    }
  }

  /** A run stops early only because of a cancellation: one pending at the
      start or one requested during a step that happened. */
  lemma {:induction false} StopsOnlyOnCancel(run: seq<StepEvent>, cancelled: bool)
    requires Consumed(run, cancelled) < |run|
    ensures cancelled || exists j :: 0 <= j < Consumed(run, cancelled) && run[j].cancelBefore
  {
    if !cancelled && !run[0].cancelBefore {
      StopsOnlyOnCancel(run[1..], false);
      var j :| 0 <= j < Consumed(run[1..], false) && run[1..][j].cancelBefore;
      assert run[j + 1].cancelBefore;
    }
  }

  /** A cancellation left pending before the run starts is not cleared by
      starting, so the run stops after its first step. */
  lemma PendingCancelStopsFirst(run: seq<StepEvent>)
    requires |run| > 0
    ensures Consumed(run, true) == 1
  {
  }

  /** The external callback: it only observes, so it is modelled as the log
      of what it received. */
  class Observer {
    var received: seq<Notification>

    constructor ()
      ensures received == []
    {
      received := [];
    }

    method OnStep(iter: int, timeLeft: real, frame: Frame)
      modifies this
      ensures received == old(received) + [Notification(iter, timeLeft, frame)]
    {
      received := received + [Notification(iter, timeLeft, frame)];
    }
  }

  class ImageGenerator {
    /** The output root directory, `args.o`. */
    const outputRoot: string

    var isGenerating: bool
    var isCancelled: bool
    /** The most recent frame, `None` before the first step of a run. */
    var image: Option<Frame>
    var history: History
    var historyFrameDuration: int
    var historyLooped: bool

    constructor (outputRoot: string)
      ensures this.outputRoot == outputRoot
      ensures !isGenerating && !isCancelled
      ensures image == None && history == EmptyHistory
      ensures historyFrameDuration == 100 && historyLooped
    {
      this.outputRoot := outputRoot;
      isGenerating := false;
      isCancelled := false;
      new;
      ResetHistory();
      historyFrameDuration := 100;
      historyLooped := true;
    }

    method ResetHistory()
      modifies this`image, this`history
      ensures image == None && history == EmptyHistory
    {
      image := None;
      history := EmptyHistory;
    }

    /** Enters the Generating phase with an empty history.  A pending
        cancellation is left as it was. */
    method StartGeneration()
      modifies this`image, this`history, this`isGenerating
      ensures image == None && history == EmptyHistory
      ensures isGenerating
    {
      ResetHistory();
      isGenerating := true;
    }

    /** Raises the cancel flag, whatever the phase. */
    method CancelGeneration()
      modifies this`isCancelled
      ensures isCancelled
    {
      isCancelled := true;
    }

    /** `generate_image_path()`: where this run's artifacts go, before the
        extension; the stem at its end carries the number of recorded frames. */
    function GenerateImagePath(): (r: string)
      reads this`history
    {
      ArtifactPath.ImagePath(outputRoot, history.prompt, history.negativePrompt,
                             history.seed, |history.images|, history.guidence)
    }

    /** `save_image()`: the current image as a PNG; fails when there is none. */
    function SaveImage(): (r: Result<Artifact, SaveError>)
      reads this`image, this`history
      ensures r.Failure? <==> image.None?
      ensures r.Failure? ==> r.error == NoImage
      ensures r.Success? ==> r.value == StillImage(GenerateImagePath() + ".png", image.value)
    {
      match image
      case None => Failure(NoImage)
      case Some(f) => Success(StillImage(GenerateImagePath() + ".png", f))
    }

    /** `save_history()`: the first frame anchors a GIF and the others are
        appended in order; fails when no frame was recorded. */
    function SaveHistory(): (r: Result<Artifact, SaveError>)
      reads this`history, this`historyFrameDuration
      ensures r.Failure? <==> history.images == []
      ensures r.Failure? ==> r.error == NoFrames
      ensures r.Success? ==> r.value == Animation(GenerateImagePath() + ".gif", history.images, historyFrameDuration)
    {
      var images := history.images;
      if |images| == 0 then Failure(NoFrames)
      else
        assert [images[0]] + images[1..] == images;
        Success(Animation(GenerateImagePath() + ".gif", [images[0]] + images[1..], historyFrameDuration))
    }

    /** The image and the history of one state are saved side by side: same
        folder and stem, different extensions. */
    lemma PairedArtifacts()
      requires image.Some? && history.images != []
      ensures SaveImage().Success? && SaveHistory().Success?
      ensures var stem := GenerateImagePath();
              SaveImage().value.path == stem + ".png" && SaveHistory().value.path == stem + ".gif"
    {
    }

    /** What ending a run saves: the image and then the history, as asked;
        the first save that fails ends the sequence with its error. */
    function Persist(toSaveImage: bool, toSaveHistory: bool): (r: Result<seq<Artifact>, SaveError>)
      reads this`image, this`history, this`historyFrameDuration
      ensures r.Failure? <==> (toSaveImage && image.None?) || (toSaveHistory && history.images == [])
      ensures toSaveImage && image.None? ==> r == Failure(NoImage)
      ensures (!toSaveImage || image.Some?) && toSaveHistory && history.images == [] ==> r == Failure(NoFrames)
      ensures r.Success? ==> |r.value| == (if toSaveImage then 1 else 0) + (if toSaveHistory then 1 else 0)
      ensures r.Success? && toSaveImage ==> r.value[0] == SaveImage().value
      ensures r.Success? && toSaveHistory ==> r.value[|r.value| - 1] == SaveHistory().value
    {
      var still := if toSaveImage then SaveImage() else Success(StillImage("", FlatNoise(0)));
      var anim := if toSaveHistory then SaveHistory() else Success(StillImage("", FlatNoise(0)));
      if still.Failure? then Failure(still.error)
      else if anim.Failure? then Failure(anim.error)
      else Success((if toSaveImage then [still.value] else []) + (if toSaveHistory then [anim.value] else []))
    }

    /** At the end of a run whose current image is its last frame, saving both
        fails exactly when no frame was recorded, and otherwise writes the PNG
        and the GIF under one stem. */
    lemma PersistRun()
      requires image == (if history.images == [] then None else Some(history.images[|history.images| - 1]))
      ensures var path := GenerateImagePath();
              var images := history.images;
              Persist(true, true)
              == if images == [] then Failure(NoImage)
                 else Success([StillImage(path + ".png", images[|images| - 1]),
                               Animation(path + ".gif", images, historyFrameDuration)])
    {
      if history.images != [] {
        var r := Persist(true, true);
        assert r.Success? && |r.value| == 2;
        assert r.value == [r.value[0], r.value[1]];
      }
    }

    /** Returns to Idle and clears the cancel flag before anything is saved,
        then saves as `Persist` describes. */
    method EndGeneration(toSaveImage: bool, toSaveHistory: bool)
      returns (r: Result<seq<Artifact>, SaveError>)
      modifies this`isGenerating, this`isCancelled
      ensures !isGenerating && !isCancelled
      ensures r == Persist(toSaveImage, toSaveHistory)
    {
      isGenerating := false;
      isCancelled := false;
      var written: seq<Artifact> := [];
      if toSaveImage {
        var saved := SaveImage();
        if saved.Failure? {
          return Failure(saved.error);
        }
        written := [saved.value];
      }
      if toSaveHistory {
        var saved := SaveHistory();
        if saved.Failure? {
          return Failure(saved.error);
        }
        written := written + [saved.value];
      }
      r := Success(written);
      assert r == Persist(toSaveImage, toSaveHistory) by {
        assert written == (if toSaveImage then [SaveImage().value] else [])
                          + (if toSaveHistory then [SaveHistory().value] else []);
      }
    }

    /** The closure built by `create_step_callback(external_callback)`,
        invoked once: it makes the step's frame, notifies the observer with
        it, appends it to the history, makes it the current image, and asks
        the model to continue exactly when no cancellation is pending. */
    method StepCallback(observer: Observer, iter: int, timeLeft: real, latents: Option<Latents>, draw: nat)
      returns (proceed: bool)
      modifies this`history, this`image, observer
      ensures var f := MakeFrame(latents, historyFrameDuration, draw);
              && observer.received == old(observer.received) + [Notification(iter, timeLeft, f)]
              && history == old(history).(images := old(history.images) + [f])
              && image == Some(f)
      ensures proceed <==> !isCancelled
    {
      var frame := MakeFrame(latents, historyFrameDuration, draw);
      observer.OnStep(iter, timeLeft, frame);
      history := history.(images := history.images + [frame]);
      image := Some(frame);
      proceed := !isCancelled;
    }

    /** The model's step loop, `self.model(..., callback=...)`: it invokes the
        step callback once per event of `run`, in order, and stops after the
        first invocation that returns false.  `cancelBefore` stands for the
        user's thread calling `cancel_generation` during that step. */
    method DriveModel(observer: Observer, run: seq<StepEvent>)
      modifies this`history, this`image, this`isCancelled, observer
      ensures var k := Consumed(run, old(isCancelled));
              var frames := Frames(run[..k], historyFrameDuration);
              && history == old(history).(images := old(history.images) + frames)
              && image == (if k == 0 then old(image) else Some(FrameOf(run[k - 1], historyFrameDuration)))
              && observer.received == old(observer.received) + Notes(run[..k], historyFrameDuration)
              && isCancelled == (old(isCancelled) || CancelRequested(run[..k]))
    {
      ghost var k := Consumed(run, isCancelled);
      ghost var cancelled0 := isCancelled;
      var fd := historyFrameDuration;
      var i := 0;
      var going := true;
      while i < |run| && going
        invariant 0 <= i <= k <= |run|
        invariant going ==> k == i + Consumed(run[i..], isCancelled)
        invariant !going ==> k == i
        invariant history == old(history).(images := old(history.images) + Frames(run[..i], fd))
        invariant image == (if i == 0 then old(image) else Some(FrameOf(run[i - 1], fd)))
        invariant observer.received == old(observer.received) + Notes(run[..i], fd)
        invariant isCancelled == (cancelled0 || CancelRequested(run[..i]))
        decreases |run| - i
      {
        var event := run[i];
        if event.cancelBefore {
          CancelGeneration();
        }
        ConsumedAt(run, i, isCancelled);
        FramesSnoc(run, i, fd);
        going := StepCallback(observer, event.iter, event.timeLeft, event.latents, event.draw);
        i := i + 1;
      }
    }

    /** The opening of `__call__` once it is admitted: start a run and record
        the request in the fresh history. */
    method StartRun(prompt: Option<string>, negativePrompt: Option<string>, steps: int,
                    guidence: string, seed: string)
      modifies this`image, this`history, this`isGenerating
      ensures isGenerating && image == None
      ensures history == History(prompt, negativePrompt, Some(steps), Some(guidence), Some(seed), [])
    {
      StartGeneration();
      history := history.(prompt := prompt, negativePrompt := negativePrompt, steps := Some(steps),
                          guidence := Some(guidence), seed := Some(seed));
    }

    /** `__call__`: refused while a run is active; otherwise starts a run,
        records the request, lets the model drive the step callback through
        `run` until the callback says stop, and ends the run with both saves. */
    method Call(prompt: Option<string>, negativePrompt: Option<string>, steps: int,
                guidence: string, seed: string, observer: Observer, run: seq<StepEvent>)
      returns (r: CallOutcome)
      modifies this`image, this`history, this`isGenerating, this`isCancelled, observer
      ensures old(isGenerating) ==> r == Rejected && unchanged(this) && unchanged(observer)
      ensures !old(isGenerating) ==> !isGenerating && !isCancelled
      ensures !old(isGenerating) ==>
        history == History(prompt, negativePrompt, Some(steps), Some(guidence), Some(seed),
                           Frames(run[..Consumed(run, old(isCancelled))], historyFrameDuration))
      ensures !old(isGenerating) ==>
        observer.received
        == old(observer.received) + Notes(run[..Consumed(run, old(isCancelled))], historyFrameDuration)
      ensures !old(isGenerating) ==>
        var images := history.images;
        && image == (if images == [] then None else Some(images[|images| - 1]))
        && r == Ran(if images == [] then Failure(NoImage)
                    else Success([StillImage(GenerateImagePath() + ".png", images[|images| - 1]),
                                  Animation(GenerateImagePath() + ".gif", images, historyFrameDuration)]))
    {
      if isGenerating {
        return Rejected;
      }
      StartRun(prompt, negativePrompt, steps, guidence, seed);
      DriveModel(observer, run);
      ghost var k := Consumed(run, old(isCancelled));
      if k > 0 {
        FramesAt(run[..k], historyFrameDuration, k - 1);
      }
      var saved := EndGeneration(true, true);
      PersistRun();
      r := Ran(saved);
    }
  }

  /** A whole session: a fresh generator whose model reports three decoded
      steps and is never cancelled records all three frames in step order and
      saves the last one and the three-frame history under the stem whose
      frame count is 3. */
  method ExampleSession(root: string, prompt: string, seed: string, guidance: string,
                        a: Latents, b: Latents, c: Latents)
    returns (r: CallOutcome)
    ensures var path := ArtifactPath.ImagePath(root, Some(prompt), Some(""), Some(seed), 3, Some(guidance));
            r == Ran(Success([StillImage(path + ".png", Decoded(c)),
                              Animation(path + ".gif", [Decoded(a), Decoded(b), Decoded(c)], 100)]))
  {
    var generator := new ImageGenerator(root);
    var observer := new Observer();
    var run := [StepEvent(false, 1, 2.0, Some(a), 0),
                StepEvent(false, 2, 1.0, Some(b), 0),
                StepEvent(false, 3, 0.0, Some(c), 0)];
    NoCancelRunsAll(run);
    assert run[..3] == run;
    FramesAt(run, 100, 0);
    FramesAt(run, 100, 1);
    FramesAt(run, 100, 2);
    assert Frames(run, 100) == [Decoded(a), Decoded(b), Decoded(c)];
    r := generator.Call(Some(prompt), Some(""), 3, guidance, seed, observer, run);
  }
}
