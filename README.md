# ImageGenerator: a Dafny model of biburator's generation controller

This project models the controller class `ImageGenerator` of biburator, a
desktop front end for a latent-diffusion image model. The controller:

- keeps the run lifecycle flags `is_generating` and `is_cancelled`;
- records every intermediate frame the model reports through the step
  callback;
- at the end of a run, saves the last frame as a PNG and the whole history as
  an animated GIF;
- names both files with `generate_image_path`, a pure string pipeline over the
  recorded prompt, negative prompt, seed, guidance and frame count.

The project has four modules:

- `Wrappers` (`wrappers.dfy`): `Option` and `Result`.
- `Text` (`text.dfy`): the Python string operations the path pipeline uses.
  - `str.replace` (non-overlapping, left to right): length bounds, and
    lemmas on which characters it removes or keeps out. A one-character
    pattern with a one-character replacement equals the positionwise map
    `MapChar`. The two-character patterns have no reference definition.
  - `str.split` with a one-character separator: a round trip with `str.join`.
  - `str.join`: the first part leads the result. Joining a split equals the
    positionwise map `MapChar`.
  - `str(n)` for a natural number: a round trip with the independent reader
    `DecimalValue`.
- `ArtifactPath` (`artifact_path.dfy`): `generate_image_path` as functions,
  plus lemmas about the folder and file names it produces.
- `Generator` (`image_generator.dfy`): the class `ImageGenerator`. Its fields
  are the source's attributes, and its methods change them in place.
  - The external model is a sequence of `StepEvent`s. The model invokes the
    step callback once per event, in order, and stops after the first
    invocation that returns false.
  - An event's `cancelBefore` flag stands for the user interface calling
    `cancel_generation` while the model computed that step. This turns the
    two threads into one sequential interleaving.
  - The external callback is an `Observer` object that logs what it receives.

Behaviour of the code worth knowing:

- `start_generation` leaves `is_cancelled` as it was. A cancellation raised
  between runs therefore stops the next run after its first step
  (`PendingCancelStopsFirst`).
- `__call__` refuses to start while a run is active; `start_generation`
  itself checks nothing.
- With an empty negative prompt, the folder name ends with an underscore.
  The prompt "a cat" goes to the folder `a_cat_` (`EmptyNegativePromptFolder`).
- Nothing guards `end_generation` against an exception raised by the model.

## Model

| member | source | states |
|---|---|---|
| `Text.Replace` | image_generator.py:86-87 | `str.replace`: a replacement no longer than the pattern never lengthens the text, and one of equal length keeps its length |
| `Text.ReplaceCharRemoves` | image_generator.py:86-87 | replacing a character by text without it leaves no occurrence of that character |
| `Text.ReplaceKeepsAbsent` | image_generator.py:86-87 | a character absent from the input and from the replacement is absent from the result |
| `Text.ReplaceAbsentPattern` | image_generator.py:86-87 | text without the pattern's first character comes back unchanged |
| `Text.ReplaceCharIsMap` | image_generator.py:100 | replacing one character by one character equals the positionwise map |
| `Text.Split` | image_generator.py:95 | a split always has at least one part, and no part contains the separator |
| `Text.Join` | image_generator.py:97 | `sep.join(parts)`: the first part is a prefix of the result |
| `Text.JoinSplitIsMap` | image_generator.py:94-97 | splitting on `c` and joining with `d` maps every `c` to `d` and changes nothing else |
| `Text.SplitJoinRoundTrip` | image_generator.py:95-97 | joining the parts of a split with the same separator gives back the input |
| `Text.NatToString` | image_generator.py:100 | the frame count renders as a non-empty string of digits with no leading zero |
| `Text.DecimalRoundTrip` | image_generator.py:100 | reading the rendered frame count back gives the count |
| `ArtifactPath.OrEmpty` | image_generator.py:81-84 | an unset prompt or negative prompt is read as the empty string, a set one as itself |
| `ArtifactPath.Render` | image_generator.py:100 | an unset seed or guidance is formatted as "None" |
| `ArtifactPath.Normalise` | image_generator.py:86-87 | the replace chain never lengthens a prompt |
| `ArtifactPath.NormaliseSafe` | image_generator.py:86-87 | after the replace chain a prompt has no path separator and no space |
| `ArtifactPath.Share` | image_generator.py:90-92 | a prompt's share is the floor of 50 times its fraction of the combined length, and never exceeds its length |
| `ArtifactPath.NormaliseKeepsClean` | image_generator.py:86-87 | a prompt without '/', ',', '.' and ' ' is left unchanged by the replace chain |
| `ArtifactPath.Truncate` | image_generator.py:89-92 | truncation keeps a prefix of each prompt |
| `ArtifactPath.TruncateWithinBudget` | image_generator.py:89 | prompts totalling at most 50 characters are not cut |
| `ArtifactPath.TruncateFillsBudget` | image_generator.py:89-92 | over the budget, the cut prompts total 49 or 50 characters |
| `ArtifactPath.TruncateProportional` | image_generator.py:90-92 | each cut prompt, the prompt and the negative prompt, keeps the floor of its proportional share of 50, and the longer prompt keeps at least as much as the shorter |
| `ArtifactPath.FolderName` | image_generator.py:94-95 | the folder name is one character longer than the two prompts together and has no comma |
| `ArtifactPath.FolderNameShape` | image_generator.py:94-97 | the folder name is both prompts with commas turned into underscores, joined by one underscore, and it has no comma |
| `ArtifactPath.FolderNameSafe` | image_generator.py:94-97 | prompts without separators or spaces give a folder name without separators, spaces or commas, one character longer than the two together |
| `ArtifactPath.FileStem` | image_generator.py:100 | the file stem has no dot |
| `ArtifactPath.FileStemShape` | image_generator.py:100 | the stem is seed, decimal frame count and guidance joined by underscores, with dots turned into underscores, and it has no dot |
| `ArtifactPath.PathJoin` | image_generator.py:97 | POSIX `os.path.join`: an absolute second part replaces the first, otherwise one separator is added unless the first is empty or ends with one; `PathJoinEndsWith` and `PathJoinRelative` state its properties |
| `ArtifactPath.PathJoinEndsWith` | image_generator.py:101 | the joined path always ends with its last component |
| `ArtifactPath.PathJoinRelative` | image_generator.py:97 | joining a relative component appends it after at most one separator |
| `ArtifactPath.Folder` | image_generator.py:77-97 | the folder of the recorded prompts under the output root; `FolderLayout` and `FolderNameLayout` state its properties |
| `ArtifactPath.FolderNameLayout` | image_generator.py:77-95 | the folder name built from the normalised, truncated prompts is 1 to 51 characters long, with no separator, space or comma |
| `ArtifactPath.FolderLayout` | image_generator.py:77-97 | the folder is exactly the output root, the separator `os.path.join` adds, and the folder name, so the root is never discarded |
| `ArtifactPath.ImagePath` | image_generator.py:77-101 | the folder joined with the stem; `ImagePathLayout` states its shape |
| `ArtifactPath.ImagePathLayout` | image_generator.py:77-101 | the image path is folder, separator and stem whenever the seed does not begin with a separator |
| `ArtifactPath.EmptyNegativePromptFolder` | image_generator.py:94-97 | with an empty negative prompt, the folder name is the prompt followed by a trailing underscore |
| `Generator.MakeFrame` | image_generator.py:104-114 | the frame is noise exactly when there are no latents, and carries the latents otherwise; it is undecoded exactly when the frame duration is below 1 |
| `Generator.Consumed` | image_generator.py:121-124 | the model makes at most as many callback invocations as it has steps, and at least one when it has any |
| `Generator.CancelRequestedSome` | image_generator.py:48-49 | a cancellation is requested during a run exactly when some step of it carries one |
| `Generator.NoCancelRunsAll` | image_generator.py:121-124 | with no cancellation pending or requested, every step's callback runs |
| `Generator.CancelStopsAt` | image_generator.py:121-124 | a cancellation first requested during step k makes step k the last one |
| `Generator.StopsOnlyOnCancel` | image_generator.py:121-124 | a run stops early only because of a pending cancellation or one requested during a step that happened |
| `Generator.PendingCancelStopsFirst` | image_generator.py:44-46 | a cancellation left over from before the run is not cleared by starting, so the run stops after its first step |
| `Generator.CancelRequested` | image_generator.py:48-49 | whether a cancellation was requested during the given steps; `CancelRequestedSome` characterises it |
| `Generator.FrameOf` | image_generator.py:104-114 | the frame one invocation records, made as `MakeFrame` describes |
| `Generator.Frames` | image_generator.py:118 | the history gains exactly one frame per callback invocation |
| `Generator.Notes` | image_generator.py:116 | the external callback receives exactly one notification per callback invocation |
| `Generator.FramesAt` | image_generator.py:118 | the j-th recorded frame is made from the j-th invocation's latents |
| `Generator.NotesCarryFrames` | image_generator.py:116-118 | the j-th notification carries the j-th recorded frame with that step's index and time estimate |
| `Generator.Observer.OnStep` | image_generator.py:116 | the external callback receives the step's index, time estimate and frame |
| `Generator.ImageGenerator.constructor` | image_generator.py:20-31 | a new generator is idle, not cancelled, has no image and an empty history, frame duration 100 and looping on |
| `Generator.ImageGenerator.ResetHistory` | image_generator.py:33-42 | resetting clears the current image and every history field |
| `Generator.ImageGenerator.StartGeneration` | image_generator.py:44-46 | starting resets the history and enters the generating phase, and leaves the cancel flag alone |
| `Generator.ImageGenerator.CancelGeneration` | image_generator.py:48-49 | cancelling raises the cancel flag and changes nothing else |
| `Generator.ImageGenerator.GenerateImagePath` | image_generator.py:77-101 | the path of the recorded history with its frame count, as `ImagePath` gives it |
| `Generator.ImageGenerator.SaveImage` | image_generator.py:61-67 | saving the image fails exactly when there is no current image; otherwise it writes that image to the path with ".png" |
| `Generator.ImageGenerator.SaveHistory` | image_generator.py:69-75 | saving the history fails exactly when no frame was recorded; otherwise it writes all frames in order, at the history frame duration, to the path with ".gif" |
| `Generator.ImageGenerator.PairedArtifacts` | image_generator.py:61-75 | the image and the history are saved under the same stem, with different extensions |
| `Generator.ImageGenerator.Persist` | image_generator.py:51-59 | the result fails exactly when a requested save fails; the requested saves happen image first, then history, and the first failure ends the sequence with its error |
| `Generator.ImageGenerator.PersistRun` | image_generator.py:51-75 | at the end of a run, saving both fails exactly when no frame was recorded, and otherwise writes the last frame as PNG and all frames as GIF |
| `Generator.ImageGenerator.EndGeneration` | image_generator.py:51-59 | ending returns to idle and clears the cancel flag before saving, then saves as `Persist` describes |
| `Generator.ImageGenerator.StepCallback` | image_generator.py:103-126 | one invocation notifies the external callback with the new frame, appends the frame to the history, makes it the current image, and asks to continue exactly when no cancellation is pending |
| `Generator.ImageGenerator.DriveModel` | image_generator.py:140-149 | the model loop records exactly the frames and notifications of the invocations that happen, in order; the current image is the last of them; the cancel flag records any cancellation requested |
| `Generator.ImageGenerator.StartRun` | image_generator.py:132-138 | an admitted call starts a run and records the request fields in a fresh history |
| `Generator.ImageGenerator.Call` | image_generator.py:128-151 | a call made during a run changes nothing; otherwise the history holds the request and exactly the frames of the invocations that happened, the external callback saw them in order, the run ends idle and not cancelled, and the outcome is the PNG of the last frame and the GIF of all frames, or a failure when there were none |
| `Generator.ExampleSession` | image_generator.py:128-151 | three decoded steps with no cancellation are saved as the last frame and a three-frame GIF, under a stem whose frame count is 3 |

## Left out

- `ndarray_to_image` and the Qt image type: the user interface's display conversion is not part of this model.
- Pixel data: a frame is described by how it was made. The random draws are a `draw` parameter, and `decode_latents` is the `Decoded` constructor.
- PIL's encoding of PNG and GIF files and the writing of the bytes: an artifact records its path, frames and frame duration.
- `os.makedirs` is not modelled: it has no effect on the returned path.
- Logging is not modelled.
- `history_looped`: it is set, but no save reads it.
- Seed and guidance are recorded as the text their formatting produces (a guidance of 7.5 as "7.5"). Python's float formatting is not modelled.
- Exceptions raised by the external model or the external callback are not modelled. In the source such an exception skips `end_generation` and leaves `is_generating` set. The save errors are modelled, as `Failure` results.
- Concurrency: a cancellation from another thread is placed on the step whose flag test, at line 121, it reaches first (`cancelBefore`). The callback reads the flag only there, so every interleaving during a run is one of these. A cancellation after the last step, which `end_generation` clears or which races with it, appears as a flag already set when the next call starts. The atomicity of Python attribute writes is not modelled.
- `create_step_callback` returns a closure in the source. The model has the method `StepCallback`, which takes the external callback as a parameter.
- The constructor's default `args={}` is not modelled. With that default, `self.args.o` at line 97 raises, so every save fails. The model's constructor takes the output root instead.
- `ArtifactPath.Share`: computes the cut exactly as the floor of 50·x/total. The source computes `int(50 * ratio)` and `int(50 * (1 - ratio))` in floating point. When the exact share is a whole number, rounding can make that result one smaller, mostly for the negative prompt.
- `interface.py` and `main.py` (the window, the worker thread, argument parsing, loading the model) are not part of this model.
