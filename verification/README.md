# Bellman's Bakery viewer, playback loop and plot exporter — a Dafny model

This project models the non-graphical core of three parts of Bellman's Bakery,
a bakery-management reinforcement-learning environment, and proves properties
of that model:

- `PastelViewer` (`bellmans_bakery/viewer.py`). Each draw method becomes a
  function or method that returns what it would put on screen:
  - the header clock `mm:ss`;
  - the inventory tile grid, five tiles per row;
  - the two-oven block, centred, with each oven's caption, progress bar and
    centred thumbnail row;
  - the queue strip, which shows at most twelve avatars;
  - the action label: underscores become spaces, the text is stripped, and
    the first character is upper-cased;
  - the `max_bake_ticks` normaliser used by the progress fraction.
- The playback loop of `scripts/run_viewer.py`, as a state machine. `Step` is
  one iteration of `while True` and `Run` iterates it. Everything the loop
  does not decide itself arrives in a `Tick`:
  - pygame events;
  - the environment's `step`/`reset` answers;
  - the random action sample;
  - whether the MP4 writer accepted a frame.

  The state covers the pause flag, screenshots, QUIT, stepping and resetting,
  the policy fixed at startup with its random fallback, and the recorder
  lifecycle: the duration cutoff, write failure, and close on quit.
- The selection and naming logic of `scripts/export_tb_plots.py`:
  - parsing `label=dir` entries at the first `=`;
  - `--series` taking precedence over `--logdir`;
  - `_find_event_file` choosing the newest event file;
  - colour slot `i mod 7`;
  - which PNG files are written and their file names inside the output
    directory.

  TensorBoard and matplotlib are replaced by two inputs:
  - the event files (path, modification time) under each directory;
  - the set of (event file, tag) pairs that hold scalars.

Modules:
- `Wrappers` (`wrappers.dfy`): `Option`.
- `Numeric` (`numeric.dfy`): two-argument `max` and `min`.
- `Strings` (`strings.dfy`): Python's `str.isspace`, `str.strip`,
  single-character `str.replace`, `str(n)` and `:02d`.
- `Viewer` (`viewer.dfy`).
- `Playback` (`playback.dfy`).
- `ExportPlots` (`export_plots.dfy`).

## Behaviour of the code worth knowing

- **Clock.** `t=6` is sixty simulated seconds and shows `"01:00"`:
  `(6*10)//60 = 1` minute and `(6*10)%60 = 0` seconds
  (`Viewer.ClockOneMinute`). Minutes are not capped, so `t >= 600` shows
  three or more minute digits.
- **Recording length.** The frame count is compared against
  `record_seconds * max(1, fps)` only after a frame has been appended. So with
  `fps > 0` a writer that never fails records `max(record_seconds * fps, 1)`
  frames, and a zero or negative limit still records one frame
  (`Playback.Cutoff`, `Playback.CutoffExact`). With `fps <= 0` the loop
  raises at the end of its first iteration, so at most one frame is appended
  and the `max(1, fps)` guard never takes effect on a path that keeps running.
- **Closing the writer.** The writer is closed exactly once on QUIT, at the
  duration cutoff and after a failed write. A non-positive `--fps` makes
  `time.sleep(1.0 / fps)` raise at the end of the first iteration, and the
  writer is not closed on that path (`Playback.NonPositiveFpsCrashes`).
- **Recording while paused.** Frames are still appended while paused.
- **Random fallback.** Without a model the fallback samples
  `env.action_space`, not the masked actions.
- **Choice of event file.** `_find_event_file` sorts by modification time
  with `reverse=True`. Python's sort is stable, so among equally new files
  the first one found is returned.
- **Colour slots.** Colour slots are the enumeration index over all series,
  so a series that lacks a tag still uses up its slot
  (`ExportPlots.SkippedSeriesKeepsSlot`).

## Model

| member | source | states |
|---|---|---|
| Strings.Strip | bellmans_bakery/viewer.py:214 | the result is the slice of the input between its leading and trailing whitespace; it is empty exactly when the input is all whitespace, and otherwise starts and ends with a non-space |
| Strings.StripTrimmed | bellmans_bakery/viewer.py:214 | stripping text that neither starts nor ends with whitespace returns it unchanged |
| Strings.ReplaceChar | bellmans_bakery/viewer.py:214 | replacement keeps the length and changes exactly the occurrences of the old character |
| Strings.Decimal | bellmans_bakery/viewer.py:132 | `str(n)` is a digit string that reads back as `n`, has no leading zero, and has one digit below 10, at most two below 100 and at least three from 100 on |
| Strings.TwoDigits | bellmans_bakery/viewer.py:91 | `:02d` gives digits that read back as `n`; it is exactly two characters iff `n < 100`, otherwise it is `str(n)` |
| Viewer.Clock | bellmans_bakery/viewer.py:84-86 | minutes and seconds recombine to ten seconds per tick; seconds are a multiple of ten below 60; minutes are `t // 6` |
| Viewer.ClockText | bellmans_bakery/viewer.py:90-91 | the header text is `mm:ss` whose two fields read back to `10·t` seconds with seconds below 60; it is five characters exactly when `t < 600` |
| Viewer.ClockAt | bellmans_bakery/viewer.py:84-91 | the header text for tick `t` is the `:02d` rendering of `t // 6` minutes, ':', and the `:02d` rendering of `10·(t mod 6)` seconds |
| Viewer.ClockStart | bellmans_bakery/viewer.py:84-91 | t=0 gives "00:00" |
| Viewer.ClockOneMinute | bellmans_bakery/viewer.py:84-91 | t=6, sixty simulated seconds, gives "01:00" |
| Viewer.ClockLastTickOfHour | bellmans_bakery/viewer.py:84-91 | t=359 gives "59:50" |
| Viewer.ClockHour | bellmans_bakery/viewer.py:84-91 | t=360 gives "60:00": minutes are not capped |
| Viewer.InventoryTiles | bellmans_bakery/viewer.py:97-116 | tile `i` sits at column `i mod 5` and row `i div 5` of the 176×96 grid from (20, 90), with the item's count and its price (0 when there are no prices) |
| Viewer.OvensOrigin | bellmans_bakery/viewer.py:121-125 | the first oven is at least 20 px from the left; above that margin the 720 px block is centred to within one pixel |
| Viewer.MaxBakeTicks | bellmans_bakery/viewer.py:68-71 | the normaliser bounds every item's bake ticks (`seconds // 10`) and equals one of them |
| Viewer.NewViewer | bellmans_bakery/viewer.py:68-71 | a new viewer stores the width and bake times and the normaliser is the largest item bake time in ticks |
| Viewer.MaxRemaining | bellmans_bakery/viewer.py:160-161 | the slowest batch's remaining ticks bound every batch's and belong to one of them |
| Viewer.Progress | bellmans_bakery/viewer.py:160-166 | the fill fraction lies in [0, 1]; an empty oven shows 0; it is 1 iff every batch is done, and 0 iff some batch still needs at least `max(1, max_bake_ticks)` ticks |
| Viewer.ProgressUnclamped | bellmans_bakery/viewer.py:161-164 | when remaining times lie within the normaliser, the fraction is exactly `1 - max_remaining / max_bake_ticks` |
| Viewer.ProgressMonotone | bellmans_bakery/viewer.py:161-164 | an oven whose slowest batch has more left to bake never shows more progress |
| Viewer.ThumbRow | bellmans_bakery/viewer.py:174-188 | one thumbnail per batch, in oven order, 38 px apart, at y = 312, with the row of overlapping 50 px thumbnails centred on the 300 px oven |
| Viewer.CentredRowPositions | bellmans_bakery/viewer.py:178-181 | thumbnail `j` of `n` sits at `ox + 150 - (38n + 12) // 2 + 38j` |
| Viewer.OvenViews | bellmans_bakery/viewer.py:118-189 | oven `k` is drawn 420·k px right of the origin with caption "Oven k+1", a bar inset 12 px on both sides 10 px under the oven, its progress fraction and a centred thumbnail row |
| Viewer.QueueAvatars | bellmans_bakery/viewer.py:191-205 | at most twelve avatars, for the first customers, centre `i` at (100 + 40i, 464) |
| Viewer.FormatLabel | bellmans_bakery/viewer.py:213-216 | the formatted label is never longer than the raw name; the three lemmas below pin it down |
| Viewer.FormatLabelClean | bellmans_bakery/viewer.py:213-216 | the formatted label contains no underscore and does not start or end with whitespace |
| Viewer.FormatLabelEmpty | bellmans_bakery/viewer.py:213-216 | the label is empty exactly when the raw action name consists only of underscores and whitespace |
| Viewer.FormatLabelFrom | bellmans_bakery/viewer.py:213-216 | a non-empty label is the raw name's middle: blanks and underscores dropped on both sides, inner underscores read as spaces, first character upper-cased |
| Viewer.ActionLabel | bellmans_bakery/viewer.py:207-217 | the action bar text has no underscore and no blank at either end |
| Viewer.ActionLabelIdempotent | bellmans_bakery/viewer.py:213-216 | formatting an already formatted label changes nothing |
| Viewer.IdleExample | bellmans_bakery/viewer.py:213-216 | with no recorded action the bar reads "Idle" |
| Viewer.EmptyLabelExamples | bellmans_bakery/viewer.py:214-216 | "" and "___" both give an empty label |
| Viewer.ActionLabelBakeExample | bellmans_bakery/viewer.py:213-216 | "bake_mini_red_velvet" is shown as "Bake mini red velvet" |
| Viewer.Render | bellmans_bakery/viewer.py:220-230 | a frame shows the clock text for `t`; tile `i` at its grid origin with the item's count and price; oven `k` 420·k px right of the origin with caption "Oven k+1", its centred thumbnail row and the progress fraction normalised by the viewer's own `max_bake_ticks`; the first twelve avatar centres at (100 + 40i, 464); and the action label |
| Playback.LoadPolicy | scripts/run_viewer.py:41-49 | the policy is the requested algorithm exactly when loading succeeds, else the random fallback |
| Playback.Init | scripts/run_viewer.py:51-70 | the loop starts running, unpaused and not done, with the first observation, the loaded policy, the writer open exactly when a non-empty path was given and the writer could be created, and all counters at zero |
| Playback.NoWriterNoFrames | scripts/run_viewer.py:59-70 | without a recording path, or when creating the writer fails, no writer is ever open, no frame is recorded and nothing is closed |
| Playback.PollEvents | scripts/run_viewer.py:73-91 | polling stops with quit iff a QUIT is queued; otherwise the pause flag flips once per SPACE/P key and one screenshot is saved per S/F12 key |
| Playback.PollStopsAtQuit | scripts/run_viewer.py:73-81 | events queued after a QUIT have no effect |
| Playback.ChooseAction | scripts/run_viewer.py:94-97 | a loaded model predicts from the current observation; without one the action is a random sample |
| Playback.Advance | scripts/run_viewer.py:92-102 | a finished episode is reset; while paused nothing changes; otherwise one step is taken and `done` becomes `terminated or truncated`; the recorder, pause flag and policy are untouched |
| Playback.Record | scripts/run_viewer.py:105-129 | with an open writer a successful append counts one frame and closes at the duration limit, a failed append closes without counting; without a writer nothing changes |
| Playback.Cutoff | scripts/run_viewer.py:114-122 | the frames a never-failing writer records with `fps > 0` is `record_seconds * max(1, fps)`, or 1 if that is larger; with `fps <= 0` the loop stops after one frame |
| Playback.Step | scripts/run_viewer.py:72-131 | QUIT ends the loop with the writer closed once if it was open and nothing stepped; otherwise the pause flag follows the keys, a finished episode is reset, a paused one holds still, an unpaused one takes the policy's action and adopts the step's observation and done flag, the frame is counted iff the write succeeds, the writer closes exactly once on a failed write or at the cutoff, and a non-positive fps crashes the loop |
| Playback.Run | scripts/run_viewer.py:72 | a stopped loop stays as it is; the policy never changes; a closed writer never reopens; the frame count never decreases |
| Playback.InitInv | scripts/run_viewer.py:41-70 | the startup state satisfies the loop invariant |
| Playback.StepInv | scripts/run_viewer.py:72-131 | one iteration preserves the invariant: fixed policy, actions only from that policy, writer closed at most once, never past the cutoff |
| Playback.RunInv | scripts/run_viewer.py:72-131 | any number of iterations preserves the invariant |
| Playback.PolicyFixed | scripts/run_viewer.py:42-49 | the policy chosen at startup is the one in use after any run |
| Playback.FallbackOnlySamples | scripts/run_viewer.py:94-97 | when loading the model fails, every action taken was a random sample |
| Playback.QuitClosesWriterOnce | scripts/run_viewer.py:73-81 | a run that ends by QUIT ends with the writer closed, closed exactly once if it was ever opened |
| Playback.RunQuitCloses | scripts/run_viewer.py:73-81 | a run ending in QUIT has no writer open |
| Playback.WriterNeverReopens | scripts/run_viewer.py:105-129 | once the writer is gone it never reopens and no further frame is counted |
| Playback.KeepsRunning | scripts/run_viewer.py:72-131 | with positive fps and no QUIT the loop keeps running |
| Playback.CutoffExact | scripts/run_viewer.py:113-122 | with no write failure and no QUIT, the writer is closed after exactly the cutoff number of frames and stays closed |
| Playback.RecordingExample | scripts/run_viewer.py:113-122 | `--fps 30 --record_seconds 2` with a working writer records exactly 60 frames |
| Playback.WriteFailureDisables | scripts/run_viewer.py:123-129 | a failed append closes the writer, does not count the frame, and the loop goes on |
| Playback.NonPositiveFpsCrashes | scripts/run_viewer.py:131 | with fps ≤ 0 the loop stops at the pacing sleep of its first iteration |
| Playback.PausedHoldsObservation | scripts/run_viewer.py:92-99 | while paused the environment is never stepped: observation and action history stay fixed |
| Playback.DoneResets | scripts/run_viewer.py:100-102 | an iteration starting after the episode ended resets it and takes no step |
| ExportPlots.NewestIndex | scripts/export_tb_plots.py:20-22 | the chosen candidate has the largest modification time, and every earlier candidate is strictly older |
| ExportPlots.FindEventFile | scripts/export_tb_plots.py:20-22 | there is no event file exactly when the directory holds no candidates |
| ExportPlots.FindEventFileNewest | scripts/export_tb_plots.py:20-22 | the returned file is one of the candidates and none is newer |
| ExportPlots.ParseEntry | scripts/export_tb_plots.py:44-47 | an entry is malformed iff it has no '='; a parsed label holds no '=' |
| ExportPlots.ParseJoin | scripts/export_tb_plots.py:44-52 | joining an '='-free label and any path with '=' parses back to the stripped label and the path, even when the path contains '=' |
| ExportPlots.ParseSplit | scripts/export_tb_plots.py:44-52 | every parsed entry is an '='-free raw label, an '=', and the path, with the label the stripped raw label |
| ExportPlots.MalformedExample | scripts/export_tb_plots.py:44-46 | "runs/ppo" is rejected as malformed |
| ExportPlots.EntrySeries | scripts/export_tb_plots.py:43-52 | an entry contributes one series iff it parses and its directory has an event file; the series has the parsed label and reads that directory's newest event file |
| ExportPlots.CollectSeries | scripts/export_tb_plots.py:42-52 | each entry contributes at most one series, those of the first entry come before those of the rest (helper `CollectCons`), and with `EntrySeries` and `CollectAppend` the result is the per-entry loop |
| ExportPlots.CollectKeepsEveryEntry | scripts/export_tb_plots.py:43-52 | no entry is dropped exactly when every entry parses and its directory has an event file |
| ExportPlots.CollectAppend | scripts/export_tb_plots.py:42-52 | entries are processed independently and in order: the series of concatenated entry lists concatenate |
| ExportPlots.ParsedLabelClean | scripts/export_tb_plots.py:47-52 | a parsed label has no '=' and no whitespace at either end |
| ExportPlots.CollectedLabelsClean | scripts/export_tb_plots.py:42-52 | every collected series label has no '=' and no whitespace at either end |
| ExportPlots.SelectSeries | scripts/export_tb_plots.py:40-61 | a non-empty `--series` list selects exactly the series collected from its entries; otherwise a non-empty `--logdir` gives "no event files" iff that directory has none, and else the single series "run" on its newest event file; nothing is selected exactly when neither option is given |
| ExportPlots.SeriesPrecedence | scripts/export_tb_plots.py:42-53 | with `--series` given, `--logdir` makes no difference |
| ExportPlots.LogdirAlone | scripts/export_tb_plots.py:53-58 | `--logdir` alone gives the single series "run" reading that directory's newest event file |
| ExportPlots.ColorIndex | scripts/export_tb_plots.py:69-80 | the colour slot is a valid palette index and the first seven series get distinct slots in order |
| ExportPlots.ColorCycle | scripts/export_tb_plots.py:80 | colours repeat every seven series |
| ExportPlots.LinesFrom | scripts/export_tb_plots.py:74-81 | at most one curve per series, each with a valid palette slot |
| ExportPlots.LinesFromAppend | scripts/export_tb_plots.py:74-81 | series are drawn one at a time: the curves of a concatenation concatenate, with the numbering continued |
| ExportPlots.LinesFromSingle | scripts/export_tb_plots.py:74-81 | a single series gives one curve in its slot exactly when it has the tag, and none otherwise |
| ExportPlots.LinesFromSound | scripts/export_tb_plots.py:74-81 | every curve is a series that has the tag, drawn with its label and its own enumeration slot |
| ExportPlots.LinesFromComplete | scripts/export_tb_plots.py:74-81 | every series that has the tag is drawn with its label and its own enumeration slot |
| ExportPlots.SkippedSeriesKeepsSlot | scripts/export_tb_plots.py:74-81 | when the first of two series lacks the tag, the second is drawn alone in colour slot 1 |
| ExportPlots.LinesIffTagged | scripts/export_tb_plots.py:73-84 | a plot draws some curve exactly when some series has its tag |
| ExportPlots.AllTaggedLines | scripts/export_tb_plots.py:74-81 | when every series has the tag, curve `i` is series `i` with its label and colour slot `i mod 7` |
| ExportPlots.OutputName | scripts/export_tb_plots.py:91 | the file name is the tag with '/' turned into '_', then "_overlay" exactly when there is not exactly one series, then ".png" |
| ExportPlots.OutputNameExample | scripts/export_tb_plots.py:91 | one series and "rollout/ep_rew_mean" give "rollout_ep_rew_mean.png" |
| ExportPlots.SavedFigure | scripts/export_tb_plots.py:71-95 | a plot is saved iff some series has its tag, under the output name for the selected number of series |
| ExportPlots.OverlayIffSeveral | scripts/export_tb_plots.py:89-91 | a saved figure carries "_overlay" exactly when more than one series was selected |
| ExportPlots.Export | scripts/export_tb_plots.py:63-95 | without a selection nothing is written; otherwise each of the two plots is written, under its output name, iff some selected series has its tag |
| ExportPlots.DistinctOutputs | scripts/export_tb_plots.py:64-67 | the two plots never write to the same file |

## Left out

- Pixels:
  - pygame drawing, colours, rounded rectangles and icons;
  - image loading with its placeholder surfaces (`viewer.py:42-66`);
  - label positions that depend on the rendered font width;
  - the pixel width `int(bar_w * frac)` of the progress bar.
- Float text: the `:.2f` texts for profit, multiplier and prices. The viewer
  model keeps the price value itself.
- `render`'s own event drain (`viewer.py:221-224`). A QUIT consumed there
  raises `SystemExit` outside the loop's QUIT handling. The model delivers
  every event to the loop's poll instead.
- Pacing: `clock.tick(30)` and `time.sleep(1.0 / fps)`. Only the crash on a
  non-positive fps is kept.
- Screenshot file writing and timestamps. A screenshot is counted, not saved.
  Also out: `os.makedirs` for the screenshot and video directories, and the
  writer's own frame rate argument.
- The environment, the action masker and model loading internals. Whether
  loading succeeds, each observation and each sampled action are inputs.
- TensorBoard event parsing, which becomes a set of (event file, tag) pairs.
  The step and value arrays are not modelled.
- matplotlib figure size, title, axis labels, grid, the legend (drawn only for
  more than one series), dpi, and the console messages.
- `--outdir` and `outdir.mkdir(parents=True, exist_ok=True)`
  (`export_tb_plots.py:37-38`). `ExportPlots.Export` gives each figure's file
  name inside the output directory, not the joined path.
- `stats_tmp.py`, a standalone analysis script outside the core.
- Viewer.ActionLabel: upper-cases only ASCII `a`–`z`. Python's `str.upper` also
  maps other lower-case letters, some to several characters.
- Viewer.Progress: uses exact real arithmetic, whereas Python uses IEEE doubles.
- Viewer.InventoryTiles: takes counts as integers already and prices as exact
  reals, where Python applies `int(...)` and `float(...)`.
- ExportPlots.FindEventFile: takes modification times as integers and paths as
  given, without `Path` normalisation. The recursive glob becomes the
  `FileSystem` map.
