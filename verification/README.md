# Sleep logger core, modelled in Dafny

This project models the core of a Raspberry Pi sleep logger. The logger
samples an MMA8452Q accelerometer and turns the motion between samples into
a diff value. It integrates the diffs into an activity level that spikes and
decays, and classifies each sample as deep sleep or not. It adapts its
sampling delay to the motion. Samples are collected in chunks. Each chunk
is plotted on a 128 x 32 OLED panel and logged to a redis stream and to an
HDF5 file.

Modules, one per part of the program:

- `Common` (common.dfy): `Option`, and `Label`, the symbolic text of a caption or a formatted number.
- `Activity` (activity.dfy): `integrate_activity`, `detect_state` and the delay controller of `SleepLogger.py`, as pure functions.
- `Sampler` (sampler.dfy): `adaptive_logger`.
  - A recursive specification says what slot i of every array holds.
  - An imperative method with the source's loop fills seven arrays and is proved against that specification.
- `Mma` (mma.dfy): `MMA.py`.
  - The bus is a class that records its transactions.
  - The read decode is a pure function.
  - The device class issues the configuration writes.
- `Display` (display.dfy): the drawing vocabulary shared by the two OLED classes.
  - Each picture is a list of draw calls, and `Pixel` gives the shade those calls leave.
  - The window of `draw_timeseries`: a stride, then the last 128 points.
  - The peak scaling, as a function and as in-place array methods over the caller's array.
  - The polyline.
- `DriversOled` (drivers_oled.dfy): the OLED class of `drivers/OLED.py`, the one the logger uses.
- `Oled` (oled.dfy): the older copy of that class in `OLED.py`. It places top-right text differently, clears and pushes in `draw_text`, and draws the frame inline.
- `Logger` (logger.dfy): the `SleepLogger` class.
  - The redis stream is a sequence of records, and the HDF5 file a map from group name to group.
  - `log_data` selects the sinks.
  - `chunkwise_logger` is a loop over cycles. It is specified by folds over the cycles: the seed each cycle starts from, the chunk it logs, the records, the store and the pictures.

Inputs from the outside world are parameters:

- the sensor reads, including their timestamps: a `seq<Read>` per cycle;
- the clock reading that starts a cycle;
- the timestamp `now()` gives `log_to_hdf`;
- the bytes the accelerometer answers on the bus;
- the text metrics of the font library: a function given to the display's constructor.

Notes on the code:

- `detect_state` returns 1 when activity < 0.01 and 0 otherwise (`SleepLogger.py:77-82`).
- Each cycle takes a new baseline read. The `init_acc` argument is not read (`SleepLogger.py:113-114`, `249`). So a cycle's first diff is not taken against the previous cycle's last read. `Sampler.ChunkBoundaryContinuity` and `Logger.CyclesChain` state exactly when two chained cycles equal one long cycle: when the second baseline read repeats the first cycle's last read.
- `create_group` raises when the group already exists. By then `dataset_name` has already been restamped, and `H5_INIT` stays false (`SleepLogger.py:204-206`).
- The diffs that `log_data` receives have already been rescaled in place by `draw_timeseries` (`SleepLogger.py:255`, `261`). `Logger.Logged` models the chunk as logged, with those diffs.

## Model

| member | source | states |
|---|---|---|
| Activity.Spiked | SleepLogger.py:57-58 | A spike moves activity 7% of the way to 1. From [0, 1] the result stays in [a, 1], strictly above a when a < 1. |
| Activity.Floored | SleepLogger.py:71-72 | The clamp is never negative, never lowers its input, and leaves non-negative values alone. |
| Activity.IntegrateActivity | SleepLogger.py:45-75 | The result is never negative. last_spike becomes now exactly on a spike. A spike from [0, 1] stays in [a, 1]. Without a spike and with dt >= 0, activity never rises. Without a spike and within 300000 ms of the last spike, both state variables come back unchanged. |
| Activity.SpikeStepNeverDecays | SleepLogger.py:57-68 | On a spike the decay gate is shut: the result is the floored spike update and last_spike is now. |
| Activity.QuietStepDecays | SleepLogger.py:65-72 | Without a spike, after the quiet period, activity becomes a * (1 - dt / 120000), floored at 0. |
| Activity.QuietStepStrictlyDecays | SleepLogger.py:65-68 | With positive activity, dt > 0 and the gate open, activity strictly decreases. |
| Activity.DetectState | SleepLogger.py:77-82 | The state is 0 or 1, and 1 exactly when activity < 0.01. |
| Activity.NextDelay | SleepLogger.py:130-138 | Movement divides the delay by 10 with floor 2; stillness multiplies it by 1.2 with cap 200. The result stays in [2, 200]. It hits the floor exactly when the delay is at most 20, and the cap exactly when 1.2 times the delay reaches 200. |
| Sampler.Diff | SleepLogger.py:121-122 | The diff is the absolute value of the mean of the three signed axis deltas: non-negative, and zero exactly when the deltas cancel. |
| Sampler.RunAtCarry | SleepLogger.py:117-163 | After k iterations the loop's control state is the state reached by k integrator and controller steps. |
| Sampler.CycleChunk | SleepLogger.py:101-160 | All nine series of a cycle have length sample_size. |
| Sampler.RunAtPrefix | SleepLogger.py:151-160 | Later iterations never overwrite a slot already stored. |
| Sampler.CycleChunkSlot | SleepLogger.py:117-160 | Slot i holds iteration i's values: ts = t - start_milli, ts_realtime = t, the read's axes, its diff against the previous read, the activity and delay after i + 1 steps, and state = detect_state(acts[i]). |
| Sampler.StoreSlot | SleepLogger.py:151-160 | Storing iteration i extends the filled prefix of every array by slot i, keeping the slots before it. Every slot after i keeps its value. |
| Sampler.AdjustDelay | SleepLogger.py:130-138 | The imperative controller computes NextDelay. |
| Sampler.Iteration | SleepLogger.py:118-162 | One loop iteration advances the control state by one step and fills slot i. Every slot after i keeps its value. |
| Sampler.SampleLoop | SleepLogger.py:117-163 | The sampling loop fills every array slot by slot, exactly as the cycle specification says. It returns the final control state's last_spike. |
| Sampler.AdaptiveLogger | SleepLogger.py:84-168 | Returns seven fresh arrays, and raw_data is sample_size x 3. Every array equals the matching series of the cycle specification. The returned last_spike is the final control state's. |
| Sampler.DelaysStayInRange | SleepLogger.py:130-138 | Starting from a delay in [2, 200], every control state's delay stays in [2, 200]. |
| Sampler.ChunkDelaysInRange | SleepLogger.py:130-157 | With init_delay in [2, 200], every stored delay is in [2, 200]. |
| Sampler.QuietActivityNonIncreasing | SleepLogger.py:57-72 | Over a stretch of non-spiking reads whose times do not go backwards, activity never increases. |
| Sampler.ActivityStaysInUnitInterval | SleepLogger.py:45-75 | From an activity in [0, 1], with times that do not go backwards, activity stays in [0, 1]. |
| Sampler.CarryAtPrefix | SleepLogger.py:117-163 | Reads after the k-th do not affect the state after k steps. |
| Sampler.ChunkBoundaryContinuity | SleepLogger.py:244-258 | A second cycle started from the first cycle's final state, whose baseline repeats the first cycle's last read, evolves exactly like one long cycle over both cycles' reads. |
| Mma.Bus.WriteByteData | MMA.py:53 | A register write appends one write transaction to the bus trace. |
| Mma.Bus.ReadBlockData | MMA.py:71 | A block read appends one read transaction and returns the device's bytes. |
| Mma.Raw | MMA.py:73 | msb * 256 + lsb is a 16-bit value. |
| Mma.DecodeAxis | MMA.py:73-81 | The axis is (msb * 256 + lsb) / 16, minus 4096 exactly when that exceeds 2047. It lies in (-2049, 2047], and is non-negative exactly when the undecoded value is at most 2047. |
| Mma.DecodeIsTwosComplement | MMA.py:73-81 | With the lsb's low nibble zero, the decode is the 12-bit two's-complement value of the register pair, an integer in [-2048, 2047]. |
| Mma.DecodeEncode | MMA.py:73-81 | Every 12-bit sample, left-justified into a register pair, decodes back to itself. |
| Mma.DecodeBlock | MMA.py:71-82 | X, Y and Z decode by the same rule from bytes 1-2, 3-4 and 5-6 of the 7-byte read. |
| Mma.StatusIgnored | MMA.py:71-82 | The status byte never affects the reading. |
| Mma.ModeConfig | MMA.py:56-60 | Control register 1 receives 0x01 (800 Hz, normal, active) when no mode is given, and the given mode unchanged otherwise. |
| Mma.Mma8452q.constructor | MMA.py:48-50 | Construction writes CTRL_REG1 (0x2A) = 0x01, then XYZ_DATA_CFG (0x0E) = 0x00, both to address 0x1D, in that order. |
| Mma.Mma8452q.Write | MMA.py:51-53 | One write of the setting to the register at 0x1D. |
| Mma.Mma8452q.ModeConfiguration | MMA.py:54-62 | One write of ModeConfig(mode) to CTRL_REG1 at 0x1D. |
| Mma.Mma8452q.DataConfiguration | MMA.py:63-67 | One write of the 2g full-scale setting to XYZ_DATA_CFG at 0x1D. |
| Mma.Mma8452q.ReadAccl | MMA.py:68-82 | One 7-byte read from register 0x00, decoded as DecodeBlock. |
| Display.ResolveFont | drivers/OLED.py:42-49 | No font gives the default font, the strings "large", "medium" and "small" give their fonts, and a font object is used as given. A name is unresolved exactly when it is none of the three strings: textsize raises. |
| Display.ClearBlanksPanel | drivers/OLED.py:29-30 | After the clear rectangle every on-screen pixel is black, whatever was drawn before. |
| Display.FrameOps | drivers/OLED.py:64-68 | The frame is two filled rectangles. |
| Display.FrameIsBorder | drivers/OLED.py:64-68 | After the frame a pixel is black inside (b, b)-(127 - b, 31 - b) and white elsewhere on the panel. |
| Display.CenterAnchor | drivers/OLED.py:55-57 | Centred text at (64 - w//2, 16 - h//2): its left and right margins differ by at most one pixel, and so do its top and bottom margins. |
| Display.Preamble | drivers/OLED.py:40-52 | draw_text's optional clear and optional frame are one and two rectangles. |
| Display.Glyphs | drivers/OLED.py:54-60 | The text call, when there is an anchor, draws this text in this font at that anchor; otherwise nothing is drawn. |
| Display.FramedText | drivers/OLED.py:40-52 | With or without the clear before it, a frame leaves exactly the border white. |
| Display.Stride | drivers/OLED.py:72-74 | The stride is len // 128 when that exceeds 1, and 1 otherwise. |
| Display.StridedIndexing | drivers/OLED.py:72-74 | data[::k] has one point per multiple of k below len, and point i is data[i * k]. |
| Display.Tail | drivers/OLED.py:77 | data[-128:] is the last min(len, 128) points. |
| Display.View | drivers/OLED.py:72-77 | The plotted window has at most 128 points, is nonempty for nonempty data, and is the tail of the strided data. |
| Display.ViewAt | drivers/OLED.py:72-77 | Point j of the window is the caller's element ViewIndex(len, j). |
| Display.ViewIndexIncreasing | drivers/OLED.py:72-77 | Window points come from strictly increasing, hence distinct, positions of the caller's array. |
| Display.Peak | drivers/OLED.py:80 | max(window) is an element of the window and at least every element. |
| Display.PeakScaling | drivers/OLED.py:80-85 | The peak maps to 32 when max > 20, else to 32/3. Non-negative points map into [0, that height]. |
| Display.Rescaled | drivers/OLED.py:77-85 | Rescaling keeps the array's length and leaves every element outside the window alone. |
| Display.RescaledView | drivers/OLED.py:80-85 | The rescaled array's window is the old window with each point scaled by v / m * factor. |
| Display.TwoPassesRescale | drivers/OLED.py:81-85 | The two in-place passes, divide by max and then multiply by the factor, give Rescaled. |
| Display.WindowPeak | drivers/OLED.py:80 | The loop returns the window's maximum. |
| Display.ScaleWindow | drivers/OLED.py:81-85 | One in-place pass over the view applies the operation to exactly the window's positions of the caller's array. |
| Display.ScaleInPlace | drivers/OLED.py:77-85 | Empty data is reported (max raises), and so is a zero peak; otherwise the caller's array becomes Rescaled of its old contents. |
| Display.Polyline | drivers/OLED.py:89-90 | len - 1 segments, segment x running from column x to column x + 1. |
| Display.PolylineJoins | drivers/OLED.py:89-90 | Consecutive segments join: segment x ends where segment x + 1 starts. Segment x starts at height 32 - data[x]. |
| Display.PlotStaysOnScreen | drivers/OLED.py:80-90 | For non-negative data with a positive peak, every plotted point is on the panel. |
| DriversOled.TopRightAnchor | drivers/OLED.py:58-60 | Top-right text has its right edge 4 px from the panel's and its top at y = 1. |
| DriversOled.Anchor | drivers/OLED.py:55-60 | center and topright give their anchors; any other pos draws no text. |
| DriversOled.Oled.PlotOps | drivers/OLED.py:87-93 | The plot is the optional clear, the polyline and the optional caption, with the count of each. |
| DriversOled.Oled.constructor | drivers/OLED.py:9-28 | The panel is blanked and shown. "Sleep Well" is drawn cleared, framed with border 1, centred, in the large font, and pushed once. |
| DriversOled.Oled.ClearDisplay | drivers/OLED.py:29-32 | Appends the clear rectangle, and pushes only when redraw is set. |
| DriversOled.Oled.DrawImage | drivers/OLED.py:33-35 | Pushes the current picture and changes nothing else. |
| DriversOled.Oled.DrawFrame | drivers/OLED.py:64-68 | Appends the white full rectangle, then the black inset one. |
| DriversOled.Oled.DrawPreamble | drivers/OLED.py:40-52 | draw_text's optional clear, then its optional frame. |
| DriversOled.Oled.DrawText | drivers/OLED.py:37-62 | Succeeds exactly when the font resolves. The picture gains the preamble, then the text at its anchor (or no text when the font fails). It is pushed only on success with redraw. |
| DriversOled.Oled.DrawTimeseries | drivers/OLED.py:70-96 | Empty data and a zero peak change nothing. Otherwise the caller's array is rescaled in place, the picture gains PlotOps of the rescaled window, and it is pushed when redraw is set. |
| DriversOled.Oled.Plot | drivers/OLED.py:87-93 | Draws the optional clear, the polyline and the top-right caption without pushing. |
| DriversOled.Oled.DrawLines | drivers/OLED.py:89-90 | The segment loop appends exactly the polyline. |
| DriversOled.Oled.Stimulus | drivers/OLED.py:105-106 | "STIMULUS" is centred in the medium font, not cleared and not pushed. |
| DriversOled.Oled.StimulusOps | drivers/OLED.py:105-106 | A trigger adds one text call and no trigger adds none. |
| DriversOled.Oled.Finish | drivers/OLED.py:105-107 | The end of draw_display adds "STIMULUS" when triggered, then pushes the picture once. |
| DriversOled.Oled.DrawDisplay | drivers/OLED.py:98-107 | The series is drawn cleared with the status caption, "STIMULUS" is added when triggered, and the picture is pushed once. At a zero peak no series is drawn, but "STIMULUS" and the push still happen. Empty data raises in max and changes nothing. |
| Oled.TopRightAnchor | OLED.py:57-59 | Top-right text is flush with the corner, at (128 - w, 0). |
| Oled.Anchor | OLED.py:54-59 | center and topright give their anchors; any other pos draws no text. |
| Oled.Oled.PlotOps | OLED.py:81-86 | The plot is the optional clear, the polyline and the optional caption. |
| Oled.Oled.constructor | OLED.py:7-24 | "Sleep Well" is drawn cleared (the default), framed, centred, in the large font. draw_text pushes it once. |
| Oled.Oled.ClearDisplay | OLED.py:26-29 | Appends the clear rectangle, and pushes only when redraw is set. |
| Oled.Oled.DrawImage | OLED.py:30-32 | Pushes the current picture. |
| Oled.Oled.DrawPreamble | OLED.py:36-51 | The optional clear, then the two frame rectangles drawn inline. |
| Oled.Oled.DrawText | OLED.py:34-61 | Succeeds exactly when the font resolves. The picture gains the preamble and the anchored text, and it is always pushed on success. |
| Oled.Oled.DrawTimeseries | OLED.py:64-88 | Empty data and a zero peak change nothing. Otherwise the array is rescaled in place and the plot drawn. The picture is pushed twice with a caption, since the caption's draw_text pushes too, and once without. |
| Oled.Oled.Plot | OLED.py:81-88 | Draws the plot, then the pushes just described. |
| Oled.Oled.DrawLines | OLED.py:83-84 | The segment loop appends exactly the polyline. |
| Logger.Trunc | SleepLogger.py:190-192 | int() truncates toward zero. |
| Logger.TruncOfIntegral | SleepLogger.py:190-192 | A float holding an integer is cut to that integer. |
| Logger.Records | SleepLogger.py:184-196 | One record per slot, in slot order. |
| Logger.CycleRecords | SleepLogger.py:184-196 | Record i of a cycle's raw chunk has t = read time - start_milli, t_realtime = read time, the read's axes, the diff against the previous read with 2 decimals, the activity with 4 decimals and the delay with 2. Its state is 1 exactly when activity < 0.01, and 0 exactly otherwise. |
| Logger.DisplayedRecords | SleepLogger.py:184-196 | A record of the chunk as logged differs from the raw record only in its diff. That diff is the scaled value v / m * factor for a slot in the plotted window when the display rescaled, and the raw diff otherwise. |
| Logger.CreatedAt | SleepLogger.py:208-216 | After k creations exactly the first k datasets exist, each equal to the chunk's series. |
| Logger.NewGroup | SleepLogger.py:203-216 | The new group has all nine datasets, each equal to the chunk's series. |
| Logger.AppendedAt | SleepLogger.py:220-230 | After k append steps, a dataset has had the chunk appended exactly when it is among the first k. |
| Logger.AppendedNothing | SleepLogger.py:224-230 | Appending an empty chunk changes no dataset. |
| Logger.Appended | SleepLogger.py:219-230 | A later write grows every dataset by the chunk's length, keeps the old prefix and puts the chunk in the tail. |
| Logger.AppendedEvery | SleepLogger.py:219-230 | After all nine steps every dataset is its old value followed by the chunk's series. |
| Logger.HdfWrite | SleepLogger.py:199-234 | Every write keeps the store consistent: once initialised, the logger's group exists with nine datasets of one length. |
| Logger.HdfFirstWrite | SleepLogger.py:203-218 | The first write to a new timestamp creates that group with the chunk's series, sets H5_INIT and leaves other groups alone. |
| Logger.HdfRefusesExistingGroup | SleepLogger.py:203-206 | A first write to an existing group name fails and leaves the file and H5_INIT unchanged. |
| Logger.HdfLaterWrite | SleepLogger.py:219-230 | A later write of a nonempty chunk grows every dataset by the chunk's length, keeps the prefix, puts the chunk in the tail, and leaves other groups alone. |
| Logger.HdfEmptyAppendFails | SleepLogger.py:224-230 | A later write of an empty chunk to a nonempty group fails, because the slice [-0:] is the whole dataset, and changes nothing. |
| Logger.HdfTwoWrites | SleepLogger.py:199-230 | Two writes create the group under the first timestamp, and every dataset holds the first chunk followed by the second. |
| Logger.RawChunk | SleepLogger.py:246-252 | Each cycle's arrays have t_size slots. |
| Logger.Logged | SleepLogger.py:255-261 | The chunk logged has t_size slots in every series. |
| Logger.RecordsUpTo | SleepLogger.py:261 | k cycles log k * t_size records. |
| Logger.StoreAfter | SleepLogger.py:261 | The store stays consistent over any number of cycles. |
| Logger.SeedIsFinalCarry | SleepLogger.py:247-258 | Reading acts[-1] and delays[-1] back out of the arrays loses nothing: the next seed is the state in which the cycle ended. |
| Logger.SeedStep | SleepLogger.py:246-258 | The next seed is the control state after the cycle's t_size iterations. |
| Logger.SeedDelaysInRange | SleepLogger.py:239-258 | Starting from 2.0, every cycle's seed delay is in [2, 200]. |
| Logger.SeedActivitiesInRange | SleepLogger.py:239-258 | Starting from 0, with read times that do not go backwards, every cycle's seed activity is in [0, 1]. |
| Logger.CyclesChain | SleepLogger.py:244-258 | If cycle k + 1's baseline repeats cycle k's last read, cycle k + 1 evolves exactly like the continuation of cycle k. |
| Logger.Column | SleepLogger.py:211-213 | var[:, k] is column k of raw_data. |
| Logger.SleepLogger.constructor | SleepLogger.py:13-36 | The accelerometer's two configuration writes go out on the bus, dataset_name is stamped, H5_INIT is cleared and the display shows "Sleep Well". |
| Logger.SleepLogger.LogToRedis | SleepLogger.py:184-197 | The stream gains exactly the chunk's records, in order. The result is the position of the last entry added. For an empty chunk it is None; Python would raise there, because res is never bound. |
| Logger.SleepLogger.LogToHdf | SleepLogger.py:199-234 | Its effect on the file, H5_INIT and dataset_name, and its success, are HdfWrite's. |
| Logger.SleepLogger.CreateGroup | SleepLogger.py:203-218 | Creating the datasets one by one yields NewGroup under dataset_name. |
| Logger.SleepLogger.AppendGroup | SleepLogger.py:219-230 | Fails exactly for an empty chunk on a nonempty group, changing nothing. Otherwise the group becomes Appended. |
| Logger.SleepLogger.AppendSeries | SleepLogger.py:222-230 | One dataset's resize and tail assignment, or the failure on [-0:]. |
| Logger.SleepLogger.LogData | SleepLogger.py:170-182 | The stream gains the records only if LOG_TO_REDIS is set. The store takes the HDF write only if LOG_TO_HDF is set. |
| Logger.SleepLogger.ChunkwiseLogger | SleepLogger.py:237-263 | No cycles or t_size 0 raise and change nothing. Otherwise the result is the last logged chunk, and the stream, store, picture and pushes are the folds over all cycles. |
| Logger.SleepLogger.FoldCycle | SleepLogger.py:244-261 | One cycle advances every fold by one step. |
| Logger.SleepLogger.FoldStep | SleepLogger.py:244-261 | If the state after k cycles is the k-fold and one cycle logs cycle k's chunk, the state is then the (k + 1)-fold. |
| Logger.SleepLogger.Cycle | SleepLogger.py:244-261 | A cycle from its seed hands on the next seed and logs the cycle's chunk with its rescaled diffs. The display gains the cycle's plot, pushed once, or nothing at a zero peak. |
| Logger.SleepLogger.SampleCycle | SleepLogger.py:246-258 | adaptive_logger from the seed yields the cycle's arrays, and acts[-1], delays[-1] and last_spike form the next seed. |
| Logger.SleepLogger.ShowCycle | SleepLogger.py:253-255 | draw_timeseries with caption acts[-1] (2 decimals), cleared and pushed, leaves the diffs rescaled exactly when their peak is not zero. It draws the chunk's plot and pushes it once, or does nothing. |
| Logger.SleepLogger.ShowStep | SleepLogger.py:253-255 | Each outcome of draw_timeseries on a chunk's diffs leaves the diffs, picture and pushes that the chunk's display specification gives. |

## Left out

- Hardware and libraries are abstracted:
  - the I2C transport (smbus) is a recorded trace of transactions;
  - the SSD1306 panel and PIL are a list of draw calls and a list of pushed pictures;
  - font loading and `textsize` are the `measure` function;
  - the pixel rendering of text and lines is left out.
- Dataset names are the constructors of `SeriesName` rather than strings.
- The logger's own sensor reads do not go through `Mma.Bus`. `getData` issues one 7-byte block read per sample, plus the baseline read of each cycle (`SleepLogger.py:38-43`, `113`, `118`). In the model the reads are inputs, so the bus trace after a run holds only the two configuration writes. The read values are also not tied to `Mma.DecodeBlock`: in the source they are multiples of 1/16 in (-2049, 2047], while here any reals are allowed.
- Wall-clock reads and `time.sleep` are left out: timestamps are inputs, and sleeping has no effect (`SleepLogger.py:41`, `110`, `166`).
- The threads that `log_data` and `chunkwise_logger` start run to completion in program order. Interleavings are not modelled, and neither is the race between a sink thread and the next cycle.
- Float arithmetic is exact `real` arithmetic. Rounding is not modelled, and neither are NaN and infinity.
- Display.ScaleInPlace: a zero window peak is reported as `ZeroPeak`, and the data and picture are left unchanged. numpy would instead fill the window with NaN or inf and draw it (`drivers/OLED.py:81`, `OLED.py:75`). The same holds for the members built on it:
  - `DriversOled.Oled.DrawTimeseries` and `Oled.Oled.DrawTimeseries` skip the polyline, the caption and the push at a zero peak, where the source draws them;
  - `DriversOled.Oled.DrawDisplay` skips the polyline and the caption at a zero peak, but still adds "STIMULUS" when triggered and pushes, as the source does;
  - `Logger.SleepLogger.ShowCycle`, `Logger.SleepLogger.Cycle` and `Logger.SleepLogger.ChunkwiseLogger` then hand `log_data` the cycle's original diffs, where the source would log NaN or inf in the window's positions.
- Float-to-string formatting is symbolic: `Fixed(digits, value)` stands for `"{0:.Nf}".format(value)`.
- Redis entry ids are stream positions rather than redis's time-based ids. The redis connection and host are left out.
- HDF5 file opening, gzip and chunking options, and the printed progress lines are left out.
- The verbose console line and the periodic OLED text of `adaptive_logger` (`SleepLogger.py:143-149`) are left out, as is the `Logger loaded` print.
- In `SleepLogger.__init__`, the `log_to_hdf` and `log_to_redis` arguments only decide whether the connection and the file name are set up. The model takes them as set, and takes the sink flags from `config.LOG_TO_REDIS` and `config.LOG_TO_HDF` as constructor parameters.
- `OLED_PLOT` is always set to True in `__init__` (`SleepLogger.py:30`), so every cycle plots. The model has no flag for it.
- `elapsed_time` in `chunkwise_logger` is computed but never used, and is left out.
- `Stimulus.py`, the web interface under `interface/` and `config.py`'s host and port constants are not part of this model. The activity threshold 12.5 is a constant.
