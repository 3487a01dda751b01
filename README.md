# bob.rppg.base in Dafny

A Dafny model of bob.rppg.base. The package estimates a heart rate from a
face video by remote photoplethysmography: the skin colour changes a little
with every heart beat, and three algorithms turn those changes into a pulse
signal:

- **CHROM** projects the mean skin colour of each frame onto a chrominance
  plane. It band-passes the two chrominance signals and combines them, with
  an optional overlap-add over Hanning windows.
- **2SR** (spatial subspace rotation) follows how the eigenvectors of the
  skin pixels' colour correlation matrix rotate from frame to frame. It
  builds the pulse from stride windows.
- **Li CVPR'14** takes the mean green value inside a face mask tracked from
  66 landmarks, and the mean green value of a background block. It removes
  illumination changes with an NLMS filter, and motion by dropping unstable
  segments and gluing the remaining ones back together. It ends with
  detrending and a moving average.

A Welch spectrum then gives the heart rate.

The model has two layers:

- **Library layer.** It holds the functions of the utility modules:
  - `BaseUtils`: crop, scale, band-pass design, boolean-mask selection and skin masks;
  - `ChromUtils`: mean RGB, grey-level difference, stable window and chrominance projection;
  - `Cvpr14Utils`: landmark mask, polygon, mask, tracking transform and green means;
  - `FilterUtils`: second difference, detrend and moving average;
  - `IllumUtils`: NLMS and illumination rectification;
  - `MotionUtils`: segments, pruning and the two collage variants;
  - `SsrUtils`: skin pixels, correlation, eigen order and build_P.
- **Driver layer.** It models the scripts, each as a frame-loop state machine with an imperative
  version over arrays that is proved against it: `ExtractPulse`,
  `ExtractPulseFromMask`, `SpatialSubspaceRotation`, `SsrFromMask`,
  `ExtractSignals`, `ExtractFaceAndBgSignals`, `MotionElimination` and
  `FrequencyAnalysis`. Modules shared by the drivers:
  - `Tracker`: the landmark-mask tracker the mask scripts share;
  - `PulseCombination`: CHROM's combination and overlap-add;
  - `Scripts`: the loop over database objects that stops at the first exception;
  - `Numerics`: Option, Result, sums, dot products and Python's int(), // and indexing.

Libraries the code calls out to are function-typed parameters with only the
shape contracts the code relies on. These are sqrt, std, Hanning, eig,
firwin, filtfilt, Welch, the OpenCV feature detector, optical flow and
rigid-transform estimator, the face detector, the skin colour filter,
rgb_to_gray, the image scaler and matplotlib's point-in-polygon test. File
existence and file contents are inputs. Python exceptions are the `Err`
case of a `Result`, carrying numpy's or Python's message. NaN is `None`.

## Model

| member | source | states |
|---|---|---|
| BaseUtils.ScaleImage | bob/rppg/base/utils.py:29-32 | scale_image returns a 3 x height x width array, and each value there is the scaler's value for that position |
| BaseUtils.ToUint8 | bob/rppg/base/utils.py:56 | astype('uint8') always gives a value in 0..255, and a value already in range is truncated down to that integer |
| BaseUtils.PySlice | bob/rppg/base/utils.py:52 | a Python slice is never longer than the sequence, and with bounds inside it is exactly that stretch |
| BaseUtils.CropRegionInside | bob/rppg/base/utils.py:52 | for a box inside the image, the slice has shape 3 x box height x box width and holds exactly the pixels the box covers |
| BaseUtils.FaceHeight | bob/rppg/base/utils.py:53-54 | the face height is int(facewidth * height / width): it is at most that product and within one below it |
| BaseUtils.FaceHeightSquare | bob/rppg/base/utils.py:53-54 | a square box is scaled to a height equal to the requested width |
| BaseUtils.CropFace | bob/rppg/base/utils.py:52-57 | crop_face returns 3 x int(facewidth * aspect) x facewidth, with every value a uint8 |
| BaseUtils.CropFaceSquare | bob/rppg/base/script/test.py:41-58 | a square box gives a facewidth x facewidth face (the 50 x 50 box cropped to width 48 gives 3 x 48 x 48) |
| BaseUtils.SelectCount | bob/rppg/chrom/extract_utils.py:52-54 | image[c, mask] has one entry per true mask cell |
| BaseUtils.SelectAgree | bob/rppg/chrom/extract_utils.py:52-54 | image[c, mask] does not depend on the pixels outside the mask |
| BaseUtils.SkinMask | bob/rppg/ssr/ssr_utils.py:74 | get_skin_mask gives one verdict per pixel, on the face's own grid |
| BaseUtils.NoSkin | bob/rppg/ssr/ssr_utils.py:74-75 | a filter that rejects every colour gives a mask with no true cell |
| BaseUtils.BandpassDesign | bob/rppg/base/utils.py:79-85 | the design succeeds exactly when 4 Hz is below fs/2 and order >= 0; it has order + 1 taps and edges 0.7/nyq and 4.0/nyq with nyq = fs/2, and 0 < low < high < 1 |
| BaseUtils.BuildBandpassFilter | bob/rppg/base/utils.py:60-101 | build_bandpass_filter fails exactly when the design does, and otherwise is firwin on order + 1 taps and the two normalised edges |
| BaseUtils.BandpassInBeatsPerMinute | bob/rppg/base/utils.py:79-85 | in beats per minute the pass band runs from exactly 42 to exactly 240 |
| ChromUtils.ChannelMean | bob/rppg/chrom/extract_utils.py:52-54 | the mean of one channel over the mask is NaN exactly when the mask is empty; otherwise it times the count is the sum of the selected values |
| ChromUtils.MeanRgb | bob/rppg/chrom/extract_utils.py:51-55 | compute_mean_rgb gives each channel's mean over the masked pixels, and none of them when the mask selects nothing |
| ChromUtils.MeanRgbIgnoresUnmasked | bob/rppg/chrom/extract_utils.py:52-55 | two images that agree on the masked pixels have the same mean colour |
| ChromUtils.ChannelMeanOfUniform | bob/rppg/chrom/extract_utils.py:52-54 | a channel equal to v on every masked pixel has mean v |
| ChromUtils.MeanRgbOfUniform | bob/rppg/chrom/script/test.py:30-48 | the mean-colour test: channels uniform on the mask give exactly those values, whatever lies outside it |
| ChromUtils.WrappedDiff | bob/rppg/chrom/extract_utils.py:79 | uint8 subtraction wraps: the difference is in 0..255, and equals p - q when q <= p |
| ChromUtils.AbsDiff | bob/rppg/chrom/extract_utils.py:74-79 | the absolute grey-level difference the docstring describes is non-negative and is p - q or q - p |
| ChromUtils.GridDiffOfSame | bob/rppg/chrom/extract_utils.py:76-79 | a frame differs from itself by nothing, under any pixel difference that is zero on equal levels |
| ChromUtils.GridDiffOfConstants | bob/rppg/chrom/extract_utils.py:76-79 | two constant h x w grids differ by h * w times the pixel difference |
| ChromUtils.GridDiffSymmetric | bob/rppg/chrom/extract_utils.py:74-79 | the corrected difference does not depend on the order of the two frames |
| ChromUtils.GrayDiffOfSameFrame | bob/rppg/chrom/script/test.py:50-63 | identical frames give 0, both as written and corrected |
| ChromUtils.GrayDiffBlackWhite | bob/rppg/chrom/script/test.py:50-63 | black then white on 100 x 100 frames gives 100 * 100 as written (each pixel wraps to 1), white then black gives 255 per pixel, and the absolute difference gives 255 per pixel in both orders |
| ChromUtils.GrayDiffMeasuresChange | bob/rppg/chrom/extract_utils.py:58-79 | the corrected grey-level difference does not depend on the order of the frames, is never negative, and is zero exactly for identical grey images |
| ChromUtils.GridDiffZero | bob/rppg/chrom/extract_utils.py:79 | the sum of absolute differences of two grids is non-negative and zero exactly when they are equal |
| ChromUtils.RowDiffBounds | bob/rppg/chrom/extract_utils.py:74-79 | on grey levels a row of n pixels differs by 0 to 255 * n |
| ChromUtils.RowDiffZero | bob/rppg/chrom/extract_utils.py:74-79 | the absolute difference of two rows is zero exactly when the rows are equal |
| ChromUtils.FirstMinimumStep | bob/rppg/chrom/extract_utils.py:108-111 | one step of the scan: a strictly smaller window sum takes over, anything else keeps the earlier index |
| ChromUtils.FirstMinimumTakes | bob/rppg/chrom/extract_utils.py:108-111 | a window sum strictly below the first minimum so far makes its start the new first minimum |
| ChromUtils.SelectStableFrames | bob/rppg/chrom/extract_utils.py:105-112 | the loop returns 0 when len(diff) - n <= 0, and otherwise the earliest start in 0..len(diff)-n-1 whose window sum is minimal |
| ChromUtils.EarliestMinimumExists | bob/rppg/chrom/extract_utils.py:107 | with at least one start to try, an earliest minimum exists |
| ChromUtils.EarliestMinimumUnique | bob/rppg/chrom/extract_utils.py:109 | the strict comparison makes the earliest minimum unique |
| ChromUtils.StableFramesExample | bob/rppg/chrom/script/test.py:65-77 | the test: a spike at index 2 of ten zeros, with windows of five, gives start 3 |
| ChromUtils.SpikeAtTwo | bob/rppg/chrom/script/test.py:65-77 | for any ten motion values that are zero but for a spike at index 2, the earliest least-motion window of five starts at 3 |
| ChromUtils.WindowOfFive | bob/rppg/chrom/extract_utils.py:108 | a window of five samples sums its five entries |
| ChromUtils.ProjectChrominanceLinear | bob/rppg/chrom/extract_utils.py:140-142 | the projection maps k * c + c' to k times its image plus the image of c' |
| ChromUtils.ProjectChrominanceOfGrey | bob/rppg/chrom/script/test.py:80-92 | grey v maps to (v, 4v), black maps to (0, 0), and x does not depend on blue |
| ChromUtils.IntendedChrominanceOfGrey | bob/rppg/chrom/script/test.py:80-92 | with the minus sign of the equation the docstring cites, grey v maps to (v, v): the origin for black and (1, 1) for grey 1, as the test asserts, where the code gives (1, 4) |
| Cvpr14Utils.SelectedBelow | bob/rppg/cvpr14/extract_utils.py:66-67 | counts the selected keypoint indices below k: those before the count are below k, the rest are not |
| Cvpr14Utils.Truncated | bob/rppg/cvpr14/extract_utils.py:68 | both coordinates of a kept keypoint are truncated toward zero |
| Cvpr14Utils.SelectedPoints | bob/rppg/cvpr14/extract_utils.py:65-68 | the kept points are keypoints 1, 3, 5, 8, 11, 13, 15, 41, 47, truncated, in that order |
| Cvpr14Utils.SelectKeypoints | bob/rppg/cvpr14/extract_utils.py:65-68 | the append loop over all 66 keypoints keeps exactly those nine, truncated, in index order |
| Cvpr14Utils.Moved | bob/rppg/cvpr14/extract_utils.py:77-95 | the indent moves and the swap keep nine points |
| Cvpr14Utils.MoveInside | bob/rppg/cvpr14/extract_utils.py:77-95 | the in-place moves (mp0..2 coordinate 1 up, mp3 coordinate 0 down, mp4..6 coordinate 1 down, mp7 and mp8 coordinate 0 up) and the swap of mp7 and mp8 give exactly the moved points |
| Cvpr14Utils.MaskPoints | bob/rppg/cvpr14/extract_utils.py:65-95 | the mask has nine vertices |
| Cvpr14Utils.Kp66ToMask | bob/rppg/cvpr14/extract_utils.py:59-107 | kp66_to_mask succeeds exactly for 66 keypoints, and then returns the moved points with indent int(indent/100 * distance(mp0, mp6)), followed by the mask they enclose |
| Cvpr14Utils.Kp66Example | bob/rppg/cvpr14/script/test.py:30-60 | the test keypoints with indent 10 give pixel indent 5 and the vertices [10,15], [20,15], [30,15], [45,35], [30,55], [20,55], [10,55], [15,40], [15,30] |
| Cvpr14Utils.PolyVerts | bob/rppg/cvpr14/extract_utils.py:137-139 | the loop builds n + 1 vertices: mp[0], then mp[n-1] down to mp[0], each as (p[1], p[0]); the first and last are equal |
| Cvpr14Utils.Polygon | bob/rppg/cvpr14/extract_utils.py:137-139 | the same vertex list in closed form |
| Cvpr14Utils.PolygonUnique | bob/rppg/cvpr14/extract_utils.py:137-139 | any list with that description is the closed form, so the loop and the closed form agree |
| Cvpr14Utils.GetMask | bob/rppg/cvpr14/extract_utils.py:135-148 | for a non-empty vertex list, the grid has shape (image.shape[1], image.shape[2]) and cell (y, x) is the point-in-polygon verdict for (x, y) on the closed vertex list |
| Cvpr14Utils.Apply | bob/rppg/cvpr14/extract_utils.py:291-294 | cv2.transform maps a point by the 2 x 3 affine matrix |
| Cvpr14Utils.CurrentMaskPoints | bob/rppg/cvpr14/extract_utils.py:290-294 | get_current_mask_points moves every vertex by the transform and keeps their order and number |
| Cvpr14Utils.IdentityKeepsMask | bob/rppg/cvpr14/extract_utils.py:290-294 | the identity transform leaves the mask points unchanged |
| Cvpr14Utils.TranslationMovesMask | bob/rppg/cvpr14/extract_utils.py:290-294 | a translation moves every vertex by the same offset |
| Cvpr14Utils.AverageGreenMask | bob/rppg/cvpr14/extract_utils.py:328-329 | the mean green over the mask is NaN exactly when the mask is empty; otherwise it times the count is the sum of the selected green values |
| Cvpr14Utils.AverageGreenIsMeanGreen | bob/rppg/cvpr14/extract_utils.py:328-329 | the mean green is the green component of compute_mean_rgb on the same mask |
| Cvpr14Utils.WholeFaceIsFullMask | bob/rppg/cvpr14/extract_utils.py:357-358 | the whole-face mean green is the masked mean with every pixel selected |
| FilterUtils.Identity | bob/rppg/cvpr14/filter_utils.py:47 | numpy.identity(n) is n x n |
| FilterUtils.MatMulAssociates | bob/rppg/cvpr14/filter_utils.py:56 | numpy.dot of matrices composes with applying a vector: (a b) v = a (b v) |
| FilterUtils.SpDiags | bob/rppg/cvpr14/filter_utils.py:55 | spdiags(data, offsets, m, n).toarray() is m x n |
| FilterUtils.SecondDifference | bob/rppg/cvpr14/filter_utils.py:51-55 | D is (n - 2) x n |
| FilterUtils.SecondDifferenceEntries | bob/rppg/cvpr14/filter_utils.py:51-55 | row i of D holds 1, -2, 1 in columns i, i + 1, i + 2 and zeros elsewhere |
| FilterUtils.SecondDifferenceRow | bob/rppg/cvpr14/filter_utils.py:51-55 | row i of D is i zeros, then 1, -2, 1, then zeros to the end |
| FilterUtils.SecondDifferenceApplied | bob/rppg/cvpr14/filter_utils.py:55-56 | D applied to y gives y[i] - 2 y[i+1] + y[i+2] in row i |
| FilterUtils.SecondDifferenceOfAffine | bob/rppg/cvpr14/script/test.py:240-251 | D annihilates every affine signal |
| FilterUtils.DetrendSystem | bob/rppg/cvpr14/filter_utils.py:56 | H + Lambda^2 D^T D is n x n |
| FilterUtils.Detrend | bob/rppg/cvpr14/filter_utils.py:44-57 | detrend succeeds exactly for signals of length >= 2 (spdiags refuses a negative row count) and keeps the length |
| FilterUtils.DetrendIsResidual | bob/rppg/cvpr14/filter_utils.py:56 | the detrended signal is y - z with z = inv(H + Lambda^2 D^T D) y |
| FilterUtils.SystemFixesAffine | bob/rppg/cvpr14/filter_utils.py:56 | the system matrix maps an affine signal to itself |
| FilterUtils.DetrendRemovesAffine | bob/rppg/cvpr14/script/test.py:240-251 | with an inverse that is a left inverse, a ramp detrends to all zeros |
| FilterUtils.Lfilter | bob/rppg/cvpr14/filter_utils.py:81 | lfilter(b, 1.0, x) keeps the length of x |
| FilterUtils.AverageTaps | bob/rppg/cvpr14/filter_utils.py:79-80 | the taps are window_size values |
| FilterUtils.Average | bob/rppg/cvpr14/filter_utils.py:77-82 | average succeeds exactly for window_size >= 1 and keeps the length |
| FilterUtils.PartialAverage | bob/rppg/cvpr14/filter_utils.py:79-81 | the first j taps contribute 1/w times the sum of the last min(n + 1, j) samples |
| FilterUtils.AverageIsWindowMean | bob/rppg/cvpr14/filter_utils.py:77-82 | y[n] = (1/w) * the sum of x[n-k] for k = 0..min(n, w-1) |
| FilterUtils.AverageOfOneIsIdentity | bob/rppg/cvpr14/script/test.py:253-261 | a window of one leaves the signal unchanged |
| FilterUtils.AverageOfConstant | bob/rppg/cvpr14/script/test.py:253-271 | on a constant v, y[n] = min(n + 1, w) v / w, so y[0] = v / w and y[n] = v from n = w - 1 on |
| FrequencyAnalysis.SegmentLength | bob/rppg/base/script/frequency_analysis.py:133 | the segment length is the floor of 2 n / (nsegments + 1), and a division by zero when nsegments is -1 |
| FrequencyAnalysis.FirstAbove | bob/rppg/base/script/frequency_analysis.py:144-146 | the first index is defined exactly when some frequency exceeds the lower bound, and it is the smallest such index |
| FrequencyAnalysis.LastBelow | bob/rppg/base/script/frequency_analysis.py:145-147 | the last index is defined exactly when some frequency is under the upper bound, and it is the largest such index |
| FrequencyAnalysis.ArgmaxIn | bob/rppg/base/script/frequency_analysis.py:148-149 | argmax over the range of interest lies in the range, holds its maximum, and is the first position holding it |
| FrequencyAnalysis.HeartRate | bob/rppg/base/script/frequency_analysis.py:144-151 | a heart rate exists exactly when both index searches succeed and the range is not empty, and it is 60 times the frequency of the first spectral peak in the range |
| FrequencyAnalysis.HeartRateInBand | bob/rppg/base/script/frequency_analysis.py:144-151 | with increasing frequencies the heart rate lies strictly between 42 and 240 beats per minute |
| FrequencyAnalysis.HeartRateExists | bob/rppg/base/script/frequency_analysis.py:144-149 | with increasing frequencies a heart rate exists exactly when some frequency lies strictly between 0.7 and 4 Hz |
| FrequencyAnalysis.HeartRateOfNothing | bob/rppg/base/script/frequency_analysis.py:144-147 | the empty spectrum of an empty signal raises IndexError at first[0] |
| FrequencyAnalysis.AnalyseObject | bob/rppg/base/script/frequency_analysis.py:107-167 | an existing output is skipped, a missing input is skipped, nfft below the segment length is skipped, an empty signal raises the IndexError of the empty spectrum, a segment length below 1 raises welch's nperseg error, and a saved output is the one-element array holding the heart rate of the Welch spectrum of a non-empty signal with segments of at least one sample |
| FrequencyAnalysis.FrequencyAnalysisScript | bob/rppg/base/script/frequency_analysis.py:107-170 | the script processes the objects in order until one raises |
| IllumUtils.Reverse | bob/rppg/cvpr14/illum_utils.py:115 | flipud reverses a one-dimensional array |
| IllumUtils.InitialWeights | bob/rppg/cvpr14/illum_utils.py:104-105 | the initial weights are the given ones, or n_filter_taps zeros by default |
| IllumUtils.Window | bob/rppg/cvpr14/illum_utils.py:115 | iteration n sees the n_filter_taps samples from n, newest first |
| IllumUtils.Update | bob/rppg/cvpr14/illum_utils.py:122 | the weight update keeps the number of weights |
| IllumUtils.Weights | bob/rppg/cvpr14/illum_utils.py:110-123 | the weights after n iterations are n_filter_taps long (their step is stated by IllumUtils.WeightsStep) |
| IllumUtils.Nlms | bob/rppg/cvpr14/illum_utils.py:102-125 | nlms raises for a negative iteration count, for weights of another length than the window, for a target shorter than the input and, with no tap, for an empty target; it returns the initial weights untouched with no iteration, and otherwise the outputs, errors and weights of the filtering loop, the error of iteration n using desired_signal[n + n_filter_taps - 1] read as Python reads a negative index |
| IllumUtils.NoTaps | bob/rppg/cvpr14/illum_utils.py:102-125 | with a filter of length 0 there are len(signal) + 1 iterations with empty windows, every output is 0, e[0] is the last target sample (desired_signal[-1]) and e[n] is desired_signal[n - 1] |
| IllumUtils.Filter | bob/rppg/cvpr14/illum_utils.py:108-125 | the filtering loop returns one output and one error per iteration, each the value of that iteration, and the weights after the last |
| IllumUtils.Iteration | bob/rppg/cvpr14/illum_utils.py:115-123 | one iteration writes y[n] and e[n] and moves the weights to those of iteration n + 1 |
| IllumUtils.WeightsStep | bob/rppg/cvpr14/illum_utils.py:120-123 | when adapting, the weights move by step times the normalised window times the error; when not, they stay |
| IllumUtils.FrozenWeights | bob/rppg/cvpr14/illum_utils.py:58 | with adapt=False the weights returned are the initial coefficients |
| IllumUtils.ZeroStepWeights | bob/rppg/cvpr14/illum_utils.py:122 | with a zero step the adapting pass keeps the initial weights too |
| IllumUtils.FrozenOutput | bob/rppg/cvpr14/illum_utils.py:116-117 | with adapt=False the output is the window times the weights and the error the target minus it |
| IllumUtils.RectifyIllumination | bob/rppg/cvpr14/illum_utils.py:54-59 | rectify_illumination succeeds exactly when the face signal is at least as long as the background and not empty, or there is no iteration, and then returns the face minus the background filtered by the weights the first pass learned, for every filter length including 0 |
| IllumUtils.RectifyWithZeroStep | bob/rppg/cvpr14/illum_utils.py:54-59 | with a zero step the rectified signal is the face signal from sample length - 1 on |
| MotionUtils.WholeSegments | bob/rppg/cvpr14/motion_utils.py:49 | the number of segments is the floor of the signal length over the segment length, and the trail after them is shorter than one segment |
| MotionUtils.BuildSegments | bob/rppg/cvpr14/motion_utils.py:49-52 | build_segments fails exactly for a segment length of zero or less, and otherwise returns floor(len / length) rows of length samples and end_index = rows * length, the trail being shorter than a segment |
| MotionUtils.SegmentRows | bob/rppg/cvpr14/motion_utils.py:51 | the reshape puts sample i * length + j at row i, column j |
| MotionUtils.BuildSegmentsCoversPrefix | bob/rppg/cvpr14/motion_utils.py:50-51 | the segments, read in order, are exactly the signal up to end_index |
| MotionUtils.BuildSegmentsExamples | bob/rppg/cvpr14/script/test.py:179-195 | on 100 samples, length 10 gives 10 rows and end index 100, and length 11 gives 9 rows and end index 99 |
| MotionUtils.KeptRowsFacts | bob/rppg/cvpr14/motion_utils.py:86-89 | the kept rows are increasing indices of rows whose deviation is at most the threshold, every such row is kept, and kept plus dropped rows make up all rows |
| MotionUtils.RemovedRowsFacts | bob/rppg/cvpr14/motion_utils.py:99-100 | the dropped rows are exactly the rows whose deviation exceeds the threshold |
| MotionUtils.PruneSegments | bob/rppg/cvpr14/motion_utils.py:83-101 | prune_segments returns the stable rows in order, one gap flag per kept row, and the sample interval of every dropped row |
| MotionUtils.GapMeansPreviousDropped | bob/rppg/cvpr14/motion_utils.py:91-98 | a kept row is flagged exactly when it is not the first kept row and the row just before it was dropped |
| MotionUtils.CutIntervalsAreProducts | bob/rppg/cvpr14/motion_utils.py:100 | each cut interval is (i * columns, (i + 1) * columns) for a dropped row i |
| MotionUtils.PruneSegmentsExample | bob/rppg/cvpr14/script/test.py:197-222 | of ten rows with rows 0 and 4 unstable, eight are kept, only the fourth kept row is flagged, and the cuts are [0, 10) and [40, 50) |
| MotionUtils.ShiftedRow | bob/rppg/cvpr14/motion_utils.py:132 | a shifted row keeps its length |
| MotionUtils.ShiftedRows | bob/rppg/cvpr14/motion_utils.py:132 | the shifted segments keep their shape |
| MotionUtils.CollageAt | bob/rppg/cvpr14/motion_utils.py:122-134 | the final signal has rows * columns samples, and sample i * columns + j is segment i, column j, lowered by the shift accumulated up to row i |
| MotionUtils.CollageUnique | bob/rppg/cvpr14/motion_utils.py:122-134 | a signal that agrees with the shifted segments sample by sample is the final signal |
| MotionUtils.CollageClosesGaps | bob/rppg/cvpr14/motion_utils.py:128-134 | build_final_signal closes every flagged gap: the first sample of a flagged row equals the last sample before it |
| MotionUtils.CollageKeepsUnflaggedSteps | bob/rppg/cvpr14/motion_utils.py:125-134 | for both variants, the step between two rows that were adjacent in the input is kept |
| MotionUtils.CollageKeepsRowShape | bob/rppg/cvpr14/motion_utils.py:132 | for both variants, every segment is moved by one constant, so differences within a segment are kept |
| MotionUtils.NoFlagsNoShift | bob/rppg/cvpr14/motion_utils.py:124-128 | with no flagged row up to n the accumulated shift is zero |
| MotionUtils.ShiftsAgreeBeforeSecondGap | bob/rppg/cvpr14/motion_utils.py:130-173 | the two variants accumulate the same shift while at most one row is flagged |
| MotionUtils.CollagesAgreeBeforeSecondGap | bob/rppg/cvpr14/motion_utils.py:137-177 | the two variants produce the same samples for rows with at most one flag up to them |
| MotionUtils.Cvpr14LeavesSecondGapOpen | bob/rppg/cvpr14/motion_utils.py:171-173 | with rows 0, 1, 3 and the last two flagged, build_final_signal gives 0, 0, 0 while the cvpr14 variant leaves a step and gives 0, 0, 1 |
| MotionUtils.CollageExampleShift | bob/rppg/cvpr14/script/test.py:225-240 | for the test's segments, the shift is 0 up to row 4 and 4 from there on |
| MotionUtils.CollageExample | bob/rppg/cvpr14/script/test.py:225-240 | the test's ten rows of ones, with rows 4 to 9 raised by 4 and row 4 flagged, glue back to 100 ones |
| MotionUtils.RowsOf | bob/rppg/cvpr14/motion_utils.py:122 | the rows of a two-dimensional array have its shape |
| MotionUtils.CopyRow | bob/rppg/cvpr14/motion_utils.py:126 | the slice assignment writes segment i into its block of the final signal and nothing else |
| MotionUtils.ShiftRowsFrom | bob/rppg/cvpr14/motion_utils.py:132 | segments[i:, :] -= gap lowers the rows from i on by gap and leaves the others |
| MotionUtils.GapIsShiftIncrement | bob/rppg/cvpr14/motion_utils.py:130-173 | the gap the loop measures at a flagged row is the increment of the accumulated shift there |
| MotionUtils.GlueRow | bob/rppg/cvpr14/motion_utils.py:125-134 | one iteration copies row i and, if it is flagged, shifts it and the rows after it and copies it again, keeping the loop invariant |
| MotionUtils.BuildFinalSignal | bob/rppg/cvpr14/motion_utils.py:103-135 | build_final_signal returns the collage that measures each gap against the previous segment as already shifted, and leaves the caller's segments shifted |
| MotionUtils.GluedIsCollage | bob/rppg/cvpr14/motion_utils.py:125-135 | the state the loop ends in is the collage and the shifted segments |
| MotionUtils.BuildFinalSignalCvpr14 | bob/rppg/cvpr14/motion_utils.py:137-178 | build_final_signal_cvpr14 returns the collage that measures each gap against the original previous segment, and leaves the caller's segments shifted |
| MotionUtils.GlueRowCvpr14 | bob/rppg/cvpr14/motion_utils.py:166-177 | one iteration of the cvpr14 loop measures the gap against the copy of the original segments and keeps the loop invariant |
| MotionElimination.CountAbove | bob/rppg/cvpr14/script/motion_elimination.py:147-149 | the number of pooled deviations above a value is at most their number |
| MotionElimination.CountAboveConcat | bob/rppg/cvpr14/script/motion_elimination.py:142 | extending the pool adds the counts of its parts |
| MotionElimination.InsertDesc | bob/rppg/cvpr14/script/motion_elimination.py:147 | inserting one value gives a sequence one longer holding the same values plus the new one |
| MotionElimination.InsertDescSorted | bob/rppg/cvpr14/script/motion_elimination.py:147 | inserting into a non-increasing sequence keeps it non-increasing |
| MotionElimination.SortDesc | bob/rppg/cvpr14/script/motion_elimination.py:147 | sorted(reverse=True) is non-increasing and a permutation of its input |
| MotionElimination.CountAboveSorted | bob/rppg/cvpr14/script/motion_elimination.py:147 | sorting does not change how many values lie above a value |
| MotionElimination.CountsAtPosition | bob/rppg/cvpr14/script/motion_elimination.py:147-149 | in a non-increasing sequence at most c values exceed the value at position c and at least c + 1 reach it |
| MotionElimination.SegmentStds | bob/rppg/cvpr14/script/motion_elimination.py:140-141 | the deviations fail exactly for a segment length of zero or less, and are otherwise one per whole segment, each the deviation of that segment |
| MotionElimination.ObjectStds | bob/rppg/cvpr14/script/motion_elimination.py:124-142 | an object without a file or with a NaN is skipped, and otherwise it contributes the deviations of its segments |
| MotionElimination.CutIndex | bob/rppg/cvpr14/script/motion_elimination.py:148 | for a non-negative cutoff the cut index c is at least 1 and c - 1 <= cutoff * n < c |
| MotionElimination.Threshold | bob/rppg/cvpr14/script/motion_elimination.py:147-149 | the threshold exists exactly when the cut index is a valid Python index of the pool, and it is one of the pooled deviations |
| MotionElimination.ThresholdCountsAbove | bob/rppg/cvpr14/script/motion_elimination.py:146-149 | with a non-negative cutoff, at most cut_index pooled deviations lie above the threshold and at least cut_index + 1 reach it |
| MotionElimination.ThresholdExample | bob/rppg/cvpr14/script/motion_elimination.py:99-149 | the default cutoff of 0.05 on the deviations 3, 1, 2 selects 2 |
| MotionElimination.SortExample | bob/rppg/cvpr14/script/motion_elimination.py:147 | 3, 1, 2 sorts to 3, 2, 1 |
| MotionElimination.ThresholdTooFewSegments | bob/rppg/cvpr14/script/motion_elimination.py:148-149 | a pool of one deviation always raises IndexError for a cutoff in [0, 1) |
| MotionElimination.CollectStds | bob/rppg/cvpr14/script/motion_elimination.py:122-142 | the first loop pools the deviations of the objects in order until one raises |
| MotionElimination.KeptSegments | bob/rppg/cvpr14/script/motion_elimination.py:191 | the pruned segments are the stable rows in order, each with a deviation at most the threshold |
| MotionElimination.KeptGaps | bob/rppg/cvpr14/script/motion_elimination.py:191 | there is one gap flag per pruned segment |
| MotionElimination.Eliminated | bob/rppg/cvpr14/script/motion_elimination.py:163-219 | the second loop skips an existing output, a missing file, a NaN signal or no stable segment, fails exactly for a segment length of zero or less, and saves seglength samples per kept segment |
| MotionElimination.EliminatedBlocks | bob/rppg/cvpr14/script/motion_elimination.py:189-200 | block k of the saved signal is the k-th stable segment of the input moved by one constant |
| MotionElimination.EliminatedClosesGaps | bob/rppg/cvpr14/script/motion_elimination.py:199-200 | with the default glueing the saved signal has no step where segments were dropped |
| MotionElimination.RemovedAreAbove | bob/rppg/cvpr14/motion_utils.py:88-100 | the segments dropped are as many as the deviations above the threshold |
| MotionElimination.DroppedSegments | bob/rppg/cvpr14/script/motion_elimination.py:140-191 | the deviations the first loop pools for an object are the ones the second loop prunes that object by |
| MotionElimination.ToArray | bob/rppg/cvpr14/motion_utils.py:101 | numpy.array of the kept rows is a fresh two-dimensional array whose rows are those rows |
| MotionElimination.EliminateObject | bob/rppg/cvpr14/script/motion_elimination.py:163-219 | one object of the second loop has the outcome MotionElimination.Eliminated states |
| MotionElimination.EliminateAll | bob/rppg/cvpr14/script/motion_elimination.py:163-220 | the second loop processes the objects in order until one raises |
| MotionElimination.MotionEliminationScript | bob/rppg/cvpr14/script/motion_elimination.py:121-222 | with load-threshold None the script computes the threshold and prunes nothing; otherwise it reads the threshold, failing if that raises, and prunes every object with it |
| Scripts.Run | bob/rppg/chrom/script/extract_pulse.py:158-324 | the loop over objects gives one outcome per object processed, in order, and stops at the first object that raises, with that exception |
| Scripts.RunObjects | bob/rppg/chrom/script/extract_pulse.py:158-324 | the loop over objects computes what Scripts.Run states |
| Scripts.RunStopsAt | bob/rppg/chrom/script/extract_pulse.py:158-324 | the run is determined by a prefix of successes followed by the first exception, or by all successes |
| Scripts.RunIsLocal | bob/rppg/chrom/script/extract_pulse.py:158-324 | changing one object does not change the outcomes of the objects before it |
| Scripts.ProcessedStep | bob/rppg/chrom/script/extract_pulse.py:203-205 | frame i adds one to the count of processed frames exactly when start <= i < end, and any other frame adds nothing |
| Scripts.ProcessedBounds | bob/rppg/chrom/script/extract_pulse.py:203-205 | nothing is processed before frame 0, and never more frames than start .. end - 1 holds |
| Scripts.ProcessedWholeRange | bob/rppg/chrom/script/extract_pulse.py:175-205 | once the loop has seen a video long enough for --end, every frame from --start to the end index has been processed, and with --end 0 every frame from --start to the last |
| ExtractPulse.FrameCount | bob/rppg/chrom/script/extract_pulse.py:183-185 | nb_frames is end - start for a positive end, and the video length otherwise |
| ExtractPulse.ProcessedFits | bob/rppg/chrom/script/extract_pulse.py:185-205 | the loop never processes more frames than nb_frames |
| ExtractPulse.Row | bob/rppg/chrom/script/extract_pulse.py:239-255 | the row written is the chrominance of the mean skin colour when there is skin, of a uniform grey 128 on the first frame without skin, and the previous row otherwise |
| ExtractPulse.Step | bob/rppg/chrom/script/extract_pulse.py:205-257 | one frame raises exactly when it has no bounding box or when its motion difference compares crops of different shapes, and otherwise advances the counter keeping the array sizes; the motion difference is compute_gray_diff as written, on uint8 grey images |
| ExtractPulse.StepWrites | bob/rppg/chrom/script/extract_pulse.py:213-257 | one frame writes its chrominance row, the motion difference compute_gray_diff computes on uint8 grey images when it is recorded, and nothing else; the crop becomes the last face and, on the first frame or with --skininit, the skin model |
| ExtractPulse.Initial | bob/rppg/chrom/script/extract_pulse.py:189-202 | the loop starts with counter 0, nb_frames zero rows and nb_frames - 1 zero differences |
| ExtractPulse.Frames | bob/rppg/chrom/script/extract_pulse.py:203-260 | after frames 0 .. k - 1 the counter is the number of frames processed and the arrays keep their sizes |
| ExtractPulse.Visited | bob/rppg/chrom/script/extract_pulse.py:203-260 | after frame i the counter is the number of frames processed up to it |
| ExtractPulse.Stepped | bob/rppg/chrom/script/extract_pulse.py:205-257 | a frame in the range advances the counter by one |
| ExtractPulse.FramesNext | bob/rppg/chrom/script/extract_pulse.py:203-260 | one more frame applies the step for a frame in the range and nothing otherwise, and an exception stays |
| ExtractPulse.FramesSkip | bob/rppg/chrom/script/extract_pulse.py:205-260 | frames outside start .. end - 1 change nothing, so breaking past the end is harmless |
| ExtractPulse.FramesUnwritten | bob/rppg/chrom/script/extract_pulse.py:189-257 | rows and differences the loop has not reached keep their zeros |
| ExtractPulse.FramesFace | bob/rppg/chrom/script/extract_pulse.py:218 | after the loop has processed a frame, the last face is the crop of the last frame processed |
| ExtractPulse.FramesModel | bob/rppg/chrom/script/extract_pulse.py:226-227 | without --skininit the skin model is the one estimated on the first frame processed |
| ExtractPulse.FramesWithoutSkin | bob/rppg/chrom/script/extract_pulse.py:249-255 | when the skin filter never finds skin every written row is the chrominance of a uniform grey 128 |
| ExtractPulse.FramesMotion | bob/rppg/chrom/script/extract_pulse.py:214-216 | with --motion, diff_motion[j] is compute_gray_diff as written (the uint8 difference of the grey crops, wrapped modulo 256) of the crops of the consecutive processed frames j and j + 1, whenever the second is not the last frame of the video |
| ExtractPulse.FramesStop | bob/rppg/chrom/script/extract_pulse.py:203-260 | once the loop has raised, later frames do not change the exception |
| ExtractPulse.StepCases | bob/rppg/chrom/script/extract_pulse.py:209-257 | a missing box raises IndexError, a shape mismatch in the motion difference raises the broadcast error, and otherwise the step writes the row and the compute_gray_diff value it computes |
| ExtractPulse.StepWritten | bob/rppg/chrom/script/extract_pulse.py:213-257 | a frame with a stored box whose crop matches the previous one when it must advances the counter, writes its chrominance row and the compute_gray_diff value of the two crops, and keeps the crop and the skin model |
| ExtractPulse.StepFrame | bob/rppg/chrom/script/extract_pulse.py:205-257 | one frame, in place on the chrom and diff_motion arrays, has the outcome ExtractPulse.Step states, writing compute_gray_diff as written into diff_motion |
| ExtractPulse.VisitFrame | bob/rppg/chrom/script/extract_pulse.py:203-260 | frame i, in place, moves the arrays to the loop state after frame i |
| ExtractPulse.LoopFrames | bob/rppg/chrom/script/extract_pulse.py:203-260 | the in-place loop ends in the state of ExtractPulse.Frames over the whole video |
| ExtractPulse.FrameLoop | bob/rppg/chrom/script/extract_pulse.py:189-260 | zero arrays followed by the frame loop end in the state of ExtractPulse.Frames over the whole video |
| ExtractPulse.StableStart | bob/rppg/chrom/script/extract_pulse.py:266 | the stable start is the earliest start of a window of least motion, or 0 when the window covers all differences |
| ExtractPulse.KeepCount | bob/rppg/chrom/script/extract_pulse.py:264 | with --motion the number of rows to keep is non-negative |
| ExtractPulse.Kept | bob/rppg/chrom/script/extract_pulse.py:263-268 | without --motion every row is kept, and otherwise the contiguous min(n, nb_frames) rows from the stable start |
| ExtractPulse.Xs | bob/rppg/chrom/script/extract_pulse.py:283 | chrom[:, 0] has one value per row |
| ExtractPulse.Ys | bob/rppg/chrom/script/extract_pulse.py:284 | chrom[:, 1] has one value per row |
| ExtractPulse.Pulse | bob/rppg/chrom/script/extract_pulse.py:263-310 | the pulse raises exactly when the rows kept are too few for filtfilt's padding or the window is 1, and is otherwise the combination of the band-passed columns of the rows kept |
| ExtractPulse.StablePulse | bob/rppg/chrom/script/extract_pulse.py:263-310 | the stable stretch computed in place is ExtractPulse.Pulse |
| ExtractPulse.Process | bob/rppg/chrom/script/extract_pulse.py:160-324 | an existing output is skipped, an end past the video is skipped, nb_frames below 1 raises the negative-dimension error, and a saved pulse is ExtractPulse.Pulse of the chrom and diff_motion arrays the frame loop leaves, with nb_frames samples, or the stable stretch's length with --motion |
| ExtractPulse.ProcessObject | bob/rppg/chrom/script/extract_pulse.py:160-324 | one object processed in place has the outcome ExtractPulse.Process states |
| ExtractPulse.ExtractPulseScript | bob/rppg/chrom/script/extract_pulse.py:154-324 | the script builds the band-pass filter once and processes every object in order until one raises |
| PulseCombination.Combine | bob/rppg/chrom/script/extract_pulse.py:296-297 | the pulse is x - alpha y with alpha = std(x) / std(y), sample by sample |
| PulseCombination.CombineCancelsProportional | bob/rppg/chrom/script/extract_pulse.py:296-297 | a distortion that moves x and y in proportion cancels completely |
| PulseCombination.LocalPulse | bob/rppg/chrom/script/extract_pulse.py:305-309 | the local pulse of a window is the combination of its own samples weighted by the Hanning window |
| PulseCombination.Splice | bob/rppg/chrom/script/extract_pulse.py:304-310 | writing a window replaces exactly its samples |
| PulseCombination.WindowStartMonotone | bob/rppg/chrom/script/extract_pulse.py:303 | window starts increase by at least one stride per window |
| PulseCombination.WindowCount | bob/rppg/chrom/script/extract_pulse.py:303 | the windows are exactly the starts of range(0, len - ws, stride) |
| PulseCombination.Windowed | bob/rppg/chrom/script/extract_pulse.py:303-310 | writing windows over the pulse keeps its length |
| PulseCombination.Frames | bob/rppg/chrom/script/extract_pulse.py:303-309 | there is one weighted local pulse per window of range(0, len - ws, stride), in order |
| PulseCombination.WindowedStep | bob/rppg/chrom/script/extract_pulse.py:304-310 | a window overwrites a sample exactly when it covers it |
| PulseCombination.WindowedUnchanged | bob/rppg/chrom/script/extract_pulse.py:303-310 | windows that do not cover a sample leave it unchanged |
| PulseCombination.WindowedLastWriter | bob/rppg/chrom/script/extract_pulse.py:303-310 | a covered sample holds the value of the last window that covers it |
| PulseCombination.OverlappedLastWriter | bob/rppg/chrom/script/extract_pulse.py:296-310 | in the overlap-added pulse a covered sample holds the weighted local pulse of the last window covering it |
| PulseCombination.OverlappedTail | bob/rppg/chrom/script/extract_pulse.py:296-310 | samples no window reaches keep the pulse of the global alpha |
| PulseCombination.ZeroWindow | bob/rppg/chrom/script/extract_pulse.py:304 | pulse[w:w+ws] = 0.0 zeroes that window and nothing else |
| PulseCombination.AddWindow | bob/rppg/chrom/script/extract_pulse.py:310 | pulse[w:w+ws] += sw adds sw to that window and leaves the rest |
| PulseCombination.ApplyWindow | bob/rppg/chrom/script/extract_pulse.py:304-310 | one window of the overlap-add replaces its samples by the weighted local pulse |
| PulseCombination.OverlapAdd | bob/rppg/chrom/script/extract_pulse.py:301-310 | the in-place overlap-add loop ends in the overlapped pulse |
| PulseCombination.PulseFromChrominance | bob/rppg/chrom/script/extract_pulse.py:296-310 | a window of 1 raises the zero-step error of range(), any other window gives the final pulse |
| PulseCombination.FinalPulse | bob/rppg/chrom/script/extract_pulse.py:296-310 | the final pulse is as long as its input and, without a positive window, is the global combination |
| PulseCombination.FiltFilt | bob/rppg/chrom/script/extract_pulse.py:283-284 | the band-passed signal is as long as its input |
| PulseCombination.PadLength | bob/rppg/chrom/script/extract_pulse.py:283-284 | filtfilt's padding is at least 3 and at least 3 times the number of taps |
| PulseCombination.Bandpassed | bob/rppg/chrom/script/extract_pulse.py:283-310 | band-passing and combining raises exactly when the signal is no longer than the padding or the window is 1, and otherwise gives the final pulse of the band-passed signals |
| PulseCombination.BandpassAndCombine | bob/rppg/chrom/script/extract_pulse.py:281-310 | the in-place band-pass and combination computes PulseCombination.Bandpassed |
| ExtractPulseFromMask.MaskChroma | bob/rppg/chrom/script/extract_pulse_from_mask.py:257-260 | the chrominance of the mean colour inside the mask is undefined (NaN) exactly when the mask is empty |
| ExtractPulseFromMask.MaskChromaIgnoresUnmasked | bob/rppg/chrom/script/extract_pulse_from_mask.py:248-260 | only the pixels inside the mask count: two frames that agree there give the same chrominance |
| ExtractPulseFromMask.Chrominance | bob/rppg/chrom/script/extract_pulse_from_mask.py:184-260 | the frame loop writes one chrominance row per frame |
| ExtractPulseFromMask.ChrominanceFollowsTracker | bob/rppg/chrom/script/extract_pulse_from_mask.py:187-260 | the loop fails exactly when the tracker does, with its exception, and row i is the chrominance of frame i inside the mask the tracker holds after frame i |
| ExtractPulseFromMask.ExtractChrominance | bob/rppg/chrom/script/extract_pulse_from_mask.py:184-260 | the frame loop, with the tracker's variables carried from frame to frame, computes ExtractPulseFromMask.Chrominance |
| ExtractPulseFromMask.Column | bob/rppg/chrom/script/extract_pulse_from_mask.py:267-268 | chrom[:, 0] and chrom[:, 1] have one value per row, the row's x or y |
| ExtractPulseFromMask.MaskPulse | bob/rppg/chrom/script/extract_pulse_from_mask.py:263-294 | the pulse raises exactly when the rows are too few for filtfilt's padding or the window is 1; it is NaN exactly when a row is, and otherwise as long as the video |
| ExtractPulseFromMask.MaskPulseOfNumbers | bob/rppg/chrom/script/extract_pulse_from_mask.py:263-294 | without NaN rows the pulse is the combination of the band-passed chrominance columns |
| ExtractPulseFromMask.Process | bob/rppg/chrom/script/extract_pulse_from_mask.py:162-300 | an existing output is skipped, and a saved pulse is the pulse of the frame loop's chrominance |
| ExtractPulseFromMask.ProcessObject | bob/rppg/chrom/script/extract_pulse_from_mask.py:162-300 | one object processed in place has the outcome ExtractPulseFromMask.Process states |
| ExtractPulseFromMask.ExtractPulseFromMaskScript | bob/rppg/chrom/script/extract_pulse_from_mask.py:160-300 | the script processes every object in order until one raises |
| SsrUtils.SkinPixels | bob/rppg/ssr/ssr_utils.py:75-85 | the skin pixels form a 3 x (number of skin pixels) matrix |
| SsrUtils.SkinPixelsInUnitRange | bob/rppg/ssr/ssr_utils.py:75-85 | every skin pixel value of a uint8 face, divided by 255, lies in [0, 1] |
| SsrUtils.SelectBounded | bob/rppg/ssr/ssr_utils.py:75 | selecting uint8 values with a mask yields uint8 values |
| SsrUtils.Correlation | bob/rppg/ssr/ssr_utils.py:108-109 | the correlation matrix exists exactly when there is a skin pixel, is d x d, and n C[i][j] is the dot product of rows i and j of the pixels |
| SsrUtils.CorrelationSymmetric | bob/rppg/ssr/ssr_utils.py:108-109 | the correlation matrix is symmetric with a non-negative diagonal |
| SsrUtils.Decompose | bob/rppg/ssr/ssr_utils.py:112 | the decomposition has d eigenvalues and a d x d eigenvector matrix, and is numpy's answer whenever that answer has this shape |
| SsrUtils.Insert | bob/rppg/ssr/ssr_utils.py:113 | inserting an index adds exactly that index to the list |
| SsrUtils.ArgsortDesc | bob/rppg/ssr/ssr_utils.py:113 | argsort()[::-1] is a permutation of 0 .. n - 1 |
| SsrUtils.InsertDescending | bob/rppg/ssr/ssr_utils.py:113 | insertion keeps an index list in descending order of (value, index) |
| SsrUtils.ArgsortDescending | bob/rppg/ssr/ssr_utils.py:113 | argsort()[::-1] orders the indices strictly by descending (value, index) |
| SsrUtils.Reorder | bob/rppg/ssr/ssr_utils.py:114-115 | values[idx] and vectors[:, idx] put value idx[k] and column idx[k] at position k |
| SsrUtils.GetEigen | bob/rppg/ssr/ssr_utils.py:88-116 | get_eigen succeeds exactly when there is a skin pixel, and returns d eigenvalues and a d x d eigenvector matrix |
| SsrUtils.SortByEigenvalue | bob/rppg/ssr/ssr_utils.py:113-115 | reordering by argsort()[::-1] is a permutation that sorts the eigenvalues into non-increasing order |
| SsrUtils.GetEigenSorted | bob/rppg/ssr/ssr_utils.py:108-116 | get_eigen is numpy's decomposition of C reordered by a permutation that puts the eigenvalues in non-increasing order, each keeping its eigenvector |
| SsrUtils.ArgsortTies | bob/rppg/ssr/ssr_utils.py:113 | equal eigenvalues come out in reverse index order |
| SsrUtils.SortSwapsTiedColumns | bob/rppg/ssr/script/test.py:64-80 | for tied eigenvalues with the identity's columns, the reordering swaps the columns, as the get_eigen test expects |
| SsrUtils.CorrelationOfZeroPixels | bob/rppg/ssr/script/test.py:75-78 | zero pixels give the zero correlation matrix |
| SsrUtils.ZeroMatrix | bob/rppg/ssr/script/test.py:75-78 | a 2 x 2 correlation matrix of zero pixels is the zero matrix |
| SsrUtils.Outer | bob/rppg/ssr/ssr_utils.py:176-177 | numpy.outer(a, b) has one row per entry of a and one column per entry of b |
| SsrUtils.Vec | bob/rppg/ssr/ssr_utils.py:176-177 | an eigenvector column has three entries |
| SsrUtils.SrPrime | bob/rppg/ssr/ssr_utils.py:176-177 | SR' of a frame against the reference frame has three entries |
| SsrUtils.OuterProjection | bob/rppg/ssr/ssr_utils.py:176-177 | u^T (a a^T) is (u . a) a, the projection each term of SR' makes |
| SsrUtils.ProjectionOnAxis | bob/rppg/ssr/ssr_utils.py:176-177 | entry k of u^T (a a^T) is (u . a) a[k] |
| SsrUtils.OuterColumn | bob/rppg/ssr/ssr_utils.py:176-177 | column j of a a^T is a scaled by a[j] |
| SsrUtils.DotScaleRight | bob/rppg/ssr/ssr_utils.py:176-177 | scaling the right operand of a dot product scales the product |
| SsrUtils.SrPrimeProjected | bob/rppg/ssr/ssr_utils.py:176-177 | SR' written as the two projections of u = v_0(t) on v_1(tau) and v_2(tau), scaled by the eigenvalue ratios, has three entries |
| SsrUtils.SrPrimeAsWritten | bob/rppg/ssr/ssr_utils.py:176-177 | entry k of equation 11 as the source computes it, through numpy.outer and numpy.dot, is the sum of the two projection terms on axis k |
| SsrUtils.SrPrimeTerms | bob/rppg/ssr/ssr_utils.py:176-177 | entry k of SR' is the sum of the two eigenvalue-ratio square roots times entry k of u^T (v v^T) |
| SsrUtils.ProjectedEntry | bob/rppg/ssr/ssr_utils.py:176-177 | entry k of the projected form is the same sum of the two projection terms |
| SsrUtils.AlongDot | bob/rppg/ssr/ssr_utils.py:176-177 | the three-term product of two eigenvector columns is their dot product |
| SsrUtils.SrPrimeEntry | bob/rppg/ssr/ssr_utils.py:176-177 | entry k of SR' as written equals entry k of the projected form |
| SsrUtils.SrPrimeProjection | bob/rppg/ssr/ssr_utils.py:176-177 | equation 11 as written, with numpy.outer, is the sum of the projections of u on the two reference eigenvectors |
| SsrUtils.SrRow | bob/rppg/ssr/ssr_utils.py:172-182 | a row of sr_prime_vec has temporal_stride entries |
| SsrUtils.SrRowEntry | bob/rppg/ssr/ssr_utils.py:172-182 | entry c of row `row` of sr_prime_vec is component `row` of SR' of frame tau + c |
| SsrUtils.SrColumn | bob/rppg/ssr/ssr_utils.py:176-178 | a column of sr_prime_vec has three entries |
| SsrUtils.PSignal | bob/rppg/ssr/ssr_utils.py:182 | p has temporal_stride entries |
| SsrUtils.BuildP | bob/rppg/ssr/ssr_utils.py:169-193 | build_P fills sr_prime_vec column by column and returns the combination of its first two rows, SsrUtils.PSignal |
| SsrUtils.RowOf | bob/rppg/ssr/ssr_utils.py:182 | sr_prime_vec[row, :] holds exactly that row |
| SsrUtils.FillSrPrime | bob/rppg/ssr/ssr_utils.py:172-179 | the loop leaves every column c2 of a fresh sr_prime_vec holding SR' of frame tau + c2 |
| SsrUtils.FillColumn | bob/rppg/ssr/ssr_utils.py:174-179 | one pass of the loop fills column c2 and keeps the earlier columns |
| SsrUtils.StoreColumn | bob/rppg/ssr/ssr_utils.py:178 | sr_prime_vec[:, c] = v writes column c and nothing else |
| SsrUtils.PSignalReadsWindow | bob/rppg/ssr/ssr_utils.py:169-182 | build_P reads only the eigen data of frames tau .. counter - 1 |
| SsrUtils.PSignalFlatSecondRow | bob/rppg/ssr/ssr_utils.py:182 | with no spread in the second row of SR', p is its first row |
| SpatialSubspaceRotation.GetSkinPixels | bob/rppg/ssr/ssr_utils.py:62-86 | get_skin_pixels raises exactly when there are boxes and the index is outside them; otherwise the box is boxes[index] or the detector's, the crop is taken from skin_frame, the skin model is re-estimated on it when asked, and the pixels are a 3 x (skin pixel count) matrix |
| SpatialSubspaceRotation.SearchBack | bob/rppg/ssr/script/spatial_subspace_rotation.py:218-232 | the search back in time ends with some skin pixels, and raises IndexError once it goes past the start of the video |
| SpatialSubspaceRotation.SearchBackWithoutSkin | bob/rppg/ssr/script/spatial_subspace_rotation.py:222-232 | a skin filter that never finds skin makes the search raise rather than loop forever |
| SpatialSubspaceRotation.FindSkin | bob/rppg/ssr/script/spatial_subspace_rotation.py:220-232 | the while loop computes SpatialSubspaceRotation.SearchBack from k = 1 |
| SpatialSubspaceRotation.Centered | bob/rppg/ssr/script/spatial_subspace_rotation.py:247 | p - mean(p) keeps the length of p and sums to zero |
| SpatialSubspaceRotation.CenteredKeepsDifferences | bob/rppg/ssr/script/spatial_subspace_rotation.py:247 | centring keeps the differences between samples |
| SpatialSubspaceRotation.AddChunk | bob/rppg/ssr/script/spatial_subspace_rotation.py:247 | output_data[tau:counter] += q adds q to that window and leaves the rest |
| SpatialSubspaceRotation.AddChunkPieces | bob/rppg/ssr/script/spatial_subspace_rotation.py:247 | the signal with a chunk added is the part before it, the sum over the window, and the part after it |
| SpatialSubspaceRotation.SumAddChunk | bob/rppg/ssr/script/spatial_subspace_rotation.py:247 | adding a chunk adds its sum to the sum of the signal |
| SpatialSubspaceRotation.ZeroEigen | bob/rppg/ssr/script/spatial_subspace_rotation.py:187-188 | the zeros left in the eigen arrays form a decomposition of the right shape |
| SpatialSubspaceRotation.Initial | bob/rppg/ssr/script/spatial_subspace_rotation.py:184-193 | the loop starts with counter 0, arrays of nb_final_frames entries and a zero pulse |
| SpatialSubspaceRotation.FrameSkin | bob/rppg/ssr/script/spatial_subspace_rotation.py:200-232 | a frame's skin pixels, found directly or by the search back, are a non-empty 3-row matrix, and a failing get_skin_pixels raises |
| SpatialSubspaceRotation.Accumulate | bob/rppg/ssr/script/spatial_subspace_rotation.py:236-249 | the decomposition is stored at counter and the counter advances; from counter = stride on, the zero-mean p is added; a negative stride raises there |
| SpatialSubspaceRotation.AccumulateCases | bob/rppg/ssr/script/spatial_subspace_rotation.py:236-249 | before the stride the decomposition is stored, the counter advances and output_data is unchanged; from the stride on, a negative stride raises the negative-dimension error |
| SpatialSubspaceRotation.AccumulateAdds | bob/rppg/ssr/script/spatial_subspace_rotation.py:236-249 | from the stride on, the decomposition is stored, the counter advances and the centred build_P of frames tau .. counter - 1 is added to output_data[tau:counter] |
| SpatialSubspaceRotation.AccumulateAdvances | bob/rppg/ssr/script/spatial_subspace_rotation.py:236-249 | one accumulation keeps the array sizes, advances the counter, leaves the samples from counter on untouched, changes nothing before the stride and keeps the sum of the pulse |
| SpatialSubspaceRotation.ChunkAdvances | bob/rppg/ssr/script/spatial_subspace_rotation.py:244-249 | adding a zero-sum chunk of stride samples that ends at counter keeps the sizes, the later samples and the sum of the pulse |
| SpatialSubspaceRotation.Rotate | bob/rppg/ssr/script/spatial_subspace_rotation.py:196-249 | one frame in the range advances the counter, and raises for a negative stride once the counter reaches it |
| SpatialSubspaceRotation.RotateWithSkin | bob/rppg/ssr/script/spatial_subspace_rotation.py:235-249 | once the skin of the frame is known, the step accumulates get_eigen of those pixels |
| SpatialSubspaceRotation.Rotations | bob/rppg/ssr/script/spatial_subspace_rotation.py:193-252 | after frames 0 .. k - 1 the arrays have nb_final_frames entries and the counter is the number of frames processed |
| SpatialSubspaceRotation.Visited | bob/rppg/ssr/script/spatial_subspace_rotation.py:194-252 | after frame i the counter is the number of frames processed up to it |
| SpatialSubspaceRotation.Stepped | bob/rppg/ssr/script/spatial_subspace_rotation.py:196-249 | a frame in the range advances the counter by one |
| SpatialSubspaceRotation.RotationsNext | bob/rppg/ssr/script/spatial_subspace_rotation.py:194-252 | one more frame applies the step for a frame in the range and nothing otherwise, and an exception stays |
| SpatialSubspaceRotation.RotationsSkip | bob/rppg/ssr/script/spatial_subspace_rotation.py:196-252 | frames outside start .. end - 1 change nothing, so breaking past the end is harmless |
| SpatialSubspaceRotation.RotationsStop | bob/rppg/ssr/script/spatial_subspace_rotation.py:194-252 | once the loop has raised, later frames do not change the exception |
| SpatialSubspaceRotation.RotationsZeroMean | bob/rppg/ssr/script/spatial_subspace_rotation.py:244-249 | the pulse is a sum of zero-mean chunks and sums to zero, and the sample of the last frame processed and every later one stays zero |
| SpatialSubspaceRotation.RotationsShortVideo | bob/rppg/ssr/script/spatial_subspace_rotation.py:244 | with no more frames processed than the stride, the pulse is all zeros |
| SpatialSubspaceRotation.FindFrameSkin | bob/rppg/ssr/script/spatial_subspace_rotation.py:200-232 | get_skin_pixels followed by the search loop computes SpatialSubspaceRotation.FrameSkin |
| SpatialSubspaceRotation.AddChunkInPlace | bob/rppg/ssr/script/spatial_subspace_rotation.py:247 | the in-place += computes SpatialSubspaceRotation.AddChunk |
| SpatialSubspaceRotation.AccumulateInPlace | bob/rppg/ssr/script/spatial_subspace_rotation.py:236-249 | storing the decomposition and adding p in place on the arrays has the outcome SpatialSubspaceRotation.Accumulate states |
| SpatialSubspaceRotation.StoreAndAdd | bob/rppg/ssr/script/spatial_subspace_rotation.py:236-247 | storing the decomposition at counter changes only that entry, and output_data gains the centred build_P of the stored decomposition on [tau:counter] |
| SpatialSubspaceRotation.AddPulse | bob/rppg/ssr/script/spatial_subspace_rotation.py:244-247 | build_P followed by the in-place += adds the centred p to output_data[tau:counter] and leaves the rest |
| SpatialSubspaceRotation.RotateFrame | bob/rppg/ssr/script/spatial_subspace_rotation.py:196-249 | one frame in place on the arrays has the outcome SpatialSubspaceRotation.Rotate states |
| SpatialSubspaceRotation.VisitFrame | bob/rppg/ssr/script/spatial_subspace_rotation.py:194-252 | frame i, in place, moves the arrays to the loop state after frame i |
| SpatialSubspaceRotation.LoopFrames | bob/rppg/ssr/script/spatial_subspace_rotation.py:194-252 | the in-place loop ends in the state of SpatialSubspaceRotation.Rotations over the whole video |
| SpatialSubspaceRotation.RotationLoop | bob/rppg/ssr/script/spatial_subspace_rotation.py:184-252 | zero arrays followed by the frame loop end in the state of SpatialSubspaceRotation.Rotations over the whole video |
| SpatialSubspaceRotation.Process | bob/rppg/ssr/script/spatial_subspace_rotation.py:151-265 | an existing output is skipped, an end past the video is skipped, an end before the start raises the negative-dimension error, and a saved pulse has nb_final_frames samples |
| SpatialSubspaceRotation.ProcessZeroMean | bob/rppg/ssr/script/spatial_subspace_rotation.py:184-265 | the pulse saved for an object sums to zero |
| SpatialSubspaceRotation.ProcessObject | bob/rppg/ssr/script/spatial_subspace_rotation.py:151-265 | one object processed in place has the outcome SpatialSubspaceRotation.Process states |
| SpatialSubspaceRotation.SpatialSubspaceRotationScript | bob/rppg/ssr/script/spatial_subspace_rotation.py:150-268 | the script processes every object in order until one raises |
| Tracker.FrameFitsMask | bob/rppg/cvpr14/extract_utils.py:110-148 | the mask get_mask draws on a frame has the frame's height and width |
| Tracker.KeypointMask | bob/rppg/cvpr14/extract_utils.py:13-107 | the mask of kp66_to_mask has nine points |
| Tracker.Fallback | bob/rppg/cvpr14/script/extract_signals.py:238-245 | the next features are the re-detected ones, or the tracked ones when detection finds none |
| Tracker.FirstFrame | bob/rppg/cvpr14/script/extract_signals.py:184-205 | frame 0 succeeds exactly when there are 66 keypoints and a bounding box |
| Tracker.NextFrame | bob/rppg/cvpr14/script/extract_signals.py:206-245 | a later frame succeeds exactly when there are features to track and a box for the frame, keeps the face width, and takes the frame's box for the next frame |
| Tracker.Carried | bob/rppg/cvpr14/script/extract_signals.py:181-245 | the state carried into a frame is the state the previous frame left, and there is none before frame 0 |
| Tracker.Tracked | bob/rppg/cvpr14/script/extract_signals.py:181-245 | the tracker leaves one state per frame processed |
| Tracker.TrackedPrefix | bob/rppg/cvpr14/script/extract_signals.py:181-245 | the states of the first frames do not depend on the frames after them |
| Tracker.TrackedStops | bob/rppg/cvpr14/script/extract_signals.py:181-245 | once the tracker has raised, later frames change nothing |
| Tracker.TrackedKeepsFacewidth | bob/rppg/cvpr14/script/extract_signals.py:200-237 | the face width is that of frame 0's box throughout, and the box and face kept after frame i are frame i's box and its crop |
| Tracker.TrackedSucceeds | bob/rppg/cvpr14/script/extract_signals.py:181-245 | tracking succeeds exactly when frame 0 does, frame 0's crop has features, and there is a box for every frame |
| Tracker.TrackedStep | bob/rppg/cvpr14/script/extract_signals.py:214-245 | a later frame crops with the previous box at the fixed width, keeps the mask when no transform is found and moves it by the transform otherwise, and re-detects the features in its crop with the tracked ones as fallback |
| Tracker.TrackedFirstMask | bob/rppg/cvpr14/script/extract_signals.py:190-192 | the mask of frame 0 is the keypoint mask |
| Tracker.TrackedMaskWithoutTransforms | bob/rppg/cvpr14/script/extract_signals.py:217-223 | without any transform the mask stays the keypoint mask of frame 0 |
| Tracker.TrackedWith | bob/rppg/cvpr14/script/extract_signals.py:181-256 | the frame loop leaves one tracker state and one value per frame |
| Tracker.TrackedWithTracks | bob/rppg/cvpr14/script/extract_signals.py:181-256 | the frame loop runs the tracker unchanged, and frame i's value is computed from frame i and the mask the tracker holds after it |
| Tracker.TrackedWithTotal | bob/rppg/cvpr14/script/extract_signals.py:181-256 | when the per-frame work cannot raise, the loop fails exactly when the tracker does, with its exception |
| Tracker.TrackedWithStops | bob/rppg/cvpr14/script/extract_signals.py:181-256 | once the loop has raised, later frames change nothing |
| Tracker.TrackFrame | bob/rppg/cvpr14/script/extract_signals.py:182-256 | one frame extends the states and values with the frame's own, or raises the loop's exception |
| Tracker.TrackVideo | bob/rppg/cvpr14/script/extract_signals.py:176-256 | the loop over a zero-filled array ends with the values of Tracker.TrackedWith, or its exception |
| SsrFromMask.MaskPixels | bob/rppg/ssr/script/ssr_from_mask.py:258-259 | the pixels inside the mask form a 3 x (mask size) matrix |
| SsrFromMask.MaskEigen | bob/rppg/ssr/script/ssr_from_mask.py:258-262 | get_eigen on the mask pixels succeeds exactly when the mask is not empty, with a 3 x 3 decomposition |
| SsrFromMask.MaskEigenSorted | bob/rppg/ssr/script/ssr_from_mask.py:262 | the decomposition stored for a frame has non-increasing eigenvalues |
| SsrFromMask.Initial | bob/rppg/ssr/script/ssr_from_mask.py:171-181 | the loop starts with no tracker state, arrays of len(video) entries and a zero pulse |
| SsrFromMask.MeasureFrame | bob/rppg/ssr/script/ssr_from_mask.py:186-262 | frame i raises the tracker's exception when the tracker does, and otherwise measures get_eigen of the pixels inside the tracker's new mask |
| SsrFromMask.Frames | bob/rppg/ssr/script/ssr_from_mask.py:184-272 | after frames 0 .. k - 1 the arrays keep their sizes, the counter is k, and there is a tracker state after the first frame |
| SsrFromMask.Accumulated | bob/rppg/ssr/script/ssr_from_mask.py:262-272 | after frame i is accumulated the counter is i + 1 |
| SsrFromMask.Measured | bob/rppg/ssr/script/ssr_from_mask.py:186-262 | measuring frame i keeps the counter and gives a 3 x 3 decomposition |
| SsrFromMask.Step | bob/rppg/ssr/script/ssr_from_mask.py:186-272 | the loop body leaves a tracker state and advances the rotation state as the SSR script does |
| SsrFromMask.FramesNext | bob/rppg/ssr/script/ssr_from_mask.py:184-272 | one more frame runs the loop body on the state reached, and an exception stays |
| SsrFromMask.FramesStop | bob/rppg/ssr/script/ssr_from_mask.py:184-272 | once the loop has raised, later frames do not change the exception |
| SsrFromMask.FramesTrack | bob/rppg/ssr/script/ssr_from_mask.py:186-244 | the loop raises whenever the tracker does, and otherwise carries the state the tracker leaves after the last frame |
| SsrFromMask.FramesStep | bob/rppg/ssr/script/ssr_from_mask.py:186-262 | a frame that goes through is the tracker's step followed by its decomposition stored at its own index |
| SsrFromMask.StoredByNext | bob/rppg/ssr/script/ssr_from_mask.py:262 | storing frame k's decomposition at index k extends the stored frames by one |
| SsrFromMask.FramesEigen | bob/rppg/ssr/script/ssr_from_mask.py:247-262 | after k frames, entry i < k holds the decomposition of frame i inside the mask the tracker holds for frame i |
| SsrFromMask.FramesEigenUnwritten | bob/rppg/ssr/script/ssr_from_mask.py:180-181 | the entries of the frames not reached yet are still zeros |
| SsrFromMask.FramesZeroMean | bob/rppg/ssr/script/ssr_from_mask.py:269-272 | output_data sums to zero, and the sample of the last frame and every later one stays zero |
| SsrFromMask.FramesShortVideo | bob/rppg/ssr/script/ssr_from_mask.py:269 | with no more frames than the stride, output_data stays all zeros |
| SsrFromMask.VisitFrame | bob/rppg/ssr/script/ssr_from_mask.py:184-272 | frame i, in place, moves the arrays to the loop state after frame i |
| SsrFromMask.LoopFrames | bob/rppg/ssr/script/ssr_from_mask.py:184-272 | the in-place loop ends in the state of SsrFromMask.Frames over the whole video |
| SsrFromMask.MaskRotationLoop | bob/rppg/ssr/script/ssr_from_mask.py:171-272 | zero arrays followed by the frame loop end in the state of SsrFromMask.Frames over the whole video |
| SsrFromMask.Process | bob/rppg/ssr/script/ssr_from_mask.py:158-285 | an existing output is skipped, and a saved pulse has one sample per frame |
| SsrFromMask.ProcessSaved | bob/rppg/ssr/script/ssr_from_mask.py:177-285 | the saved pulse sums to zero, and is all zeros for a video with no more frames than the stride |
| SsrFromMask.ProcessObject | bob/rppg/ssr/script/ssr_from_mask.py:158-285 | one object processed in place has the outcome SsrFromMask.Process states |
| SsrFromMask.SsrFromMaskScript | bob/rppg/ssr/script/ssr_from_mask.py:154-288 | the script processes every object in order until one raises |
| ExtractSignals.BackgroundMask | bob/rppg/cvpr14/script/extract_signals.py:254-255 | bg_mask has the frame's height and width, and is true exactly in rows 0..99 and columns 0..99 |
| ExtractSignals.BackgroundMaskCounts | bob/rppg/cvpr14/script/extract_signals.py:254-255 | the background block of a frame with a pixel is not empty |
| ExtractSignals.BackgroundDefined | bob/rppg/cvpr14/script/extract_signals.py:254-256 | the background value is NaN exactly for a frame zero pixels wide |
| ExtractSignals.MaskGreen | bob/rppg/cvpr14/script/extract_signals.py:248-249 | the face value is NaN exactly when the mask is empty, and otherwise the mean green inside the mask |
| ExtractSignals.Unzip | bob/rppg/cvpr14/script/extract_signals.py:249-256 | face_color and bg_color hold the two values of each frame |
| ExtractSignals.MaskSignals | bob/rppg/cvpr14/script/extract_signals.py:176-256 | in mask mode both signals have one value per frame |
| ExtractSignals.MaskSignalsFollowTracker | bob/rppg/cvpr14/script/extract_signals.py:181-256 | the mask-mode loop fails exactly when the tracker does, with its exception; face[i] is the mean green inside the mask the tracker holds after frame i and background[i] that of frame i's block |
| ExtractSignals.ExtractMaskSignals | bob/rppg/cvpr14/script/extract_signals.py:176-256 | the in-place mask-mode loop computes ExtractSignals.MaskSignals |
| ExtractSignals.WholeFaceGreen | bob/rppg/cvpr14/extract_utils.py:331-358 | the whole-face value of a three-channel crop is compute_average_colors_wholeface |
| ExtractSignals.WholeFaceSignals | bob/rppg/cvpr14/script/extract_signals.py:181-256 | whole-face mode raises IndexError exactly when there are more frames than boxes, and otherwise gives one value per frame in both signals |
| ExtractSignals.WholeFaceIsLocal | bob/rppg/cvpr14/script/extract_signals.py:200-256 | in whole-face mode the values of frame i depend on that frame and the boxes alone |
| ExtractSignals.WholeFaceFilled | bob/rppg/cvpr14/script/extract_signals.py:176-256 | arrays filled frame by frame hold the whole-face signals |
| ExtractSignals.StoreColors | bob/rppg/cvpr14/script/extract_signals.py:250-256 | frame i writes face_color[i] from the crop and bg_color[i] from the block |
| ExtractSignals.ExtractWholeFaceSignals | bob/rppg/cvpr14/script/extract_signals.py:176-256 | the in-place whole-face loop computes ExtractSignals.WholeFaceSignals |
| ExtractSignals.VideoSignals | bob/rppg/cvpr14/script/extract_signals.py:176-256 | both signals of a video have one value per frame |
| ExtractSignals.Process | bob/rppg/cvpr14/script/extract_signals.py:157-266 | an object is skipped exactly when both outputs exist and --overwrite is off, and saved signals have one value per frame |
| ExtractSignals.ProcessSavesBackground | bob/rppg/cvpr14/script/extract_signals.py:254-266 | every saved background value is the mean over the frame's block, NaN exactly for a frame zero pixels wide |
| ExtractSignals.ProcessSavesFace | bob/rppg/cvpr14/script/extract_signals.py:181-262 | saved face values are the whole-face means of the crops in whole-face mode, and the means inside the tracker's masks in mask mode |
| ExtractSignals.ProcessObject | bob/rppg/cvpr14/script/extract_signals.py:157-266 | one object processed in place has the outcome ExtractSignals.Process states |
| ExtractSignals.Script | bob/rppg/cvpr14/script/extract_signals.py:151-266 | --gridcount processes nothing, and otherwise every object is processed in order until one raises |
| ExtractSignals.ExtractSignalsScript | bob/rppg/cvpr14/script/extract_signals.py:151-266 | the script computes ExtractSignals.Script |
| ExtractFaceAndBgSignals.IndexScalar | bob/rppg/cvpr14/script/extract_face_and_bg_signals.py:235-242 | indexing the float compute_average_colors_mask returns always raises IndexError |
| ExtractFaceAndBgSignals.Columns | bob/rppg/cvpr14/script/extract_face_and_bg_signals.py:164-166 | the two signals have one value per frame |
| ExtractFaceAndBgSignals.MaskSignalsAsWritten | bob/rppg/cvpr14/script/extract_face_and_bg_signals.py:169-242 | the mask-mode loop as written gives one value per frame when it succeeds |
| ExtractFaceAndBgSignals.WholeFaceAsWritten | bob/rppg/cvpr14/script/extract_face_and_bg_signals.py:169-242 | the whole-face loop as written succeeds only for an empty video |
| ExtractFaceAndBgSignals.ProcessAsWritten | bob/rppg/cvpr14/script/extract_face_and_bg_signals.py:145-252 | an object is skipped exactly when both outputs exist and overwrite is off |
| ExtractFaceAndBgSignals.ProcessAsWrittenRaises | bob/rppg/cvpr14/script/extract_face_and_bg_signals.py:169-242 | as written every non-skipped video with a frame raises: the tracker's first exception, or the IndexError of line 235 or 242 at frame 0 |
| ExtractFaceAndBgSignals.AsWrittenLosesSavedVideos | bob/rppg/cvpr14/script/extract_face_and_bg_signals.py:235-242 | every object the intended loop saves with a frame raises as written |
| ExtractFaceAndBgSignals.Script | bob/rppg/cvpr14/script/extract_face_and_bg_signals.py:120-252 | without a database nothing is processed, and otherwise the objects go through the frame loop of extract_signals.py |
| ExtractFaceAndBgSignals.ScriptSavesEveryFrame | bob/rppg/cvpr14/script/extract_face_and_bg_signals.py:164-252 | every saved object has one face and one background value per frame, the background being the mean over the frame's block, NaN exactly for a frame zero pixels wide |
| ExtractFaceAndBgSignals.ExtractFaceAndBgSignalsScript | bob/rppg/cvpr14/script/extract_face_and_bg_signals.py:120-252 | the script computes ExtractFaceAndBgSignals.Script |
| Numerics.Mean | bob/rppg/cvpr14/extract_utils.py:328 | numpy.mean is NaN exactly for an empty input, and otherwise n times the mean is the sum |
| Numerics.MeanConstant | bob/rppg/cvpr14/extract_utils.py:328 | the mean of a constant non-empty signal is that constant |
| Numerics.Zeros | bob/rppg/chrom/script/extract_pulse.py:198 | numpy.zeros(n) has n zero entries |
| Numerics.Trunc | bob/rppg/base/utils.py:53-54 | Python's int() of a float truncates toward zero |
| Numerics.FloorDiv | bob/rppg/base/script/frequency_analysis.py:133 | Python's // on integers is the floor of the quotient |
| Numerics.Quot | bob/rppg/chrom/script/extract_pulse.py:296 | the quotient times a non-zero divisor is the dividend |
| Numerics.PyIndex | bob/rppg/ssr/ssr_utils.py:66 | a Python index is valid exactly in -n .. n - 1 and a negative one counts from the end |

## Left out

- HDF5 loading and saving, video readers, database objects and `make_path`, directory creation, docopt and configuration loading, SGE grid slicing, logging and every plotting branch: these are I/O and orchestration. File existence and loaded contents are inputs to the model, and a failing load is the "no file available" skip.
- OpenCV (`goodFeaturesToTrack`, `calcOpticalFlowPyrLK`, `estimateRigidTransform`), `rgb_to_gray`, `bob.ip.base.scale`, the face detector and `SkinColorFilter` are foreign libraries. They are oracle parameters. The tracker tests exercise OpenCV, not this package, and are not modelled.
- matplotlib's `Path.contains_points` inside `get_mask` is an oracle. The vertex list and the grid shape are modelled.
- `numpy.linalg.eig` and `inv`, scipy's `firwin`, `filtfilt` and `welch`, and `sqrt`, `std` and `hanning` are floating-point numerics. They are uninterpreted parameters. `lfilter` is modelled only through the boxcar difference equation `average` uses.
- Floating point is modelled as exact reals. inf and NaN from a division by zero become 0 through `Numerics.Quot`. NaN from the mean of nothing becomes `None`.
- The rectification test's exact zero (test.py:166-176) comes from rounding: after a few iterations 1 - w falls below half an ulp of 1, so the learned weight becomes exactly 1.0. Over reals w = 1 - (0.001/1.001)^k never reaches 1, so the test is not modelled.
- The get_eigen test divides in place on an integer array. Only the ordering and the zero-pixel case are modelled.
- SsrUtils.Decompose: an eig answer of another shape than d eigenvalues and a d x d matrix is read as the zero decomposition. numpy never gives such an answer.
- BaseUtils.Cropped: the face of a crop that is not three channels of one grid is taken as a face with no pixels. crop_face never produces such a crop.
- ExtractSignals.WholeFaceGreen: a crop without three channels gives `None` instead of numpy's result for such an array.
- Cvpr14Utils.GetMask: its vertex list has the type MaskPolygon, which holds at least one point. get_mask on an empty list raises IndexError at `mask_points[0]`; that call is not modelled, because kp66_to_mask always gives nine vertices and the tracker's transform keeps their number.
- The `except NameError` fallbacks on `bounding_boxes` are never taken, because the name is always bound. A missing box is the IndexError the indexing raises.
- ssr_from_mask.py's `--gridcount` prints the count and carries on. That print is output only and is not modelled.
- Python 2 division: `window_size / 2` and the 2SR stride are integer divisions, as under Python 2, where the scripts run.
- A numpy broadcast between two crops of different shapes in compute_gray_diff is modelled as an error.
- The module-level skin filter of ssr_utils.py keeps its Gaussian parameters between calls. The model passes them explicitly as the current skin model.
- The overlap-add loop with a zero stride raises in `range()`. A window of 1 is the only way to get there, and it is modelled as that error.
- ExtractSignals.MaskSignals: the frame loop writes the face and background values as one array of pairs, not as the two arrays `face_color` and `bg_color`, which the model then splits. The values are the same.
- FilterUtils.SecondDifference and FilterUtils.DetrendSystem are defined for n >= 2 only. FilterUtils.Detrend returns the negative-dimension error for a shorter signal, which is where spdiags is asked for n - 2 rows; that error's exact message is not checked against scipy.
- IllumUtils.Nlms: the filter length is a natural number. A negative --length, for which `numpy.zeros(n_filter_taps)` raises, is outside the model.
- IllumUtils.Nlms: the model states the outputs, errors and weights of every iteration exactly. It does not prove that the prior error shrinks, because that is nonlinear real arithmetic.
- compute_performance.py, extract_boundingboxes.py, debug.py, video2skin.py, illumination_rectification.py, filter.py, scripts-article/ and setup.py are not part of this model. They are thin loaders, plots or packaging around the modelled functions.

## Findings

The CHROM scripts run the code as written: ExtractPulse stores compute_gray_diff's wrapped sum, and ExtractPulse and ExtractPulseFromMask both project with project_chrominance's `+ 1.5 b`. The corrected ChromUtils members state what that code evidently intended. ExtractFaceAndBgSignals is modelled both ways, as written (ProcessAsWritten) and corrected (Script), because as written it never saves a video with a frame.

| source | as written | input that shows it | evidently intended | confidence | as-written member | corrected member |
|---|---|---|---|---|---|---|
| bob/rppg/chrom/extract_utils.py:79 | `prevg - currg` subtracts uint8 grey images, so every difference wraps modulo 256 before `absolute`, and the sum depends on the frame order | a black 100 x 100 frame followed by a white one: each pixel gives (0 - 255) mod 256 = 1, sum 10000; white then black gives 255 per pixel, sum 2550000 | the sum of absolute grey-level differences the docstring describes: 2550000 in both orders, symmetric, and zero exactly for identical frames | not executed | ChromUtils.GrayDiffBlackWhite | ChromUtils.GrayDiffMeasuresChange |
| bob/rppg/chrom/extract_utils.py:140-142 | `y = (1.5 * r) + g + (1.5 * b)` adds the blue term, so grey levels do not cancel in y | r = g = b = 1: y is 4, where the chrominance test (test.py:89-92) asserts y == 1.0 | equation (9) of de Haan and Jeanne (2013), which the docstring cites: y = 1.5r + g - 1.5b, which maps grey 1 to (1, 1) | not executed | ChromUtils.ProjectChrominanceOfGrey | ChromUtils.IntendedChrominanceOfGrey |
| bob/rppg/cvpr14/script/extract_face_and_bg_signals.py:235-242 | `compute_average_colors_mask(...)[1]` indexes the scalar numpy.mean returns, which raises IndexError | any object that is not skipped and has a frame: the tracker's first-frame error or, failing that, the IndexError at frame 0, so a nonempty video is never saved | the scalar itself, as in extract_signals.py:249,256: every frame gets a face and a background value | not executed | ExtractFaceAndBgSignals.ProcessAsWrittenRaises | ExtractFaceAndBgSignals.ScriptSavesEveryFrame |
