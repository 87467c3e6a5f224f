# picapture in Dafny

A model of the command-line tools built on ZWO's ASI camera SDK: `picapture` (capture, info, list and the option loop of its `main`) and the stand-alone `info` tool, together with the PPM writer, the three enum-to-label translators and the `ASI_CALL` abort-on-error macro. Each tool defines its own `ASI_CALL` (picapture.h:115-125 and info/info.c:157-166). The two differ only in the diagnostic they print, so one `Sdk.AsiCall` models both.

The SDK is closed, so it is an oracle. A run is given a script of replies, one per SDK call in the order the calls are made. Each reply carries the status code and the call's out-parameters: the camera count, the camera's properties, the control type in the capabilities, the exposure status and the image bytes. A tool's behaviour is then the trace of calls it makes and the way it stops:
- `Sdk.Run` is the functional definition of such a trace: call after call, stopping at the first failing call (`ASI_CALL`'s `goto error`) or at the first call the script has no reply for.
- `Sdk.Issued` is an independent, declarative description of a trace. `Sdk.RunIssued` proves that every run is such a trace, and `Sdk.IssuedRun` proves that every such trace is the run, so the two definitions agree.
- Every imperative operation (capture, info, list, the info tool's main, picapture's main) is a method whose postcondition says its trace is `Run` of a script function, or, for main, the traces of its options one after the other. Lemmas then prove what the source promises about those scripts: order, counts, the close coming last and only there, file names.

Modules, one concept each:
- `Platform`: C constants and integer conversions.
- `Wrappers`: `Option`.
- `AsiLabels`: the SDK enumerations and the translators.
- `Decimal`: `%d`, `%05d` and well-formed `strtol` fields.
- `Options`: `strtok` as a `Tokenizer` class whose position each call advances.
- `Ppm`: the P6 writer over an `array`, and a reader as its partner.
- `Sdk`: the oracle, `Run`, `Ran`, `Issued` and `ASI_CALL`.
- `Display`: the bins and video-mode listing loops.
- `Describe`: one camera's property/open/init/controls/close sequence, shared by picapture's `info` and the info tool.
- `InfoTool`: `info/info.c`'s `main`.
- `Capture`: `capture`.
- `Picapture`: `info`, `list` and `main`.

## Model

| member | source | states |
|---|---|---|
| Platform.SaturateLong | picapture.c:72 | strtol's result always lies in long's range and equals the value read whenever that value fits |
| Platform.IntOfLong | picapture.c:389 | a long passed as info's int argument keeps its value modulo 2^32 and is an int; a value that fits is unchanged |
| AsiLabels.ErrorCodeLabel | picapture.h:12-55 | the label is "Unknown ASI_ERROR_CODE" exactly for the codes the switch does not list (info/info.c:12-55 is the same text) |
| AsiLabels.ControlTypeLabel | picapture.h:57-94 | the label is "Unknown ASI_CONTROL_TYPE" exactly for the control types the switch does not list (info/info.c:57-94 is the same text) |
| AsiLabels.ImgTypeLabel | picapture.h:96-109 | the label is "Unknown ASI_IMG_TYPE" exactly for types other than RAW8, RGB24, RAW16 and Y8, ASI_IMG_END included (info/info.c:96-109 is the same text) |
| AsiLabels.ErrorCodeLabelRoundTrip | picapture.h:14-54 | reading an error label back gives the code it names, so each of the 18 listed codes has its own label, ASI_ERROR_INVALID_INDEX with the spelling "ASE_ERROR_INVALID_INDEX"; the fallback reads back as no code |
| AsiLabels.ControlTypeLabelRoundTrip | picapture.h:59-93 | reading a control label back gives the control type it names for each of the 28 listed types; the fallback reads back as no type |
| AsiLabels.ImgTypeLabelRoundTrip | picapture.h:98-108 | reading an image-type label back gives RAW8, RGB24, RAW16 or Y8; every other value's label reads back as no type |
| AsiLabels.ErrorCodeLabelsDistinct | picapture.h:14-48 | distinct listed error codes get distinct labels |
| AsiLabels.ControlTypeLabelsDistinct | picapture.h:59-87 | distinct listed control types get distinct labels |
| AsiLabels.ImgTypeLabelsDistinct | picapture.h:98-102 | distinct listed image types get distinct labels |
| Decimal.NatDigits | picapture.c:333 | "%d" of a non-negative value is a non-empty digit string that starts with '0' only for 0 |
| Decimal.DecimalRoundTrip | picapture.c:72 | every int prints with "%d" as a well-formed field, and strtol reads that field back as the same int |
| Decimal.ParseDecimalRoundTrip | picapture.c:80 | every well-formed integer field is exactly the "%d" text of the value strtol reads from it |
| Decimal.ZeroPaddedShape | picapture.c:173 | "%05d" of n is all digits, max(5, digit count) characters long, and reads back as n |
| Decimal.ZeroPaddedInjective | picapture.c:173 | distinct frame indices are padded to distinct texts |
| Decimal.DigitCountMonotone | picapture.c:173 | a larger value never prints with fewer digits |
| Decimal.DigitCountBound | picapture.c:173 | a value below 10^d prints with at most d digits, which bounds the printed int index at 10 |
| Options.Span | picapture.c:69 | the front token ends at the first ',' or at the end of the string |
| Options.TokensAreTokens | picapture.c:69-84 | every token strtok hands out is non-empty and contains no ',' |
| Options.TokensOfJoin | picapture.c:69-84 | splitting tokens joined by single commas gives the same tokens back |
| Options.Tokenizer.constructor | picapture.c:69 | the first strtok call on the option string has every token of it still to come |
| Options.Tokenizer.Next | picapture.c:73 | each strtok call returns the next token and drops it from those to come; once only delimiters remain it returns NULL and stays there |
| Ppm.HeaderText | picapture.c:44 | the header bytes read as text are "P6\n", the decimal width, a space, the decimal height, "\n255\n" |
| Ppm.PixelBytes | picapture.c:46-54 | the row and column loops write exactly the first 3·width·height bytes of the buffer, in order, and none when either dimension is not positive |
| Ppm.SaveRgb24ToPpm | picapture.c:29-59 | when fopen fails the writer returns EXIT_FAILURE and writes nothing; otherwise it returns EXIT_SUCCESS and the file is the header followed by the pixel bytes |
| Ppm.PixelOffset | picapture.c:46-51 | the byte k of pixel (row, col) lies within the 3·width·height bytes written |
| Ppm.PixelAt | picapture.c:46-52 | after the header, byte k of pixel (row, col) is buffer byte 3·(row·width + col) + k: row-major, three bytes a pixel, no reordering |
| Ppm.PpmRoundTrip | picapture.c:44-54 | a P6 reader recovers from the written file the width, the height and exactly the pixel bytes taken from the buffer |
| Sdk.Run | picapture.h:115-125 | a run that went through made every call of its script; one that stopped made at most that many calls, and it stops only for lack of a reply or with EXIT_FAILURE |
| Sdk.RunThen | picapture.h:115-125 | in two scripts run one after the other, the second runs only if the first went through; a failure in the first is the end of the whole run |
| Sdk.RunIssued | picapture.h:115-125 | every run is a prefix of its script, each call answered by the reply at its position; every call before the last succeeded, and a failed run ends at its first failing call with nothing after it |
| Sdk.AsiCall | picapture.h:115-125 | ASI_CALL goes on exactly when the call's status is ASI_SUCCESS, handing back the call's reply; otherwise it stops the run with EXIT_FAILURE (info/info.c:157-166 has the same control flow) |
| Sdk.IssuedRun | picapture.h:115-125 | conversely, every trace the declarative description admits is the run of its script, so a script and its replies determine the trace |
| Sdk.CountedRan | picapture.c:87-102 | once the camera count is accepted, the calls after the count call are the run of the command's own script |
| Sdk.CountCameras | picapture.c:87 | ASIGetNumOfConnectedCameras is never checked: the run goes on whenever there is a reply, with its camera count |
| Display.BinCount | info/info.c:128-137 | the number of bins listed is the length of the leading run of non-zero entries: all before it are non-zero and the entry at it, if any, is zero |
| Display.ModeCount | info/info.c:143-152 | the number of video modes listed is the number of formats before the first ASI_IMG_END, or all 8 when there is none |
| Display.SupportedBinsLine | picapture.c:228-241 | the bins loop prints "Bin1 " … "Bink " for k = BinCount of the table, after the fixed prefix and before the newline |
| Display.SupportedModesLine | picapture.c:243-256 | the video-modes loop prints the label of each of the first ModeCount formats, each followed by a space |
| Display.DisplayCameraInfo | picapture.c:228-256 | the two listing lines, bins first, are those the Listing specification gives (info/info.c:126-154 is the same code) |
| Describe.QueryControl | picapture.c:291-293 | one control pass asks for the capabilities of control j, then for the value of the control type those capabilities returned |
| Describe.QueryControls | picapture.c:286-303 | the control loop's trace is the run of ControlQueries over controls 0 … count - 1 |
| Describe.PrepareCamera | picapture.c:278-283 | property, open, init and control count run in that order; the listing is printed exactly when the property call succeeded; the loop bound is the count the SDK returned |
| Describe.DescribeCamera | picapture.c:278-305 | describing a camera is the run of DescribeScript, with the property listing printed exactly when the property call succeeded |
| Describe.ControlQueriesOrder | info/info.c:197-214 | the control loop makes two calls per control, in index order: the capabilities of control j, then the value of the type they named |
| Describe.DescribeScriptShape | info/info.c:189-216 | a description is property, open, init, control count, two calls per control, and the close as its last call and nowhere else |
| Describe.LeftOpen | info/info.c:221-223 | a description that fails at a call other than the close makes no close: the camera is left open |
| InfoTool.NextCamera | info/info.c:186-216 | one pass describes camera i after cameras 0 … i - 1 and adds its listing; a failure there is where the run over all cameras stops, and the run stopped in camera i |
| InfoTool.DescribeCameras | info/info.c:185-217 | the camera loop's trace is the run of the descriptions of cameras 0 … count - 1 in index order, with the listings of the cameras it reached; on success the loop index ends at count with one listing per camera, on a failure at the camera the run stopped in (StoppedIn), whose listing is the last |
| InfoTool.InfoMain | info/info.c:168-224 | no reply means no call; the camera count returned is the SDK's reply; zero cameras give EXIT_FAILURE after the count call alone and no message; otherwise the count message and then the descriptions of all cameras, stopping at the first failure; on success one listing per camera, on a failure camera + 1 listings where camera is the one the run stopped in |
| InfoTool.CamerasPrefix | info/info.c:185-217 | the calls describing the first k cameras begin the calls describing the first m ≥ k |
| InfoTool.CamerasStopPersists | info/info.c:185-217 | once the run stops within the first k cameras' calls it stops within the first m ≥ k too |
| InfoTool.CamerasStopUnique | info/info.c:185-217 | the replies decide which camera the run stopped in: StoppedIn holds of one index only, so InfoMain's listing count on a failure is determined |
| InfoTool.CamerasStopped | info/info.c:221-223 | a run that fails while describing camera i has stopped at the same call within the descriptions of all cameras |
| InfoTool.CountMessageInjective | info/info.c:180-183 | the message is "1 camera detected!\n" exactly for one camera, and distinct counts give distinct messages |
| Capture.Strtol | picapture.c:72 | strtol of a well-formed field lies in long's range and equals the field's value when that fits |
| Capture.Truncate | picapture.c:76 | strndup keeps at most n characters, a prefix of its argument, and all of it when it is short enough |
| Capture.RequestOf | picapture.c:69-84 | camera and number are ints, exposure a long, and the prefix is the second field cut to at most FILENAME_MAX - 5 characters, all of it when it is that short |
| Capture.BufferSize | picapture.c:149-164 | the buffer holds width·height samples of 1 byte for RAW8 and Y8, 2 for RAW16 and 3 for RGB24; any other type has no size |
| Capture.RgbBufferFits | picapture.c:149-192 | the RGB24 buffer holds every byte save_rgb24_to_ppm reads |
| Capture.FrameNameInjective | picapture.c:173 | distinct frame indices give distinct file names |
| Capture.Polls | picapture.c:178-183 | the exposure poll asks at least once and asks for nothing but the exposure status |
| Capture.WaitForExposure | picapture.c:178-183 | the poll's trace is the run of Polls: it asks until the status is ASI_EXP_SUCCESS or a call fails |
| Capture.Expose | picapture.c:176-187 | one frame is start, poll, stop and fetch, in order; on success the image is the fetch's reply |
| Capture.TakeExposure | picapture.c:173-193 | one frame's trace is ExposureScript, and on success its file is FrameFile of the fetched image under the frame's name |
| Capture.NextFrame | picapture.c:172-195 | frame i follows frames 0 … i - 1 and adds its file; a failure in it is where the run over all frames stops, with exactly i frames through (FramesDone) and no file added |
| Capture.ExposeFrames | picapture.c:172-195 | the inner loop's trace is the run of the number frames' calls, its files are those of the frames that completed, and their count is the number of frames the run got through (FramesDone): all number on success, and on a failure exactly those before the frame that failed |
| Capture.FrameSize | picapture.c:149-159 | the RGB24 buffer size is at least 3·MaxWidth·MaxHeight |
| Capture.FramesPass | picapture.c:142-197 | one pass of the outer loop sets the format and exposure, then runs the inner loop's number frames; its file count is the number of frames that went through, none when the format or exposure call failed (FramesFilesDone) |
| Capture.CaptureFrames | picapture.c:122-198 | because the inner loop reuses i, the outer body runs once when number ≥ 1 and not at all otherwise; the trace is FramesScript, and the files are those of exactly the frames that went through (FramesFilesDone), max(number, 0) on success |
| Capture.OpenForCapture | picapture.c:104-106 | property, open and init in that order, each through ASI_CALL; the properties are those the SDK returned |
| Capture.ProcessControl | picapture.c:21-27 | process_control always returns EXIT_SUCCESS |
| Capture.ProcessControls | picapture.c:108-120 | every token after the fourth goes to process_control, in order, and none is left; none can fail |
| Capture.ParseRequest | picapture.c:69-84 | the four leading strtok calls read the request, with strndup's copy of at most FILENAME_MAX - 5 characters as the prefix, and leave the tokens after the fourth still to come |
| Capture.RunCapture | picapture.c:104-202 | after the checks, the trace is CaptureScript: setup, the frames, the close; the controls are processed only after setup went through; the files are those of exactly the frames that went through, none when setup failed (CaptureFilesDone) |
| Capture.AdmitCamera | picapture.c:86-102 | with no camera, camera -1 or an index past the count, capture fails with EXIT_FAILURE after the count call alone |
| Capture.CaptureRequest | picapture.c:86-206 | capture of a parsed request: out of replies, rejected, or the run of CaptureScript with its controls and the files of exactly the frames that went through |
| Capture.Capture | picapture.c:61-207 | for options whose frame names fit output[FILENAME_MAX], capture fails with no property or open call when rejected; otherwise its trace is CaptureScript, its files those of exactly the frames that went through (CaptureFilesDone), and on success all number files with every control processed; its whole trace is CaptureRun, the count call first |
| Capture.ExposuresStopPersists | picapture.c:172-195 | once the run stops within the first k frames' calls it stops within the first m ≥ k too |
| Capture.FramesDoneUnique | picapture.c:172-195 | the replies decide how many frames went through: FramesDone holds of one count only, so the file count on a failure is determined |
| Capture.PollAgain | picapture.c:178-183 | a poll that finds the exposure still working is followed by the rest of the poll |
| Capture.FrameNameGrows | picapture.c:173 | a later frame never has a shorter file name |
| Capture.NamesFitAll | picapture.c:172-173 | when the last frame's name fits output[FILENAME_MAX] with its NUL, so does every frame's name |
| Capture.ExposuresStarts | picapture.c:172-176 | k frames start exactly k exposures |
| Capture.CaptureStarts | picapture.c:122-200 | a capture starts exactly number exposures, none when number < 1 |
| Capture.ExposureFilesNamed | picapture.c:172-173 | frame j's file is named prefix + "%05d" of j + ".ppm", so the k files have k distinct names |
| Capture.ExposuresNoClose | picapture.c:172-195 | no frame closes the camera |
| Capture.CaptureScriptShape | picapture.c:104-200 | a capture is property, open and init first and the close last and only there; with number < 1 it is just those four calls |
| Capture.FailedRunLeavesOpen | picapture.c:204-206 | a failed run of a script with no close before its end ends at its failing call, after only successful calls, none of them a close |
| Capture.CaptureLeftOpen | picapture.c:204-206 | a capture that fails ends at its first failing call, and the camera is not closed |
| Capture.FrameNameOverflowAsWritten | picapture.c:76 | with the cap as written, a prefix field longer than 4086 characters makes frame 0's name and its NUL longer than char output[FILENAME_MAX] |
| Capture.FrameNameFits | picapture.c:123-173 | with the corrected cap, every frame name of an int index fits char output[FILENAME_MAX] with its NUL |
| Picapture.AdmitInfo | picapture.c:265-276 | info fails with EXIT_FAILURE after the count call alone exactly when there is no camera or the index is past the count |
| Picapture.Info | picapture.c:259-312 | info fails before touching the camera when rejected; otherwise its trace is the camera's description, with the listing printed once the property call succeeded; its whole trace is InfoRun, the count call first |
| Picapture.ListLineRoundTrip | picapture.c:333 | a list line starts with the camera's name and carries its ID in decimal, which reads back as that ID |
| Picapture.NextListed | picapture.c:331-334 | one pass asks for camera i's property after cameras 0 … i - 1 and prints its line when the call succeeded |
| Picapture.ListCameras | picapture.c:331-334 | the loop's trace is the run of the property calls of cameras 0 … count - 1, with one line for each call that succeeded |
| Picapture.List | picapture.c:318-341 | zero cameras give EXIT_FAILURE after the count call alone; otherwise the property calls in index order, stopping at the first failure, and on success one line per camera; its whole trace is ListRun, the count call first |
| Picapture.ProcessedShape | picapture.c:385-387 | main acts on a prefix of its options: up to and including the first --help, or all of them when there is none |
| Picapture.ProcessedUpTo | picapture.c:380-397 | the options before the first --help are all acted on, and --help is the last one acted on |
| Picapture.LastSetter | picapture.c:380-397 | the position found is the last option among capture, info and list, and -1 when there is none |
| Picapture.LastRcIsLast | picapture.c:382-393 | rc is the return value of the last capture, info or list, and 0 when none ran |
| Picapture.LastRcSnoc | picapture.c:382-393 | one more option leaves rc alone unless it is capture, info or list, whose return value replaces it |
| Picapture.CommandRun | picapture.c:380-396 | --help and unknown options make no SDK call and let the run go on; capture, info and list stop only for lack of a reply or with EXIT_FAILURE |
| Picapture.Perform | picapture.c:380-396 | an option makes exactly the calls of its command's run (capture, info or list with the option's argument) from where the SDK trace stands, returns EXIT_SUCCESS exactly when that run went through and EXIT_FAILURE when it failed, and that value becomes rc; --help and unknown options leave rc and the SDK alone |
| Picapture.NextOption | picapture.c:378-397 | option k runs after options 0 … k - 1; unless the script ran out, its return value joins theirs and rc follows it |
| Picapture.OneMoreStatus | picapture.c:380-393 | an option that went through adds EXIT_SUCCESS or EXIT_FAILURE as its return value, and rc takes that value exactly when the option is capture, info or list |
| Picapture.ProcessedCovers | picapture.c:385-387 | every option before the first --help is read, and the arguments of the options read include its own |
| Picapture.OneMoreOption | picapture.c:385-387 | the loop takes in one more option, and has taken in --help only if that option is --help |
| Picapture.PicaptureMain | picapture.c:375-403 | main requires well-formed arguments only of the options it reads, those up to the first --help; it acts on those options, each run on the SDK after those before it, so its calls are those of the options one after the other; each option's return value is EXIT_SUCCESS exactly when its run went through; rc is the return value of the last capture, info or list; an error in rc is reported unless --help ended the run, and the exit status is always EXIT_SUCCESS |

## Left out

- The SDK's own behaviour: it is closed source. Every call is answered by the next reply of a given script.
- The busy-wait exposure poll has no timeout. It is modelled on a finite script, and a run that needs more replies than the script has ends as `OutOfScript` instead of spinning forever.
- printf and fprintf diagnostics, the `%f` pixel size, the capability lines of the control loop, and the `__FILE__`/`__LINE__` messages are not modelled. This is output only. The listing lines that the bins and video-mode loops print are modelled.
- Real file I/O, `malloc`/`free` and `strndup` are not modelled. fopen's outcome is a parameter: a set of file names that cannot be opened. A failed malloc or strndup (NULL) is not modelled.
- `getopt_long` is not modelled: main receives its options already parsed. The `lopts` array lacks its all-zero terminator, which is undefined behaviour in getopt_long and is not modelled.
- strtol with base 0 is modelled only for canonical decimal fields. Hexadecimal, octal, surrounding text and errno are not modelled.
- Capture.Capture requires at least four fields, with integer camera, number and exposure. With a missing field the source passes NULL to strtol and strndup, which is undefined behaviour.
- Capture.Capture also requires that the name of frame number - 1, the longest, fits `char output[FILENAME_MAX]` with its NUL. A longer prefix makes sprintf write past the array, which is undefined behaviour (see Findings). Picapture.WellFormed passes the same condition on to main.
- Capture.CaptureFrames: the outer loop's `++i` is modelled on unbounded integers. With number == INT_MAX the inner loop leaves i at INT_MAX and the increment overflows int, which is undefined behaviour in C; the model lets i reach INT_MAX + 1, so the outer body runs once.
- `help()`'s usage text is not modelled. Its `exit(0)` is modelled as the end of main's run with status 0 and no rc report.
- The overflows of `camera + 1` at INT_MAX and of `MaxWidth * MaxHeight * 3` in size_t are undefined or wrapping in C. They are modelled on unbounded integers.
- The image type in capture is always RGB24, so the switch's default branch that returns EXIT_FAILURE cannot be reached. Capture.BufferSize models the whole switch, and the frame loop uses its RGB24 size.
- `process_control` always returns EXIT_SUCCESS, so capture's branch for a failing control cannot be reached and is not modelled.
- The frame buffer is modelled as the delivered image zero-filled to the buffer size. The SDK's real buffer contents beyond the delivered bytes are unknown.
- Capture.FrameFile's branch for a buffer smaller than 3·width·height cannot be reached, because Capture.RgbBufferFits rules it out. It only makes the function total.
- The `asi_error_code` variable that `ASI_CALL` assigns is not modelled as a separate variable. Only the diagnostic reads it, and the status is in the reply itself.

## Findings

| source | as written | input that shows it | evidently intended | confidence | as-written member | corrected member |
|---|---|---|---|---|---|---|
| picapture.c:76 | `strndup(option, FILENAME_MAX - 5)` keeps up to 4091 characters of the prefix. `sprintf(output, "%s%05d.ppm", prefix, i)` at picapture.c:173 then adds at least 9 characters and a NUL to `char output[FILENAME_MAX]` | a capture option string whose prefix field is longer than 4086 characters: frame 0's name needs more than 4096 bytes | a cap that leaves room for up to 10 index digits, ".ppm" and the NUL: FILENAME_MAX - 15. The model keeps the cap as written and excludes the overflowing inputs from capture | not executed | Capture.FrameNameOverflowAsWritten | Capture.FrameNameFits |
