/**
 * picapture's capture option (picapture.c:61-207): read camera, file-name
 * prefix, frame count and exposure from a comma-separated option string,
 * check the camera index, open the camera, hand the remaining options to
 * process_control, then take the frames, each written to a zero-padded,
 * numbered PPM file, and close the camera; every SDK call goes through
 * ASI_CALL, so the first failing call ends the capture.
 */
module Capture {
  import opened Wrappers
  import opened Platform
  import opened Decimal
  import opened AsiLabels
  import opened Options
  import opened Sdk
  import opened Ppm

  /**
   * The option strings capture can read: at least the four leading fields,
   * the camera, the frame count and the exposure as integers.
   */
  predicate CaptureOptions(options: string) {
    var t := Tokens(options);
    |t| >= 4 && IsDecimal(t[0]) && IsDecimal(t[2]) && IsDecimal(t[3])
  }

  /** strtol(s, NULL, 0) as a long: the value read, saturated to long's range. */
  function Strtol(s: string): (v: int)
    requires IsDecimal(s)
    ensures LONG_MIN <= v <= LONG_MAX
    ensures LONG_MIN <= ParseDecimal(s) <= LONG_MAX ==> v == ParseDecimal(s)
  {
    SaturateLong(ParseDecimal(s))
  }

  /** strndup(s, n): the first n characters of s, all of s when it is shorter. */
  function Truncate(s: string, n: nat): (t: string)
    ensures |t| <= n && t <= s
    ensures |s| <= n ==> t == s
  {
    if |s| <= n then s else s[..n]
  }

  /** The prefix cap picapture.c:76 passes to strndup. */
  const PrefixCapAsWritten: nat := FILENAME_MAX - 5

  /**
   * The prefix cap that leaves room in char output[FILENAME_MAX] for the
   * widest index "%05d" prints for an int (ten digits), ".ppm" and the NUL.
   */
  const PrefixCap: nat := FILENAME_MAX - 15

  /** What capture reads from its option string. */
  datatype Request = Request(camera: int, prefix: string, number: int, exposure: int)

  /** The four leading fields: camera and number are ints, exposure a long, the prefix capped as strndup caps it. */
  function RequestOf(options: string): (r: Request)
    requires CaptureOptions(options)
    ensures IsInt(r.camera) && IsInt(r.number) && LONG_MIN <= r.exposure <= LONG_MAX
    ensures |r.prefix| <= PrefixCapAsWritten && r.prefix <= Tokens(options)[1]
    ensures |Tokens(options)[1]| <= PrefixCapAsWritten ==> r.prefix == Tokens(options)[1]
  {
    var t := Tokens(options);
    Request(IntOfLong(Strtol(t[0])), Truncate(t[1], PrefixCapAsWritten), IntOfLong(Strtol(t[2])), Strtol(t[3]))
  }

  /** The checks before the camera is touched: no camera, camera unset (-1), or an index past the count. */
  predicate Rejected(numCameras: int, camera: int) {
    numCameras == 0 || camera == -1 || numCameras < camera + 1
  }

  /**
   * The buffer size switch (picapture.c:149-164): MaxWidth * MaxHeight bytes
   * per sample byte of the image type; no size for any other type.
   */
  function BufferSize(width: nat, height: nat, imgType: ImgType): (size: Option<nat>)
    ensures size.Some? <==> imgType in {Raw8, Y8, Raw16, Rgb24}
    ensures imgType == Raw8 || imgType == Y8 ==> size == Some(width * height)
    ensures imgType == Raw16 ==> size == Some(2 * (width * height))
    ensures imgType == Rgb24 ==> size == Some(3 * (width * height))
  {
    match imgType
    case Raw8 => Some(width * height)
    case Y8 => Some(width * height)
    case Raw16 => Some(width * height * 2)
    case Rgb24 => Some(width * height * 3)
    case _ => None
  }

  /** An RGB24 buffer holds every pixel the PPM writer reads. */
  lemma RgbBufferFits(width: nat, height: nat)
    ensures 3 * PixelCount(width, height) <= BufferSize(width, height, Rgb24).value
  {
  }

  /** sprintf(output, "%s%05d.ppm", prefix, k) */
  function FrameName(prefix: string, k: nat): string {
    prefix + ZeroPadded(k, 5) + ".ppm"
  }

  /**
   * The requests whose frame names all fit char output[FILENAME_MAX] with
   * their NUL; it is enough that the last, longest one does.  For any other
   * request sprintf overruns the buffer, which C leaves undefined.
   */
  predicate NamesFit(req: Request) {
    req.number < 1 || |FrameName(req.prefix, req.number - 1)| < FILENAME_MAX
  }

  /** A later frame's name is never shorter. */
  lemma FrameNameGrows(prefix: string, a: nat, b: nat)
    requires a <= b
    ensures |FrameName(prefix, a)| <= |FrameName(prefix, b)|
  {
    ZeroPaddedShape(a, 5);
    ZeroPaddedShape(b, 5);
    DigitCountMonotone(a, b);
  }

  /** When the last name fits, every frame's name fits with its NUL. */
  lemma NamesFitAll(req: Request, k: nat)
    requires NamesFit(req) && k < req.number
    ensures |FrameName(req.prefix, k)| + 1 <= FILENAME_MAX
  {
    FrameNameGrows(req.prefix, k, req.number - 1);
  }

  /** Distinct frames get distinct file names. */
  lemma FrameNameInjective(prefix: string, a: nat, b: nat)
    requires FrameName(prefix, a) == FrameName(prefix, b)
    ensures a == b
  {
    var na := FrameName(prefix, a);
    var nb := FrameName(prefix, b);
    ZeroPaddedShape(a, 5);
    ZeroPaddedShape(b, 5);
    assert ZeroPadded(a, 5) == na[|prefix|..|na| - 4];
    assert ZeroPadded(b, 5) == nb[|prefix|..|nb| - 4];
    ZeroPaddedInjective(a, b, 5);
  }

  /**
   * The busy-wait exposure poll from position at on: status queries until
   * one reports ASI_EXP_SUCCESS, fails, or finds no reply.
   */
  function Polls(camera: int, replies: seq<Reply>, at: nat): (s: seq<Call>)
    ensures |s| >= 1 && forall k :: 0 <= k < |s| ==> s[k] == GetExpStatus(camera)
    decreases |replies| - at
  {
    if at >= |replies| || replies[at].code != Success || replies[at].status == ExpSuccess then [GetExpStatus(camera)]
    else [GetExpStatus(camera)] + Polls(camera, replies, at + 1)
  }

  /** One frame's calls from position at on: start, poll until done, stop, fetch the image. */
  function ExposureScript(camera: int, size: nat, replies: seq<Reply>, at: nat): seq<Call> {
    [StartExposure(camera, false)] + Polls(camera, replies, at + 1) + [StopExposure(camera), GetDataAfterExp(camera, size)]
  }

  /** The calls of frames 0 … k - 1, the first call at position at. */
  function Exposures(camera: int, size: nat, replies: seq<Reply>, at: nat, k: int): seq<Call>
    decreases k
  {
    if k <= 0 then []
    else
      var before := Exposures(camera, size, replies, at, k - 1);
      before + ExposureScript(camera, size, replies, at + |before|)
  }

  /**
   * Exactly k of the number frames whose first call is at position at went
   * through: frames 0 … k - 1 did, and frame k, when there is one, stopped.
   */
  predicate FramesDone(camera: int, size: nat, replies: seq<Reply>, at: nat, k: int, number: int) {
    0 <= k <= (if number > 0 then number else 0)
    && Run(replies, at, Exposures(camera, size, replies, at, k)).stop == None
    && (k < number ==> Run(replies, at, Exposures(camera, size, replies, at, k + 1)).stop != None)
  }

  /** A file save_rgb24_to_ppm was asked to write: its contents, or None when it could not be opened. */
  datatype File = File(name: string, contents: Option<seq<byte>>)

  /** The buffer after ASIGetDataAfterExp: the frame the SDK delivers, zero-filled past its end. */
  function FrameBuffer(frame: seq<byte>, size: nat): (b: seq<byte>)
    ensures |b| == size
    ensures forall k :: 0 <= k < size ==> b[k] == if k < |frame| then frame[k] else 0
  {
    seq(size, k requires 0 <= k < size => if k < |frame| then frame[k] else 0)
  }

  /** The file for a frame whose image arrived as frame, written unless its name is one that cannot be opened. */
  function FrameFile(name: string, width: nat, height: nat, frame: seq<byte>, size: nat, unwritable: set<string>): File
  {
    File(name, if name in unwritable || size < 3 * PixelCount(width, height) then None
               else Some(PpmImage(width, height, FrameBuffer(frame, size))))
  }

  /** The positions of the last call of frames 0 … k - 1, the one that fetches the image. */
  function FrameEnds(camera: int, size: nat, replies: seq<Reply>, at: nat, k: nat): seq<int> {
    seq(k, j requires 0 <= j < k => at + |Exposures(camera, size, replies, at, j + 1)| - 1)
  }

  /** The files of frames whose images were fetched at the given positions: frame j's file is named by j. */
  function FilesAt(prefix: string, width: nat, height: nat, size: nat, replies: seq<Reply>,
                   unwritable: set<string>, ends: seq<int>): seq<File>
  {
    seq(|ends|, j requires 0 <= j < |ends| =>
      FrameFile(FrameName(prefix, j), width, height, ReplyAt(replies, ends[j]).frame, size, unwritable))
  }

  /** The files of frames 0 … k - 1, the first frame's calls at position at. */
  function ExposureFiles(prefix: string, width: nat, height: nat, camera: int, size: nat, replies: seq<Reply>,
                         unwritable: set<string>, at: nat, k: nat): seq<File>
  {
    FilesAt(prefix, width, height, size, replies, unwritable, FrameEnds(camera, size, replies, at, k))
  }

  /** while (1) { ASI_CALL(ASIGetExpStatus(camera, &status)); if (status == ASI_EXP_SUCCESS) break; } */
  method WaitForExposure(replies: seq<Reply>, calls: seq<Call>, camera: int) returns (calls': seq<Call>, stop: Option<Exit>)
    ensures Ran(replies, calls, calls', Polls(camera, replies, |calls|), stop)
  {
    ghost var whole := Polls(camera, replies, |calls|);
    ghost var done: seq<Call> := [];
    RanNothing(replies, calls);
    calls' := calls;
    while true
      invariant Ran(replies, calls, calls', done, None)
      invariant done + Polls(camera, replies, |calls'|) == whole
      decreases |replies| - |calls'|
    {
      var next, s, status := AsiCall(replies, calls', GetExpStatus(camera));
      Step(replies, calls, calls', next, done, GetExpStatus(camera), [], s);
      if s != None || status.status == ExpSuccess {
        PollLast(camera, replies, |calls'|, done, whole);
        return next, s;
      }
      PollAgain(camera, replies, |calls'|, done, whole);
      done := done + [GetExpStatus(camera)];
      calls' := next;
    }
  }

  /** The poll at position at ends the wait: the calls so far and this one are the whole poll. */
  lemma PollLast(camera: int, replies: seq<Reply>, at: nat, done: seq<Call>, whole: seq<Call>)
    requires done + Polls(camera, replies, at) == whole
    requires at >= |replies| || replies[at].code != Success || replies[at].status == ExpSuccess
    ensures done + [GetExpStatus(camera)] + [] == whole && done + [GetExpStatus(camera)] == whole
  {
  }

  /** The poll at position at reports an exposure still under way: the wait goes on from position at + 1. */
  lemma PollAgain(camera: int, replies: seq<Reply>, at: nat, done: seq<Call>, whole: seq<Call>)
    requires done + Polls(camera, replies, at) == whole
    requires at < |replies| && replies[at].code == Success && replies[at].status != ExpSuccess
    ensures done + [GetExpStatus(camera)] + Polls(camera, replies, at + 1) == whole
  {
    assert done + ([GetExpStatus(camera)] + Polls(camera, replies, at + 1)) == done + [GetExpStatus(camera)] + Polls(camera, replies, at + 1);
  }

  /** One frame's SDK calls: start the exposure, wait for it, stop it and fetch the image. */
  method Expose(replies: seq<Reply>, calls: seq<Call>, camera: int, size: nat)
    returns (calls': seq<Call>, stop: Option<Exit>, frame: seq<byte>)
    ensures Ran(replies, calls, calls', ExposureScript(camera, size, replies, |calls|), stop)
    ensures stop == None ==> frame == ReplyAt(replies, |calls'| - 1).frame
  {
    var start := StartExposure(camera, false);
    ghost var polls := Polls(camera, replies, |calls| + 1);
    ghost var tail := [StopExposure(camera), GetDataAfterExp(camera, size)];
    ghost var script := ExposureScript(camera, size, replies, |calls|);
    frame := [];
    RanNothing(replies, calls);
    var c1, s1, _ := AsiCall(replies, calls, start);
    Step(replies, calls, calls, c1, [], start, polls + tail, s1);
    if s1 != None {
      assert [] + [start] + (polls + tail) == script;
      return c1, s1, frame;
    }
    var c2, s2 := WaitForExposure(replies, c1, camera);
    RanThen(replies, calls, c1, c2, [start], polls, s2);
    if s2 != None {
      RanStopped(replies, calls, c2, [start] + polls, tail, s2.value);
      return c2, s2, frame;
    }
    var c3, s3, _ := AsiCall(replies, c2, StopExposure(camera));
    Step(replies, calls, c2, c3, [start] + polls, StopExposure(camera), [GetDataAfterExp(camera, size)], s3);
    if s3 != None {
      assert [start] + polls + [StopExposure(camera)] + [GetDataAfterExp(camera, size)] == script;
      return c3, s3, frame;
    }
    var c4, s4, data := AsiCall(replies, c3, GetDataAfterExp(camera, size));
    Step(replies, calls, c3, c4, [start] + polls + [StopExposure(camera)], GetDataAfterExp(camera, size), [], s4);
    assert [start] + polls + [StopExposure(camera)] + [GetDataAfterExp(camera, size)] == script;
    assert [start] + polls + [StopExposure(camera)] + [GetDataAfterExp(camera, size)] + [] == script;
    return c4, s4, data.frame;
  }

  /**
   * One pass of the frame loop: take the exposure into the buffer, then
   * save_rgb24_to_ppm into the frame's file, whose result capture ignores.
   */
  method TakeExposure(replies: seq<Reply>, calls: seq<Call>, camera: int, size: nat, buffer: array<byte>,
                      width: nat, height: nat, name: string, unwritable: set<string>)
    returns (calls': seq<Call>, stop: Option<Exit>, file: File)
    requires buffer.Length == size && 3 * PixelCount(width, height) <= size
    modifies buffer
    ensures Ran(replies, calls, calls', ExposureScript(camera, size, replies, |calls|), stop)
    ensures stop == None ==> file == FrameFile(name, width, height, ReplyAt(replies, |calls'| - 1).frame, size, unwritable)
  {
    var frame;
    calls', stop, frame := Expose(replies, calls, camera, size);
    file := File(name, None);
    if stop != None {
      return;
    }
    forall k | 0 <= k < buffer.Length {
      buffer[k] := if k < |frame| then frame[k] else 0;
    }
    assert buffer[..] == FrameBuffer(frame, size);
    var _, written := SaveRgb24ToPpm(width, height, buffer, name !in unwritable);
    file := File(name, written);
  }

  /**
   * One pass of the inner frame loop: frame i, after frames 0 … i - 1 went
   * through and left their files; a stop within it is a stop within all
   * number frames, after exactly i of them.
   */
  method NextFrame(replies: seq<Reply>, c0: seq<Call>, calls: seq<Call>, camera: int, size: nat, buffer: array<byte>,
                   width: nat, height: nat, prefix: string, i: nat, number: int, unwritable: set<string>, files: seq<File>)
    returns (calls': seq<Call>, stop: Option<Exit>, files': seq<File>)
    requires buffer.Length == size && 3 * PixelCount(width, height) <= size && i < number
    requires Ran(replies, c0, calls, Exposures(camera, size, replies, |c0|, i), None)
    requires files == ExposureFiles(prefix, width, height, camera, size, replies, unwritable, |c0|, i)
    modifies buffer
    ensures stop == None ==> Ran(replies, c0, calls', Exposures(camera, size, replies, |c0|, i + 1), None)
    ensures stop == None ==> files' == ExposureFiles(prefix, width, height, camera, size, replies, unwritable, |c0|, i + 1)
    ensures stop != None ==> Ran(replies, c0, calls', Exposures(camera, size, replies, |c0|, number), stop)
    ensures stop != None ==> files' == files && FramesDone(camera, size, replies, |c0|, i, number)
  {
    var file;
    calls', stop, file := TakeExposure(replies, calls, camera, size, buffer, width, height, FrameName(prefix, i), unwritable);
    if stop != None {
      files' := files;
      FrameStopped(replies, c0, calls, calls', camera, size, i, number, stop.value);
      ExposuresStopped(replies, c0, calls', camera, size, i, number, stop.value);
    } else {
      FrameKept(prefix, width, height, camera, size, replies, unwritable, c0, calls, calls', i, files, file);
      files' := files + [file];
    }
  }

  /** Frame i went through after frames 0 … i - 1 did: frames 0 … i went through, ending with its fetch. */
  lemma FrameDone(replies: seq<Reply>, c0: seq<Call>, c1: seq<Call>, c2: seq<Call>, camera: int, size: nat, i: nat)
    requires Ran(replies, c0, c1, Exposures(camera, size, replies, |c0|, i), None)
    requires Ran(replies, c1, c2, ExposureScript(camera, size, replies, |c1|), None)
    ensures Ran(replies, c0, c2, Exposures(camera, size, replies, |c0|, i + 1), None)
    ensures |c2| == |c0| + |Exposures(camera, size, replies, |c0|, i + 1)|
  {
    ExposuresNext(camera, size, replies, |c0|, i);
    RanThen(replies, c0, c1, c2, Exposures(camera, size, replies, |c0|, i), ExposureScript(camera, size, replies, |c1|), None);
  }

  /** Frame i went through after frames 0 … i - 1 did: its file follows theirs. */
  lemma FrameKept(prefix: string, width: nat, height: nat, camera: int, size: nat, replies: seq<Reply>, unwritable: set<string>,
                  c0: seq<Call>, c1: seq<Call>, c2: seq<Call>, i: nat, files: seq<File>, file: File)
    requires Ran(replies, c0, c1, Exposures(camera, size, replies, |c0|, i), None)
    requires Ran(replies, c1, c2, ExposureScript(camera, size, replies, |c1|), None)
    requires files == ExposureFiles(prefix, width, height, camera, size, replies, unwritable, |c0|, i)
    requires file == FrameFile(FrameName(prefix, i), width, height, ReplyAt(replies, |c2| - 1).frame, size, unwritable)
    ensures Ran(replies, c0, c2, Exposures(camera, size, replies, |c0|, i + 1), None)
    ensures files + [file] == ExposureFiles(prefix, width, height, camera, size, replies, unwritable, |c0|, i + 1)
  {
    FrameDone(replies, c0, c1, c2, camera, size, i);
    var end := |c2| - 1;
    assert end == |c0| + |Exposures(camera, size, replies, |c0|, i + 1)| - 1;
    FilesNext(prefix, width, height, camera, size, replies, unwritable, |c0|, i, end);
  }

  /** Frame i stopped after frames 0 … i - 1 went through: the run stopped within frames 0 … i. */
  lemma FrameStopped(replies: seq<Reply>, c0: seq<Call>, c1: seq<Call>, c2: seq<Call>, camera: int, size: nat,
                     i: nat, number: int, stop: Exit)
    requires i < number
    requires Ran(replies, c0, c1, Exposures(camera, size, replies, |c0|, i), None)
    requires Ran(replies, c1, c2, ExposureScript(camera, size, replies, |c1|), Some(stop))
    ensures Ran(replies, c0, c2, Exposures(camera, size, replies, |c0|, i + 1), Some(stop))
    ensures FramesDone(camera, size, replies, |c0|, i, number)
  {
    ExposuresNext(camera, size, replies, |c0|, i);
    RanThen(replies, c0, c1, c2, Exposures(camera, size, replies, |c0|, i), ExposureScript(camera, size, replies, |c1|), Some(stop));
  }

  /** One more frame: its calls follow those of the frames before it. */
  lemma ExposuresNext(camera: int, size: nat, replies: seq<Reply>, at: nat, i: nat)
    ensures Exposures(camera, size, replies, at, i + 1)
      == Exposures(camera, size, replies, at, i)
         + ExposureScript(camera, size, replies, at + |Exposures(camera, size, replies, at, i)|)
  {
  }

  /** One more frame, one more fetch position. */
  lemma EndsNext(camera: int, size: nat, replies: seq<Reply>, at: nat, i: nat)
    ensures FrameEnds(camera, size, replies, at, i + 1)
      == FrameEnds(camera, size, replies, at, i) + [at + |Exposures(camera, size, replies, at, i + 1)| - 1]
  {
    var a := FrameEnds(camera, size, replies, at, i + 1);
    var b := FrameEnds(camera, size, replies, at, i) + [at + |Exposures(camera, size, replies, at, i + 1)| - 1];
    forall j | 0 <= j < i + 1
      ensures a[j] == b[j]
    {
      if j < i {
        assert b[j] == FrameEnds(camera, size, replies, at, i)[j];
      }
    }
  }

  /** One more fetched image, one more file. */
  lemma FilesAtSnoc(prefix: string, width: nat, height: nat, size: nat, replies: seq<Reply>,
                    unwritable: set<string>, ends: seq<int>, end: int)
    ensures FilesAt(prefix, width, height, size, replies, unwritable, ends + [end])
      == FilesAt(prefix, width, height, size, replies, unwritable, ends)
         + [FrameFile(FrameName(prefix, |ends|), width, height, ReplyAt(replies, end).frame, size, unwritable)]
  {
    var a := FilesAt(prefix, width, height, size, replies, unwritable, ends + [end]);
    var b := FilesAt(prefix, width, height, size, replies, unwritable, ends)
      + [FrameFile(FrameName(prefix, |ends|), width, height, ReplyAt(replies, end).frame, size, unwritable)];
    forall j | 0 <= j < |ends| + 1
      ensures a[j] == b[j]
    {
      if j < |ends| {
        assert (ends + [end])[j] == ends[j];
        assert b[j] == FilesAt(prefix, width, height, size, replies, unwritable, ends)[j];
      }
    }
  }

  /** Frame i's file, its image fetched at position end, follows those of the frames before it. */
  lemma FilesNext(prefix: string, width: nat, height: nat, camera: int, size: nat, replies: seq<Reply>,
                  unwritable: set<string>, at: nat, i: nat, end: int)
    requires end == at + |Exposures(camera, size, replies, at, i + 1)| - 1
    ensures ExposureFiles(prefix, width, height, camera, size, replies, unwritable, at, i + 1)
      == ExposureFiles(prefix, width, height, camera, size, replies, unwritable, at, i)
         + [FrameFile(FrameName(prefix, i), width, height, ReplyAt(replies, end).frame, size, unwritable)]
  {
    EndsNext(camera, size, replies, at, i);
    FilesAtSnoc(prefix, width, height, size, replies, unwritable, FrameEnds(camera, size, replies, at, i), end);
  }

  /** The calls of the first k frames begin the calls of the first m. */
  lemma {:induction false} ExposuresPrefix(camera: int, size: nat, replies: seq<Reply>, at: nat, k: int, m: int)
    requires k <= m
    ensures |Exposures(camera, size, replies, at, k)| <= |Exposures(camera, size, replies, at, m)|
    ensures Exposures(camera, size, replies, at, m)
      == Exposures(camera, size, replies, at, k) + Exposures(camera, size, replies, at, m)[|Exposures(camera, size, replies, at, k)|..]
    decreases m - k
  {
    if k < m {
      ExposuresPrefix(camera, size, replies, at, k, m - 1);
      if m - 1 > 0 {
        var a := Exposures(camera, size, replies, at, k);
        var b := Exposures(camera, size, replies, at, m - 1);
        var c := Exposures(camera, size, replies, at, m);
        assert c == b + ExposureScript(camera, size, replies, at + |b|);
        assert c[..|a|] == b[..|a|];
      }
    }
  }

  /** Once a run stopped within the first k frames, it stops within the first m >= k of them too. */
  lemma ExposuresStopPersists(camera: int, size: nat, replies: seq<Reply>, at: nat, k: int, m: int)
    requires k <= m && Run(replies, at, Exposures(camera, size, replies, at, k)).stop != None
    ensures Run(replies, at, Exposures(camera, size, replies, at, m)).stop != None
  {
    var first := Exposures(camera, size, replies, at, k);
    ExposuresPrefix(camera, size, replies, at, k, m);
    RunThen(replies, at, first, Exposures(camera, size, replies, at, m)[|first|..]);
  }

  /** A run where k frames went through and frame k stopped lets no more than k through. */
  lemma FramesDoneAtMost(camera: int, size: nat, replies: seq<Reply>, at: nat, k: int, m: int, number: int)
    requires FramesDone(camera, size, replies, at, k, number) && FramesDone(camera, size, replies, at, m, number)
    ensures m <= k
  {
    if k < m {
      ExposuresStopPersists(camera, size, replies, at, k + 1, m);
    }
  }

  /** The run decides how many frames went through: FramesDone holds of one count only. */
  lemma FramesDoneUnique(camera: int, size: nat, replies: seq<Reply>, at: nat, k: int, m: int, number: int)
    requires FramesDone(camera, size, replies, at, k, number) && FramesDone(camera, size, replies, at, m, number)
    ensures k == m
  {
    FramesDoneAtMost(camera, size, replies, at, k, m, number);
    FramesDoneAtMost(camera, size, replies, at, m, k, number);
  }

  /** A run that got through all number frames: every frame went through. */
  lemma FramesAllDone(replies: seq<Reply>, c0: seq<Call>, c1: seq<Call>, camera: int, size: nat, k: int, number: int)
    requires k == (if number > 0 then number else 0)
    requires Ran(replies, c0, c1, Exposures(camera, size, replies, |c0|, k), None)
    ensures FramesDone(camera, size, replies, |c0|, k, number)
    ensures Ran(replies, c0, c1, Exposures(camera, size, replies, |c0|, number), None)
  {
    assert Exposures(camera, size, replies, |c0|, number) == Exposures(camera, size, replies, |c0|, k);
  }

  /** A run that stopped within frame i stopped in the same place within all number frames. */
  lemma ExposuresStopped(replies: seq<Reply>, c0: seq<Call>, c1: seq<Call>, camera: int, size: nat, i: nat, number: int, stop: Exit)
    requires i < number
    requires Ran(replies, c0, c1, Exposures(camera, size, replies, |c0|, i + 1), Some(stop))
    ensures Ran(replies, c0, c1, Exposures(camera, size, replies, |c0|, number), Some(stop))
  {
    var upTo := Exposures(camera, size, replies, |c0|, i + 1);
    ExposuresPrefix(camera, size, replies, |c0|, i + 1, number);
    RanStopped(replies, c0, c1, upTo, Exposures(camera, size, replies, |c0|, number)[|upTo|..], stop);
  }

  /**
   * The inner frame loop (picapture.c:172-195): frames 0 … number - 1, each
   * into the file named by its index.  It runs on the loop variable i it
   * shares with the outer loop, and hands back the value it leaves there.
   */
  method ExposeFrames(replies: seq<Reply>, calls: seq<Call>, camera: int, size: nat, buffer: array<byte>,
                      width: nat, height: nat, prefix: string, number: int, unwritable: set<string>)
    returns (calls': seq<Call>, stop: Option<Exit>, files: seq<File>, i: int)
    requires buffer.Length == size && 3 * PixelCount(width, height) <= size
    modifies buffer
    ensures Ran(replies, calls, calls', Exposures(camera, size, replies, |calls|, number), stop)
    ensures files == ExposureFiles(prefix, width, height, camera, size, replies, unwritable, |calls|, |files|)
    ensures |files| <= if number > 0 then number else 0
    ensures 0 <= i && (stop == None ==> i == |files| == if number > 0 then number else 0)
    ensures FramesDone(camera, size, replies, |calls|, |files|, number)
  {
    files := [];
    calls' := calls;
    stop := None;
    RanNothing(replies, calls);
    i := 0;
    while i < number
      invariant 0 <= i && (i <= number || i == 0)
      invariant stop == None && Ran(replies, calls, calls', Exposures(camera, size, replies, |calls|, i), None)
      invariant files == ExposureFiles(prefix, width, height, camera, size, replies, unwritable, |calls|, i)
      invariant |files| == i
    {
      calls', stop, files := NextFrame(replies, calls, calls', camera, size, buffer, width, height, prefix, i, number, unwritable, files);
      if stop != None {
        return;
      }
      i := i + 1;
    }
    FramesAllDone(replies, calls, calls', camera, size, i, number);
  }

  /** The RGB24 buffer capture allocates: one MaxWidth * MaxHeight frame, three bytes a pixel. */
  function FrameSize(info: CameraInfo): (size: nat)
    ensures 3 * PixelCount(info.maxWidth, info.maxHeight) <= size
  {
    RgbBufferFits(info.maxWidth, info.maxHeight);
    BufferSize(info.maxWidth, info.maxHeight, Rgb24).value
  }

  /** The calls that prepare the camera: its property, open and init. */
  function Setup(camera: int): seq<Call> {
    [GetCameraProperty(camera), OpenCamera(camera), InitCamera(camera)]
  }

  /**
   * The frame loops' calls, the first at position at: none for number < 1;
   * otherwise one pass of the outer loop, full-frame RGB24 and the exposure,
   * then the number frames of the inner loop.
   */
  function FramesScript(camera: int, info: CameraInfo, exposure: int, number: int, replies: seq<Reply>, at: nat): seq<Call> {
    if number < 1 then []
    else FramesHead(camera, info, exposure) + Exposures(camera, FrameSize(info), replies, at + 2, number)
  }

  /** The two calls before the inner loop: full-frame RGB24, then the exposure. */
  function FramesHead(camera: int, info: CameraInfo, exposure: int): seq<Call> {
    [SetROIFormat(camera, info.maxWidth, info.maxHeight, 1, Rgb24), SetControlValue(camera, Exposure, exposure, true)]
  }

  /**
   * Exactly k frames of the frame loops whose first call is at position at
   * went through: none when there are no frames or the two calls before
   * them stopped; otherwise as many as the inner loop got through.
   */
  predicate FramesFilesDone(camera: int, info: CameraInfo, exposure: int, number: int, replies: seq<Reply>, at: nat, k: int) {
    if number >= 1 && Run(replies, at, FramesHead(camera, info, exposure)).stop == None
    then FramesDone(camera, FrameSize(info), replies, at + 2, k, number)
    else k == 0
  }

  /** The files of the first k frames of the frame loops whose first call is at position at. */
  function FramesFiles(prefix: string, info: CameraInfo, camera: int, replies: seq<Reply>, unwritable: set<string>,
                       at: nat, k: nat): seq<File>
  {
    ExposureFiles(prefix, info.maxWidth, info.maxHeight, camera, FrameSize(info), replies, unwritable, at + 2, k)
  }

  /**
   * The body of the outer frame loop (picapture.c:122-203): full-frame RGB24,
   * the exposure, the buffer sized for the image type, then the inner loop,
   * which hands back the shared i it leaves at number.
   */
  method FramesPass(replies: seq<Reply>, calls: seq<Call>, camera: int, info: CameraInfo, exposure: int,
                    prefix: string, number: int, unwritable: set<string>)
    returns (calls': seq<Call>, stop: Option<Exit>, files: seq<File>, i: int)
    requires number >= 1
    ensures Ran(replies, calls, calls', FramesScript(camera, info, exposure, number, replies, |calls|), stop)
    ensures files == FramesFiles(prefix, info, camera, replies, unwritable, |calls|, |files|)
    ensures |files| <= number
    ensures 0 <= i && (stop == None ==> i == |files| == number)
    ensures FramesFilesDone(camera, info, exposure, number, replies, |calls|, |files|)
  {
    ghost var frames := Exposures(camera, FrameSize(info), replies, |calls| + 2, number);
    var imgType := Rgb24;
    var roi := SetROIFormat(camera, info.maxWidth, info.maxHeight, 1, imgType);
    var control := SetControlValue(camera, Exposure, exposure, true);
    files := [];
    i := 0;
    RanNothing(replies, calls);
    var c1, s1, _ := AsiCall(replies, calls, roi);
    Step(replies, calls, calls, c1, [], roi, [control] + frames, s1);
    if s1 != None {
      assert [] + [roi] + ([control] + frames) == [roi, control] + frames;
      RanStopped(replies, calls, c1, [roi], [control], s1.value);
      assert [roi] + [control] == FramesHead(camera, info, exposure);
      return c1, s1, files, i;
    }
    var c2, s2, _ := AsiCall(replies, c1, control);
    Step(replies, calls, c1, c2, [roi], control, frames, s2);
    RanThen(replies, calls, c1, c2, [roi], [control], s2);
    assert [roi] + [control] == FramesHead(camera, info, exposure);
    if s2 != None {
      assert [roi] + [control] + frames == [roi, control] + frames;
      return c2, s2, files, i;
    }
    var size := BufferSize(info.maxWidth, info.maxHeight, imgType).value;
    RgbBufferFits(info.maxWidth, info.maxHeight);
    var buffer := new byte[size];
    var c3, s3;
    c3, s3, files, i := ExposeFrames(replies, c2, camera, size, buffer, info.maxWidth, info.maxHeight, prefix, number, unwritable);
    RanThen(replies, calls, c2, c3, [roi, control], frames, s3);
    return c3, s3, files, i;
  }

  /**
   * The outer frame loop (picapture.c:122): its body runs at most once, since
   * the inner loop leaves the shared i at number and the outer increment
   * then takes it past number.
   */
  method CaptureFrames(replies: seq<Reply>, calls: seq<Call>, camera: int, info: CameraInfo, exposure: int,
                       prefix: string, number: int, unwritable: set<string>)
    returns (calls': seq<Call>, stop: Option<Exit>, files: seq<File>)
    ensures Ran(replies, calls, calls', FramesScript(camera, info, exposure, number, replies, |calls|), stop)
    ensures files == FramesFiles(prefix, info, camera, replies, unwritable, |calls|, |files|)
    ensures |files| <= if number > 0 then number else 0
    ensures stop == None ==> |files| == if number > 0 then number else 0
    ensures FramesFilesDone(camera, info, exposure, number, replies, |calls|, |files|)
  {
    calls' := calls;
    stop := None;
    files := [];
    RanNothing(replies, calls);
    var i := 0;
    while i < number && stop == None
      invariant i == 0 ==> calls' == calls && stop == None && files == []
      invariant i != 0 ==> number >= 1 && |files| <= number
      invariant i != 0 ==> Ran(replies, calls, calls', FramesScript(camera, info, exposure, number, replies, |calls|), stop)
      invariant i != 0 ==> files == FramesFiles(prefix, info, camera, replies, unwritable, |calls|, |files|)
      invariant i != 0 ==> FramesFilesDone(camera, info, exposure, number, replies, |calls|, |files|)
      invariant i != 0 && stop == None ==> i == number + 1 && |files| == number
      decreases number - i
    {
      calls', stop, files, i := FramesPass(replies, calls, camera, info, exposure, prefix, number, unwritable);
      i := i + 1;
    }
  }

  /** Every call capture makes once the camera index passed its checks, the first at position at. */
  function CaptureScript(req: Request, replies: seq<Reply>, at: nat): seq<Call> {
    Setup(req.camera)
    + FramesScript(req.camera, ReplyAt(replies, at).info, req.exposure, req.number, replies, at + 3)
    + [CloseCamera(req.camera)]
  }

  /** The files of the first k frames of a capture whose first call after the count is at position at. */
  function CaptureFiles(req: Request, replies: seq<Reply>, unwritable: set<string>, at: nat, k: nat): seq<File> {
    FramesFiles(req.prefix, ReplyAt(replies, at).info, req.camera, replies, unwritable, at + 3, k)
  }

  /**
   * Exactly k frames of a capture whose first call after the count is at
   * position at went through: none when preparing the camera stopped,
   * otherwise as many as the frame loops got through.
   */
  predicate CaptureFilesDone(req: Request, replies: seq<Reply>, at: nat, k: int) {
    if Run(replies, at, Setup(req.camera)).stop == None
    then FramesFilesDone(req.camera, ReplyAt(replies, at).info, req.exposure, req.number, replies, at + 3, k)
    else k == 0
  }

  /** The camera's property, then open and init, each through ASI_CALL (picapture.c:104-106). */
  method OpenForCapture(replies: seq<Reply>, calls: seq<Call>, camera: int)
    returns (calls': seq<Call>, stop: Option<Exit>, info: CameraInfo)
    ensures Ran(replies, calls, calls', Setup(camera), stop)
    ensures stop == None ==> info == replies[|calls|].info
  {
    var p := Setup(camera);
    RanNothing(replies, calls);
    info := NoInfo;
    var c1, s1, property := AsiCall(replies, calls, p[0]);
    Step(replies, calls, calls, c1, [], p[0], p[1..], s1);
    if s1 != None {
      return c1, s1, info;
    }
    info := property.info;
    var c2, s2, _ := AsiCall(replies, c1, p[1]);
    Step(replies, calls, c1, c2, p[..1], p[1], p[2..], s2);
    if s2 != None {
      assert p[..1] + [p[1]] + p[2..] == p;
      return c2, s2, info;
    }
    assert p[..1] + [p[1]] == p[..2];
    var c3, s3, _ := AsiCall(replies, c2, p[2]);
    Step(replies, calls, c2, c3, p[..2], p[2], [], s3);
    assert p[..2] + [p[2]] + [] == p;
    return c3, s3, info;
  }

  /** process_control (picapture.c:21-27): it only reports the option, and always succeeds. */
  method ProcessControl(camera: int, option: string) returns (rc: int)
    ensures rc == EXIT_SUCCESS
  {
    rc := EXIT_SUCCESS;
  }

  /**
   * The control loop (picapture.c:108-120): the tokens after the fourth go to
   * process_control one by one, in order, until strtok finds no more.
   */
  method ProcessControls(tok: Tokenizer, camera: int) returns (controls: seq<string>)
    requires tok.Valid()
    modifies tok
    ensures tok.Valid() && tok.Remaining() == []
    ensures controls == old(tok.Remaining())
  {
    controls := [];
    var option := tok.Next();
    while option != None
      invariant tok.Valid()
      invariant option == None ==> tok.Remaining() == []
      invariant controls + (if option == None then [] else [option.value]) + tok.Remaining() == old(tok.Remaining())
      decreases |tok.Remaining()| + (if option == None then 0 else 1)
    {
      var rc := ProcessControl(camera, option.value);
      controls := controls + [option.value];
      option := tok.Next();
    }
  }

  /**
   * The four leading strtok calls and their conversions (picapture.c:69-84),
   * leaving strtok's state at the fifth token.
   */
  method ParseRequest(options: string) returns (tok: Tokenizer, req: Request)
    requires CaptureOptions(options)
    ensures fresh(tok) && tok.Valid() && tok.Remaining() == Tokens(options)[4..]
    ensures req == RequestOf(options)
  {
    ghost var t := Tokens(options);
    tok := new Tokenizer(options);
    var option := tok.Next();
    var camera := IntOfLong(Strtol(option.value));
    option := tok.Next();
    var prefix := Truncate(option.value, PrefixCapAsWritten);
    option := tok.Next();
    var number := IntOfLong(Strtol(option.value));
    option := tok.Next();
    var exposure := Strtol(option.value);
    assert t[1..][1..][1..][1..] == t[4..];
    req := Request(camera, prefix, number, exposure);
  }

  /**
   * Everything after the camera index checks (picapture.c:104-204): prepare
   * the camera, hand the remaining options to process_control, take the
   * frames and close the camera, stopping at the first failing call.
   */
  method RunCapture(replies: seq<Reply>, calls: seq<Call>, req: Request, tok: Tokenizer, unwritable: set<string>)
    returns (calls': seq<Call>, stop: Option<Exit>, controls: seq<string>, files: seq<File>)
    requires tok.Valid()
    modifies tok
    ensures Ran(replies, calls, calls', CaptureScript(req, replies, |calls|), stop)
    ensures files == CaptureFiles(req, replies, unwritable, |calls|, |files|)
    ensures |files| <= if req.number > 0 then req.number else 0
    ensures stop == None ==> |files| == if req.number > 0 then req.number else 0
    ensures CaptureFilesDone(req, replies, |calls|, |files|)
    ensures controls == if Run(replies, |calls|, Setup(req.camera)).stop == None then old(tok.Remaining()) else []
    ensures stop == None ==> controls == old(tok.Remaining())
  {
    ghost var setup := Setup(req.camera);
    ghost var frames := FramesScript(req.camera, ReplyAt(replies, |calls|).info, req.exposure, req.number, replies, |calls| + 3);
    ghost var close := [CloseCamera(req.camera)];
    controls := [];
    files := [];
    var c3, s3, info := OpenForCapture(replies, calls, req.camera);
    if s3 != None {
      RanStopped(replies, calls, c3, setup, frames + close, s3.value);
      assert setup + (frames + close) == setup + frames + close;
      return c3, s3, controls, files;
    }
    controls := ProcessControls(tok, req.camera);
    var c4, s4;
    c4, s4, files := CaptureFrames(replies, c3, req.camera, info, req.exposure, req.prefix, req.number, unwritable);
    RanThen(replies, calls, c3, c4, setup, frames, s4);
    if s4 != None {
      RanStopped(replies, calls, c4, setup + frames, close, s4.value);
      return c4, s4, controls, files;
    }
    var c5, s5, _ := AsiCall(replies, c4, CloseCamera(req.camera));
    RanThen(replies, calls, c4, c5, setup + frames, close, s5);
    return c5, s5, controls, files;
  }

  /**
   * The camera count and the index checks (picapture.c:86-102): the count is
   * always asked for; zero cameras, an unset camera (-1) or an index past the
   * count fail without any further call.
   */
  method AdmitCamera(replies: seq<Reply>, calls: seq<Call>, camera: int) returns (calls': seq<Call>, stop: Option<Exit>)
    ensures |calls| >= |replies| ==> calls' == calls && stop == Some(OutOfScript)
    ensures |calls| < |replies| ==>
      calls' == calls + [GetNumOfConnectedCameras]
      && (stop == None <==> !Rejected(replies[|calls|].count, camera))
      && (stop != None ==> stop == Some(Exited(EXIT_FAILURE)))
  {
    var numCameras;
    calls', stop, numCameras := CountCameras(replies, calls);
    if stop != None {
      return;
    }
    if numCameras == 0 {
      return calls', Some(Exited(EXIT_FAILURE));
    }
    if camera == -1 {
      return calls', Some(Exited(EXIT_FAILURE));
    }
    if numCameras < camera + 1 {
      return calls', Some(Exited(EXIT_FAILURE));
    }
  }

  /**
   * capture (picapture.c:86-207) once its four leading fields are read into
   * req, strtok's state left at the fifth token.
   */
  method CaptureRequest(req: Request, tok: Tokenizer, replies: seq<Reply>, calls: seq<Call>, unwritable: set<string>)
    returns (calls': seq<Call>, exit: Exit, controls: seq<string>, files: seq<File>)
    requires tok.Valid()
    modifies tok
    ensures |calls| >= |replies| ==> exit == OutOfScript && calls' == calls && controls == [] && files == []
    ensures |calls| < |replies| && Rejected(replies[|calls|].count, req.camera) ==>
      exit == Exited(EXIT_FAILURE) && calls' == calls + [GetNumOfConnectedCameras] && controls == [] && files == []
    ensures |calls| < |replies| && !Rejected(replies[|calls|].count, req.camera) ==>
      Ran(replies, calls + [GetNumOfConnectedCameras], calls', CaptureScript(req, replies, |calls| + 1), StopOf(exit))
      && files == CaptureFiles(req, replies, unwritable, |calls| + 1, |files|)
      && CaptureFilesDone(req, replies, |calls| + 1, |files|)
      && controls == if Run(replies, |calls| + 1, Setup(req.camera)).stop == None then old(tok.Remaining()) else []
    ensures |files| <= if req.number > 0 then req.number else 0
    ensures exit == Exited(EXIT_SUCCESS) ==>
      |files| == (if req.number > 0 then req.number else 0) && controls == old(tok.Remaining())
  {
    controls := [];
    files := [];
    var c0, s0 := AdmitCamera(replies, calls, req.camera);
    if s0 != None {
      return c0, s0.value, controls, files;
    }
    assert |c0| == |calls| + 1;
    var stop;
    calls', stop, controls, files := RunCapture(replies, c0, req, tok, unwritable);
    exit := if stop == None then Exited(EXIT_SUCCESS) else stop.value;
  }

  /** The calls of a whole capture from position at, the camera count first, and how it stops. */
  function CaptureRun(req: Request, replies: seq<Reply>, at: nat): Trace {
    Counted(replies, at, Rejected(ReplyAt(replies, at).count, req.camera), CaptureScript(req, replies, at + 1))
  }

  /**
   * capture (picapture.c:61-207) on an option string with the four leading
   * fields.  With no reply for the camera count it makes no call; a count of
   * zero, an unset camera (-1) or an index past the count fail right after
   * the count; otherwise it runs the capture, which ends in EXIT_SUCCESS
   * exactly when every call succeeded.
   */
  method Capture(options: string, replies: seq<Reply>, calls: seq<Call>, unwritable: set<string>)
    returns (calls': seq<Call>, exit: Exit, controls: seq<string>, files: seq<File>)
    requires CaptureOptions(options) && NamesFit(RequestOf(options))
    ensures |calls| >= |replies| ==> exit == OutOfScript && calls' == calls && controls == [] && files == []
    ensures |calls| < |replies| && Rejected(replies[|calls|].count, RequestOf(options).camera) ==>
      exit == Exited(EXIT_FAILURE) && calls' == calls + [GetNumOfConnectedCameras] && controls == [] && files == []
    ensures |calls| < |replies| && !Rejected(replies[|calls|].count, RequestOf(options).camera) ==>
      var req := RequestOf(options);
      Ran(replies, calls + [GetNumOfConnectedCameras], calls', CaptureScript(req, replies, |calls| + 1), StopOf(exit))
      && files == CaptureFiles(req, replies, unwritable, |calls| + 1, |files|)
      && CaptureFilesDone(req, replies, |calls| + 1, |files|)
      && controls == if Run(replies, |calls| + 1, Setup(req.camera)).stop == None then Tokens(options)[4..] else []
    ensures |files| <= if RequestOf(options).number > 0 then RequestOf(options).number else 0
    ensures exit == Exited(EXIT_SUCCESS) ==>
      |files| == (if RequestOf(options).number > 0 then RequestOf(options).number else 0)
      && controls == Tokens(options)[4..]
    ensures calls' == calls + CaptureRun(RequestOf(options), replies, |calls|).calls
    ensures StopOf(exit) == CaptureRun(RequestOf(options), replies, |calls|).stop
  {
    var tok, req := ParseRequest(options);
    calls', exit, controls, files := CaptureRequest(req, tok, replies, calls, unwritable);
    if |calls| < |replies| && !Rejected(replies[|calls|].count, req.camera) {
      CountedRan(replies, calls, calls', Rejected(ReplyAt(replies, |calls|).count, req.camera),
                 CaptureScript(req, replies, |calls| + 1), StopOf(exit));
    }
  }

  /** How many exposures a sequence of calls starts. */
  function Starts(s: seq<Call>): (n: nat)
    ensures n <= |s|
  {
    if s == [] then 0 else (if s[0].StartExposure? then 1 else 0) + Starts(s[1..])
  }

  lemma {:induction false} StartsAppend(a: seq<Call>, b: seq<Call>)
    ensures Starts(a + b) == Starts(a) + Starts(b)
    decreases |a|
  {
    if a == [] {
      assert a + b == b;
    } else {
      assert (a + b)[1..] == a[1..] + b;
      StartsAppend(a[1..], b);
    }
  }

  /** The poll only asks for the exposure status: it starts nothing and closes nothing. */
  lemma {:induction false} PollsOnlyPoll(camera: int, replies: seq<Reply>, at: nat)
    ensures Starts(Polls(camera, replies, at)) == 0
    decreases |replies| - at
  {
    var s := Polls(camera, replies, at);
    if |s| > 1 {
      PollsOnlyPoll(camera, replies, at + 1);
      assert s[1..] == Polls(camera, replies, at + 1);
    }
  }

  /** Every frame starts exactly one exposure. */
  lemma ExposureScriptStarts(camera: int, size: nat, replies: seq<Reply>, at: nat)
    ensures Starts(ExposureScript(camera, size, replies, at)) == 1
  {
    var polls := Polls(camera, replies, at + 1);
    PollsOnlyPoll(camera, replies, at + 1);
    StartsAppend([StartExposure(camera, false)], polls);
    StartsAppend([StartExposure(camera, false)] + polls, [StopExposure(camera), GetDataAfterExp(camera, size)]);
  }

  /** The calls of k frames start exactly k exposures (none for k <= 0). */
  lemma {:induction false} ExposuresStarts(camera: int, size: nat, replies: seq<Reply>, at: nat, k: int)
    ensures Starts(Exposures(camera, size, replies, at, k)) == if k > 0 then k else 0
    decreases k
  {
    if k > 0 {
      var before := Exposures(camera, size, replies, at, k - 1);
      ExposuresStarts(camera, size, replies, at, k - 1);
      ExposureScriptStarts(camera, size, replies, at + |before|);
      StartsAppend(before, ExposureScript(camera, size, replies, at + |before|));
    }
  }

  /** The frame loops start exactly number exposures, none when number < 1. */
  lemma FramesStarts(camera: int, info: CameraInfo, exposure: int, number: int, replies: seq<Reply>, at: nat)
    ensures Starts(FramesScript(camera, info, exposure, number, replies, at)) == if number > 0 then number else 0
  {
    if number >= 1 {
      var ex := Exposures(camera, FrameSize(info), replies, at + 2, number);
      ExposuresStarts(camera, FrameSize(info), replies, at + 2, number);
      StartsAppend([SetROIFormat(camera, info.maxWidth, info.maxHeight, 1, Rgb24),
                    SetControlValue(camera, Exposure, exposure, true)], ex);
    }
  }

  /** A capture that goes through starts exactly number exposures, none when number < 1. */
  lemma CaptureStarts(req: Request, replies: seq<Reply>, at: nat)
    ensures Starts(CaptureScript(req, replies, at)) == if req.number > 0 then req.number else 0
  {
    var frames := FramesScript(req.camera, ReplyAt(replies, at).info, req.exposure, req.number, replies, at + 3);
    FramesStarts(req.camera, ReplyAt(replies, at).info, req.exposure, req.number, replies, at + 3);
    var setup := Setup(req.camera);
    assert Starts(setup[2..]) == 0;
    assert Starts([CloseCamera(req.camera)]) == 0;
    StartsAppend(setup, frames);
    StartsAppend(setup + frames, [CloseCamera(req.camera)]);
  }

  /** Frame j's file is named by prefix and j, so the k files have k distinct names. */
  lemma ExposureFilesNamed(prefix: string, width: nat, height: nat, camera: int, size: nat, replies: seq<Reply>,
                           unwritable: set<string>, at: nat, k: nat)
    ensures |ExposureFiles(prefix, width, height, camera, size, replies, unwritable, at, k)| == k
    ensures forall j :: 0 <= j < k ==>
      ExposureFiles(prefix, width, height, camera, size, replies, unwritable, at, k)[j].name == FrameName(prefix, j)
    ensures forall j, j' :: 0 <= j < j' < k ==>
      ExposureFiles(prefix, width, height, camera, size, replies, unwritable, at, k)[j].name
      != ExposureFiles(prefix, width, height, camera, size, replies, unwritable, at, k)[j'].name
  {
    var files := ExposureFiles(prefix, width, height, camera, size, replies, unwritable, at, k);
    forall j, j' | 0 <= j < j' < k
      ensures files[j].name != files[j'].name
    {
      if files[j].name == files[j'].name {
        FrameNameInjective(prefix, j, j');
      }
    }
  }

  /** No frame closes the camera. */
  lemma {:induction false} ExposuresNoClose(camera: int, size: nat, replies: seq<Reply>, at: nat, k: int)
    ensures forall c :: c in Exposures(camera, size, replies, at, k) ==> !c.CloseCamera?
    decreases k
  {
    if k > 0 {
      var before := Exposures(camera, size, replies, at, k - 1);
      ExposuresNoClose(camera, size, replies, at, k - 1);
      ExposureScriptNoClose(camera, size, replies, at + |before|);
      var frame := ExposureScript(camera, size, replies, at + |before|);
      assert Exposures(camera, size, replies, at, k) == before + frame;
      assert forall c :: c in before + frame ==> c in before || c in frame;
    }
  }

  /** A frame's calls do not close the camera. */
  lemma ExposureScriptNoClose(camera: int, size: nat, replies: seq<Reply>, at: nat)
    ensures forall c :: c in ExposureScript(camera, size, replies, at) ==> !c.CloseCamera?
  {
    var polls := Polls(camera, replies, at + 1);
    assert forall c :: c in polls ==> c == GetExpStatus(camera);
  }

  /**
   * The shape of a capture: property, open and init first, the close as the
   * very last call and nowhere else; with number < 1 nothing in between.
   */
  lemma CaptureScriptShape(req: Request, replies: seq<Reply>, at: nat)
    ensures var s := CaptureScript(req, replies, at);
      |s| >= 4 && s[..3] == Setup(req.camera) && s[|s| - 1] == CloseCamera(req.camera)
      && forall k :: 0 <= k < |s| - 1 ==> !s[k].CloseCamera?
    ensures req.number < 1 ==> CaptureScript(req, replies, at) == Setup(req.camera) + [CloseCamera(req.camera)]
  {
    var info := ReplyAt(replies, at).info;
    var frames := FramesScript(req.camera, info, req.exposure, req.number, replies, at + 3);
    var s := CaptureScript(req, replies, at);
    if req.number >= 1 {
      ExposuresNoClose(req.camera, FrameSize(info), replies, at + 5, req.number);
    }
    assert forall c :: c in frames ==> !c.CloseCamera?;
    forall k | 0 <= k < |s| - 1
      ensures !s[k].CloseCamera?
    {
      if k >= 3 {
        assert s[k] == frames[k - 3];
      }
    }
  }

  /**
   * A run of a script that closes the camera only at its end, stopped by a
   * failing call: every call before that one went through, and none of them
   * was the close.
   */
  lemma FailedRunLeavesOpen(replies: seq<Reply>, calls: seq<Call>, calls': seq<Call>, script: seq<Call>)
    requires |calls| <= |replies|
    requires forall k :: 0 <= k < |script| - 1 ==> !script[k].CloseCamera?
    requires Ran(replies, calls, calls', script, Some(Exited(EXIT_FAILURE)))
    ensures |calls| < |calls'| <= |replies| && !Ok(calls'[|calls'| - 1], replies[|calls'| - 1])
    ensures forall k :: |calls| <= k < |calls'| - 1 ==> Ok(calls'[k], replies[k]) && !calls'[k].CloseCamera?
  {
    RunIssued(replies, calls, script);
    forall k | |calls| <= k < |calls'| - 1
      ensures Ok(calls'[k], replies[k]) && !calls'[k].CloseCamera?
    {
      assert calls'[k] == script[k - |calls|];
    }
  }

  /**
   * A capture that fails stops at the failing call: every call before it
   * went through, and the camera was closed only if the close itself failed.
   */
  lemma CaptureLeftOpen(req: Request, replies: seq<Reply>, calls: seq<Call>, calls': seq<Call>)
    requires |calls| <= |replies|
    requires Ran(replies, calls, calls', CaptureScript(req, replies, |calls|), Some(Exited(EXIT_FAILURE)))
    ensures |calls| < |calls'| <= |replies| && !Ok(calls'[|calls'| - 1], replies[|calls'| - 1])
    ensures forall k :: |calls| <= k < |calls'| - 1 ==> Ok(calls'[k], replies[k]) && !calls'[k].CloseCamera?
  {
    CaptureScriptShape(req, replies, |calls|);
    FailedRunLeavesOpen(replies, calls, calls', CaptureScript(req, replies, |calls|));
  }

  /**
   * The file name buffer as written: a prefix field longer than
   * FILENAME_MAX - 10 characters survives strndup(…, FILENAME_MAX - 5) long
   * enough that "%s%05d.ppm" and its NUL overrun char output[FILENAME_MAX].
   */
  lemma FrameNameOverflowAsWritten(field: string)
    requires |field| > FILENAME_MAX - 10
    ensures |FrameName(Truncate(field, PrefixCapAsWritten), 0)| + 1 > FILENAME_MAX
  {
    ZeroPaddedShape(0, 5);
  }

  /** With the corrected cap every frame name of an int index, and its NUL, fits char output[FILENAME_MAX]. */
  lemma FrameNameFits(field: string, k: nat)
    requires k <= INT_MAX
    ensures |FrameName(Truncate(field, PrefixCap), k)| + 1 <= FILENAME_MAX
  {
    assert Pow10(10) == 10_000_000_000 by {
      assert Pow10(1) == 10;
      assert Pow10(3) == 1000;
      assert Pow10(5) == 100_000;
      assert Pow10(7) == 10_000_000;
      assert Pow10(9) == 1_000_000_000;
    }
    DigitCountBound(k, 10);
    ZeroPaddedShape(k, 5);
  }
}
