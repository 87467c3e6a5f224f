/**
 * picapture's other commands and its main: info for one camera
 * (picapture.c:259-312), list (picapture.c:318-341), and the option loop
 * of main (picapture.c:375-403), which runs capture, info and list in the
 * order their options appear.
 */
module Picapture {
  import opened Wrappers
  import opened Platform
  import opened Decimal
  import opened Sdk
  import opened Display
  import opened Describe
  import opened Capture

  /** info's checks: no camera, or an index past the count; unlike capture it lets -1 through. */
  predicate InfoRejected(numCameras: int, camera: int) {
    numCameras == 0 || numCameras < camera + 1
  }

  /** info's camera count and index checks (picapture.c:265-276), which fail without any further call. */
  method AdmitInfo(replies: seq<Reply>, calls: seq<Call>, camera: int) returns (calls': seq<Call>, stop: Option<Exit>)
    ensures |calls| >= |replies| ==> calls' == calls && stop == Some(OutOfScript)
    ensures |calls| < |replies| ==>
      calls' == calls + [GetNumOfConnectedCameras]
      && (stop == None <==> !InfoRejected(replies[|calls|].count, camera))
      && (stop != None ==> stop == Some(Exited(EXIT_FAILURE)))
  {
    var numCameras;
    calls', stop, numCameras := CountCameras(replies, calls);
    if stop != None {
      return;
    }
    if numCameras == 0 {
      return calls', Some(Exited(EXIT_FAILURE));
    }
    if numCameras < camera + 1 {
      return calls', Some(Exited(EXIT_FAILURE));
    }
  }

  /**
   * info (picapture.c:259-312): count the cameras, check the index, then
   * describe the camera as info/info.c does for each of its cameras: list its
   * properties, open, init, query every control, close.
   */
  /** The calls of info for camera from position at, the count first, and how it stops. */
  function InfoRun(camera: int, replies: seq<Reply>, at: nat): Trace {
    Counted(replies, at, InfoRejected(ReplyAt(replies, at).count, camera), DescribeScript(camera, replies, at + 1))
  }

  method Info(replies: seq<Reply>, calls: seq<Call>, camera: int)
    returns (calls': seq<Call>, exit: Exit, listing: seq<string>)
    ensures |calls| >= |replies| ==> exit == OutOfScript && calls' == calls && listing == []
    ensures |calls| < |replies| && InfoRejected(replies[|calls|].count, camera) ==>
      exit == Exited(EXIT_FAILURE) && calls' == calls + [GetNumOfConnectedCameras] && listing == []
    ensures |calls| < |replies| && !InfoRejected(replies[|calls|].count, camera) ==>
      Ran(replies, calls + [GetNumOfConnectedCameras], calls', DescribeScript(camera, replies, |calls| + 1), StopOf(exit))
      && listing == ListingAt(replies, |calls| + 1)
    ensures calls' == calls + InfoRun(camera, replies, |calls|).calls
    ensures StopOf(exit) == InfoRun(camera, replies, |calls|).stop
  {
    listing := [];
    var c0, s0 := AdmitInfo(replies, calls, camera);
    if s0 != None {
      return c0, s0.value, listing;
    }
    assert c0 == calls + [GetNumOfConnectedCameras] && |c0| == |calls| + 1;
    var stop;
    calls', stop, listing := DescribeCamera(replies, c0, camera);
    exit := if stop == None then Exited(EXIT_SUCCESS) else stop.value;
    assert StopOf(exit) == stop;
    CountedRan(replies, calls, calls', InfoRejected(ReplyAt(replies, |calls|).count, camera), DescribeScript(camera, replies, |c0|), stop);
  }

  /** The property calls of list: cameras 0 … n - 1 in index order. */
  function ListScript(n: int): seq<Call> {
    seq(if n > 0 then n else 0, i => GetCameraProperty(i))
  }

  /** printf("%s [index %d]\n", info.Name, info.CameraID) */
  function ListLine(info: CameraInfo): string {
    info.name + " [index " + IntToDecimal(info.cameraId) + "]\n"
  }

  /** The lines list prints for the properties answered at positions at … at + n - 1. */
  function ListLines(replies: seq<Reply>, at: nat, n: nat): seq<string> {
    seq(n, k requires 0 <= k < n => ListLine(ReplyAt(replies, at + k).info))
  }

  /** A list line gives back the camera's name and ID. */
  lemma ListLineRoundTrip(info: CameraInfo)
    ensures var line := ListLine(info);
      |line| >= |info.name| + 10 && line[..|info.name|] == info.name
      && IsDecimal(line[|info.name| + 8..|line| - 2])
      && ParseDecimal(line[|info.name| + 8..|line| - 2]) == info.cameraId
  {
    var line := ListLine(info);
    var id := IntToDecimal(info.cameraId);
    DecimalRoundTrip(info.cameraId);
    assert line == info.name + " [index " + id + "]\n";
    assert line[..|info.name|] == info.name;
    assert line[|info.name| + 8..|line| - 2] == id;
  }

  /** Camera i's property call follows those of cameras 0 … i - 1 and begins the rest. */
  lemma ListScriptSplit(i: nat, n: int)
    requires i < n
    ensures ListScript(i + 1) == ListScript(i) + [GetCameraProperty(i)]
    ensures ListScript(n) == ListScript(i + 1) + ListScript(n)[i + 1..]
  {
    assert ListScript(i + 1) == ListScript(n)[..i + 1];
  }

  /** One more property answered, one more line. */
  lemma ListLinesSnoc(replies: seq<Reply>, at: nat, n: nat)
    ensures ListLines(replies, at, n + 1) == ListLines(replies, at, n) + [ListLine(ReplyAt(replies, at + n).info)]
  {
    var a := ListLines(replies, at, n + 1);
    var b := ListLines(replies, at, n) + [ListLine(ReplyAt(replies, at + n).info)];
    forall k | 0 <= k < n + 1
      ensures a[k] == b[k]
    {
      if k < n {
        assert b[k] == ListLines(replies, at, n)[k];
      }
    }
  }

  /** One pass of list's loop: camera i's property, after those of cameras 0 … i - 1 went through. */
  method NextListed(replies: seq<Reply>, c0: seq<Call>, calls: seq<Call>, i: nat, count: int)
    returns (calls': seq<Call>, stop: Option<Exit>, line: string)
    requires i < count
    requires Ran(replies, c0, calls, ListScript(i), None)
    ensures stop == None ==> Ran(replies, c0, calls', ListScript(i + 1), None)
    ensures stop == None ==> line == ListLine(ReplyAt(replies, |calls|).info)
    ensures stop != None ==> Ran(replies, c0, calls', ListScript(count), stop)
    ensures |calls'| == |calls| + if stop == Some(OutOfScript) then 0 else 1
  {
    ListScriptSplit(i, count);
    var property;
    calls', stop, property := AsiCall(replies, calls, GetCameraProperty(i));
    Step(replies, c0, calls, calls', ListScript(i), GetCameraProperty(i), ListScript(count)[i + 1..], stop);
    line := ListLine(property.info);
  }

  /** list's loop (picapture.c:331-334): the property of cameras 0 … count - 1 in turn, a line for each that succeeds. */
  method ListCameras(replies: seq<Reply>, c0: seq<Call>, count: int) returns (calls': seq<Call>, stop: Option<Exit>, lines: seq<string>)
    ensures Ran(replies, c0, calls', ListScript(count), stop)
    ensures |calls'| == |c0| + |lines| + (if stop == Some(Exited(EXIT_FAILURE)) then 1 else 0)
    ensures lines == ListLines(replies, |c0|, |lines|)
    ensures stop == None ==> |lines| == if count > 0 then count else 0
  {
    lines := [];
    stop := None;
    calls' := c0;
    RanNothing(replies, c0);
    var i := 0;
    while i < count && stop == None
      invariant 0 <= i && (i <= count || i == 0)
      invariant stop == None ==> Ran(replies, c0, calls', ListScript(i), None) && |lines| == i
      invariant stop != None ==> Ran(replies, c0, calls', ListScript(count), stop)
      invariant |calls'| == |c0| + |lines| + (if stop == Some(Exited(EXIT_FAILURE)) then 1 else 0)
      invariant lines == ListLines(replies, |c0|, |lines|)
      decreases count - i, if stop == None then 1 else 0
    {
      var line;
      calls', stop, line := NextListed(replies, c0, calls', i, count);
      if stop == None {
        ListLinesSnoc(replies, |c0|, |lines|);
        lines := lines + [line];
        i := i + 1;
      }
    }
    if stop == None {
      assert ListScript(count) == ListScript(i);
    }
  }

  /**
   * list (picapture.c:318-341): count the cameras, then ask for the property
   * of each in index order and print its line, stopping at the first failing
   * call; one line for each property call that succeeded.
   */
  /** The calls of list from position at, the count first, and how it stops. */
  function ListRun(replies: seq<Reply>, at: nat): Trace {
    Counted(replies, at, ReplyAt(replies, at).count == 0, ListScript(ReplyAt(replies, at).count))
  }

  method List(replies: seq<Reply>, calls: seq<Call>) returns (calls': seq<Call>, exit: Exit, lines: seq<string>)
    ensures |calls| >= |replies| ==> exit == OutOfScript && calls' == calls && lines == []
    ensures |calls| < |replies| && replies[|calls|].count == 0 ==>
      exit == Exited(EXIT_FAILURE) && calls' == calls + [GetNumOfConnectedCameras] && lines == []
    ensures |calls| < |replies| && replies[|calls|].count != 0 ==>
      Ran(replies, calls + [GetNumOfConnectedCameras], calls', ListScript(replies[|calls|].count), StopOf(exit))
      && |calls'| == |calls| + 1 + |lines| + (if exit == Exited(EXIT_FAILURE) then 1 else 0)
    ensures lines == ListLines(replies, |calls| + 1, |lines|)
    ensures exit == Exited(EXIT_SUCCESS) ==> |lines| == if replies[|calls|].count > 0 then replies[|calls|].count else 0
    ensures calls' == calls + ListRun(replies, |calls|).calls
    ensures StopOf(exit) == ListRun(replies, |calls|).stop
  {
    lines := [];
    var c0, s0, numCameras := CountCameras(replies, calls);
    if s0 != None {
      return c0, s0.value, lines;
    }
    if numCameras == 0 {
      return c0, Exited(EXIT_FAILURE), lines;
    }
    var stop;
    calls', stop, lines := ListCameras(replies, c0, numCameras);
    exit := if stop == None then Exited(EXIT_SUCCESS) else stop.value;
    assert StopOf(exit) == stop;
    CountedRan(replies, calls, calls', ReplyAt(replies, |calls|).count == 0, ListScript(numCameras), stop);
  }

  /** main's options, as getopt_long returns them: --capture, --help, --info, --list, or anything else. */
  datatype Command = CaptureCmd(options: string) | HelpCmd | InfoCmd(camera: string) | ListCmd | UnknownCmd

  /**
   * The arguments the commands can read: capture's four leading fields with
   * frame names that fit their buffer, info's camera as an integer.
   */
  predicate WellFormed(cmd: Command) {
    match cmd
    case CaptureCmd(options) => CaptureOptions(options) && NamesFit(RequestOf(options))
    case InfoCmd(camera) => IsDecimal(camera)
    case _ => true
  }

  /** The commands main acts on: all of them, or those up to the first help, whose exit(0) ends the process. */
  function Processed(cmds: seq<Command>): seq<Command>
    decreases |cmds|
  {
    if cmds == [] then []
    else if cmds[0] == HelpCmd then [HelpCmd]
    else [cmds[0]] + Processed(cmds[1..])
  }

  /** main acts on a prefix of its commands: up to and including the first help, or all of them when there is none. */
  lemma {:induction false} ProcessedShape(cmds: seq<Command>)
    ensures Processed(cmds) <= cmds
    ensures HelpCmd in cmds ==>
      var ran := Processed(cmds);
      |ran| >= 1 && ran[|ran| - 1] == HelpCmd && HelpCmd !in ran[..|ran| - 1]
    ensures HelpCmd !in cmds ==> Processed(cmds) == cmds
    decreases |cmds|
  {
    if cmds != [] && cmds[0] != HelpCmd {
      ProcessedShape(cmds[1..]);
      assert cmds == [cmds[0]] + cmds[1..];
      var ran := Processed(cmds);
      var rest := Processed(cmds[1..]);
      if HelpCmd in cmds {
        assert HelpCmd in cmds[1..];
        assert ran[..|ran| - 1] == [cmds[0]] + rest[..|rest| - 1];
      }
    }
  }

  /** The options whose return value main keeps in rc. */
  predicate SetsRc(cmd: Command) {
    cmd.CaptureCmd? || cmd.InfoCmd? || cmd.ListCmd?
  }

  /** rc after the commands ran with the given return values: that of the last command that sets it, 0 before any. */
  function LastRc(cmds: seq<Command>, statuses: seq<int>): int
    requires |cmds| == |statuses|
    decreases |cmds|
  {
    if cmds == [] then 0
    else if SetsRc(cmds[|cmds| - 1]) then statuses[|cmds| - 1]
    else LastRc(cmds[..|cmds| - 1], statuses[..|statuses| - 1])
  }

  /** The position of the last command that sets rc, -1 when none does. */
  function LastSetter(cmds: seq<Command>): (k: int)
    ensures -1 <= k < |cmds|
    ensures k >= 0 ==> SetsRc(cmds[k])
    ensures forall j :: k < j < |cmds| ==> !SetsRc(cmds[j])
    decreases |cmds|
  {
    if cmds == [] then -1
    else if SetsRc(cmds[|cmds| - 1]) then |cmds| - 1
    else
      var k := LastSetter(cmds[..|cmds| - 1]);
      assert forall j :: k < j < |cmds| - 1 ==> cmds[j] == cmds[..|cmds| - 1][j];
      k
  }

  /** rc is the return value of the last command that sets it, and 0 when none does. */
  lemma {:induction false} LastRcIsLast(cmds: seq<Command>, statuses: seq<int>)
    requires |cmds| == |statuses|
    ensures LastRc(cmds, statuses) == if LastSetter(cmds) < 0 then 0 else statuses[LastSetter(cmds)]
    decreases |cmds|
  {
    if cmds != [] && !SetsRc(cmds[|cmds| - 1]) {
      var n := |cmds| - 1;
      LastRcIsLast(cmds[..n], statuses[..n]);
    }
  }

  /**
   * The calls one option makes from position at and how it ends: capture,
   * info and list run; help and unknown options make no call.
   */
  function CommandRun(cmd: Command, replies: seq<Reply>, at: nat): (t: Trace)
    requires WellFormed(cmd)
    ensures t.stop == None || t.stop == Some(OutOfScript) || t.stop == Some(Exited(EXIT_FAILURE))
    ensures !SetsRc(cmd) ==> t == Trace([], None)
  {
    match cmd
    case CaptureCmd(options) => CaptureRun(RequestOf(options), replies, at)
    case InfoCmd(camera) => InfoRun(IntOfLong(Strtol(camera)), replies, at)
    case ListCmd => ListRun(replies, at)
    case _ => Trace([], None)
  }

  /**
   * One option of main's loop (picapture.c:380-397): capture, info and list
   * run and their return value becomes rc; help and unknown options leave rc
   * and the SDK alone.
   */
  method Perform(cmd: Command, replies: seq<Reply>, calls: seq<Call>, unwritable: set<string>, rc: int)
    returns (calls': seq<Call>, exit: Exit, rc': int)
    requires WellFormed(cmd)
    requires rc == EXIT_SUCCESS || rc == EXIT_FAILURE
    ensures calls' == calls + CommandRun(cmd, replies, |calls|).calls
    ensures StopOf(exit) == CommandRun(cmd, replies, |calls|).stop
    ensures exit == OutOfScript || exit == Exited(EXIT_SUCCESS) || exit == Exited(EXIT_FAILURE)
    ensures rc' == if SetsRc(cmd) && exit != OutOfScript then exit.status else rc
  {
    exit := Exited(EXIT_SUCCESS);
    calls' := calls;
    match cmd {
      case CaptureCmd(options) =>
        var controls, files;
        calls', exit, controls, files := Capture.Capture(options, replies, calls, unwritable);
      case InfoCmd(camera) =>
        var listing;
        calls', exit, listing := Info(replies, calls, IntOfLong(Strtol(camera)));
      case ListCmd =>
        var lines;
        calls', exit, lines := List(replies, calls);
      case _ =>
    }
    rc' := if SetsRc(cmd) && exit != OutOfScript then exit.status else rc;
  }

  /** Options 0 … n - 1 carry the arguments their commands read. */
  predicate WellFormedUpTo(cmds: seq<Command>, n: int) {
    forall k :: 0 <= k < n && k < |cmds| ==> WellFormed(cmds[k])
  }

  /** The calls of options 0 … k - 1 run one after the other, the first call at position 0. */
  function CallsUpTo(cmds: seq<Command>, replies: seq<Reply>, k: nat): seq<Call>
    requires k <= |cmds| && WellFormedUpTo(cmds, k)
    decreases k
  {
    if k == 0 then []
    else
      var before := CallsUpTo(cmds, replies, k - 1);
      before + CommandRun(cmds[k - 1], replies, |before|).calls
  }

  /** How option k ends when run after options 0 … k - 1. */
  function StopAt(cmds: seq<Command>, replies: seq<Reply>, k: nat): Option<Exit>
    requires k < |cmds| && WellFormedUpTo(cmds, k + 1)
  {
    CommandRun(cmds[k], replies, |CallsUpTo(cmds, replies, k)|).stop
  }

  /** The return values of options 0 … k - 1: EXIT_SUCCESS for each that went through. */
  function Statuses(cmds: seq<Command>, replies: seq<Reply>, k: nat): seq<int>
    requires k <= |cmds| && WellFormedUpTo(cmds, k)
  {
    seq(k, j requires 0 <= j < k => if StopAt(cmds, replies, j) == None then EXIT_SUCCESS else EXIT_FAILURE)
  }

  /** One more option, one more return value. */
  lemma StatusesSnoc(cmds: seq<Command>, replies: seq<Reply>, k: nat)
    requires k < |cmds| && WellFormedUpTo(cmds, k + 1)
    ensures Statuses(cmds, replies, k + 1)
      == Statuses(cmds, replies, k) + [if StopAt(cmds, replies, k) == None then EXIT_SUCCESS else EXIT_FAILURE]
  {
    var a := Statuses(cmds, replies, k + 1);
    var b := Statuses(cmds, replies, k) + [if StopAt(cmds, replies, k) == None then EXIT_SUCCESS else EXIT_FAILURE];
    forall j | 0 <= j < k + 1
      ensures a[j] == b[j]
    {
      if j < k {
        assert b[j] == Statuses(cmds, replies, k)[j];
      }
    }
  }

  /** None of options 0 … k - 1 ran out of script. */
  predicate NoneOut(cmds: seq<Command>, replies: seq<Reply>, k: nat)
    requires k <= |cmds| && WellFormedUpTo(cmds, k)
  {
    forall j :: 0 <= j < k ==> StopAt(cmds, replies, j) != Some(OutOfScript)
  }

  /**
   * One pass of main's loop: option k runs after options 0 … k - 1; unless
   * the script ran out, its return value joins the others and rc follows it.
   */
  method NextOption(cmds: seq<Command>, replies: seq<Reply>, unwritable: set<string>, k: nat,
                    calls: seq<Call>, statuses: seq<int>, rc: int)
    returns (calls': seq<Call>, done: Exit, statuses': seq<int>, rc': int)
    requires k < |cmds| && WellFormedUpTo(cmds, k + 1)
    requires calls == CallsUpTo(cmds, replies, k) && statuses == Statuses(cmds, replies, k) && NoneOut(cmds, replies, k)
    requires rc == LastRc(cmds[..k], statuses) && (rc == EXIT_SUCCESS || rc == EXIT_FAILURE)
    ensures calls' == CallsUpTo(cmds, replies, k + 1)
    ensures done == OutOfScript <==> StopAt(cmds, replies, k) == Some(OutOfScript)
    ensures done != OutOfScript ==>
      statuses' == Statuses(cmds, replies, k + 1) && NoneOut(cmds, replies, k + 1)
      && rc' == LastRc(cmds[..k + 1], statuses') && (rc' == EXIT_SUCCESS || rc' == EXIT_FAILURE)
  {
    calls', done, rc' := Perform(cmds[k], replies, calls, unwritable, rc);
    statuses' := statuses;
    if done != OutOfScript {
      OneMoreStatus(cmds, replies, k, statuses, rc, done.status);
      statuses' := statuses + [done.status];
    }
  }

  /** An option that went through adds its return value, and rc follows it when the option sets rc. */
  lemma OneMoreStatus(cmds: seq<Command>, replies: seq<Reply>, k: nat, statuses: seq<int>, rc: int, status: int)
    requires k < |cmds| && WellFormedUpTo(cmds, k + 1)
    requires statuses == Statuses(cmds, replies, k) && NoneOut(cmds, replies, k)
    requires rc == LastRc(cmds[..k], statuses)
    requires status == EXIT_SUCCESS || status == EXIT_FAILURE
    requires StopAt(cmds, replies, k) == if status == EXIT_SUCCESS then None else Some(Exited(EXIT_FAILURE))
    ensures statuses + [status] == Statuses(cmds, replies, k + 1) && NoneOut(cmds, replies, k + 1)
    ensures LastRc(cmds[..k + 1], statuses + [status]) == if SetsRc(cmds[k]) then status else rc
  {
    StatusesSnoc(cmds, replies, k);
    LastRcSnoc(cmds[..k], statuses, cmds[k], status);
    assert cmds[..k + 1] == cmds[..k] + [cmds[k]];
  }

  /**
   * main (picapture.c:375-403): the options in order, each run on the SDK
   * after those before it, each command's return value overwriting rc; help
   * ends the process with exit(0); an error in rc is reported, yet the exit
   * status is always EXIT_SUCCESS.
   */
  method PicaptureMain(cmds: seq<Command>, replies: seq<Reply>, unwritable: set<string>)
    returns (calls: seq<Call>, exit: Exit, ran: seq<Command>, statuses: seq<int>, rc: int, reported: bool)
    requires WellFormedUpTo(cmds, |Processed(cmds)|)
    ensures exit == Exited(EXIT_SUCCESS) || exit == OutOfScript
    ensures |ran| <= |cmds| && ran == cmds[..|ran|] && ran <= Processed(cmds)
    ensures exit == Exited(EXIT_SUCCESS) ==> ran == Processed(cmds) && calls == CallsUpTo(cmds, replies, |ran|)
    ensures exit == OutOfScript ==>
      |ran| < |Processed(cmds)| && |ran| < |cmds| && StopAt(cmds, replies, |ran|) == Some(OutOfScript)
      && calls == CallsUpTo(cmds, replies, |ran| + 1)
    ensures NoneOut(cmds, replies, |ran|)
    ensures statuses == Statuses(cmds, replies, |ran|)
    ensures rc == LastRc(ran, statuses) && (rc == EXIT_SUCCESS || rc == EXIT_FAILURE)
    ensures reported <==> exit == Exited(EXIT_SUCCESS) && HelpCmd !in ran && rc != EXIT_SUCCESS
  {
    calls, ran, statuses, rc := [], [], [], 0;
    var k := 0;
    while k < |cmds|
      invariant k <= |cmds| && ran == cmds[..k] && HelpCmd !in ran && k <= |Processed(cmds)| && WellFormedUpTo(cmds, k)
      invariant calls == CallsUpTo(cmds, replies, k) && statuses == Statuses(cmds, replies, k) && NoneOut(cmds, replies, k)
      invariant rc == LastRc(ran, statuses) && (rc == EXIT_SUCCESS || rc == EXIT_FAILURE)
    {
      ProcessedCovers(cmds, k);
      var done, statuses', rc';
      calls, done, statuses', rc' := NextOption(cmds, replies, unwritable, k, calls, statuses, rc);
      if done == OutOfScript {
        ProcessedUpTo(cmds, k);
        return calls, OutOfScript, ran, statuses, rc, false;
      }
      OneMoreOption(cmds, k);
      ran, statuses, rc := ran + [cmds[k]], statuses', rc';
      if cmds[k] == HelpCmd {
        // help() ends the process with exit(0): no report
        ProcessedUpTo(cmds, k);
        return calls, Exited(EXIT_SUCCESS), ran, statuses, rc, false;
      }
      k := k + 1;
    }
    ProcessedUpTo(cmds, k);
    exit := Exited(EXIT_SUCCESS);
    reported := rc != EXIT_SUCCESS;
  }

  /** Main's loop takes in one more option, the first help among them only if it is that option. */
  lemma OneMoreOption(cmds: seq<Command>, k: nat)
    requires k < |cmds| && HelpCmd !in cmds[..k]
    ensures cmds[..k + 1] == cmds[..k] + [cmds[k]]
    ensures cmds[k] != HelpCmd ==> HelpCmd !in cmds[..k + 1]
  {
    assert cmds[..k + 1] == cmds[..k] + [cmds[k]];
  }

  /** An option main reaches with no --help before it is one main reads. */
  lemma ProcessedCovers(cmds: seq<Command>, k: nat)
    requires k < |cmds| && HelpCmd !in cmds[..k]
    ensures k < |Processed(cmds)|
    ensures WellFormedUpTo(cmds, |Processed(cmds)|) ==> WellFormedUpTo(cmds, k + 1)
  {
    if cmds[k] == HelpCmd {
      ProcessedUpTo(cmds, k);
    } else {
      OneMoreOption(cmds, k);
      ProcessedUpTo(cmds, k + 1);
    }
  }

  /** The return value of one more command: its own when it sets rc, the previous rc otherwise. */
  lemma LastRcSnoc(cmds: seq<Command>, statuses: seq<int>, cmd: Command, status: int)
    requires |cmds| == |statuses|
    ensures LastRc(cmds + [cmd], statuses + [status]) == if SetsRc(cmd) then status else LastRc(cmds, statuses)
  {
    assert (cmds + [cmd])[..|cmds|] == cmds;
    assert (statuses + [status])[..|statuses|] == statuses;
  }

  /**
   * The commands before the first help are all acted on; the run ends with
   * the first help, and takes in every command when there is none.
   */
  lemma {:induction false} ProcessedUpTo(cmds: seq<Command>, m: nat)
    requires m <= |cmds| && HelpCmd !in cmds[..m]
    ensures cmds[..m] <= Processed(cmds)
    ensures m == |cmds| ==> Processed(cmds) == cmds
    ensures m < |cmds| && cmds[m] == HelpCmd ==> Processed(cmds) == cmds[..m + 1]
    decreases m
  {
    if m > 0 {
      assert cmds[0] == cmds[..m][0];
      ProcessedUpTo(cmds[1..], m - 1);
      assert cmds[1..][..m - 1] == cmds[..m][1..];
      assert cmds[..m] == [cmds[0]] + cmds[1..][..m - 1];
      if m < |cmds| {
        assert cmds[1..][m - 1] == cmds[m];
        assert cmds[..m + 1] == [cmds[0]] + cmds[1..][..m];
      } else {
        assert cmds == [cmds[0]] + cmds[1..];
      }
    }
  }
}
