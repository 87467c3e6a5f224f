/**
 * The camera SDK as the tools see it.  Its behaviour is closed, so it is an
 * oracle: a script of replies, one per call in the order the calls are made,
 * each reply carrying the status code and whatever the call hands back
 * through its out-parameters.  A tool's run is the trace of calls it makes;
 * ASI_CALL (picapture.h:115-125) stops the run at the first call whose status
 * is not ASI_SUCCESS.
 */
module Sdk {
  import opened Wrappers
  import opened Platform
  import opened AsiLabels

  /** ASI_CAMERA_INFO.SupportedBins: a fixed array of 16 entries, 0 ending the list. */
  type BinTable = s: seq<int> | |s| == 16 witness [0, 0, 0, 0, 0, 0, 0, 0, 0, 0, 0, 0, 0, 0, 0, 0]

  /** ASI_CAMERA_INFO.SupportedVideoFormat: a fixed array of 8 entries, ASI_IMG_END ending the list. */
  type FormatTable = s: seq<ImgType> | |s| == 8 witness [ImgEnd, ImgEnd, ImgEnd, ImgEnd, ImgEnd, ImgEnd, ImgEnd, ImgEnd]

  /** The fields of ASI_CAMERA_INFO the tools act on. */
  datatype CameraInfo = CameraInfo(
    name: string,
    cameraId: int,
    maxHeight: nat,
    maxWidth: nat,
    supportedBins: BinTable,
    supportedVideoFormat: FormatTable)

  /** ASI_EXPOSURE_STATUS */
  datatype ExposureStatus = ExpIdle | ExpWorking | ExpSuccess | ExpFailed

  /** The SDK calls the tools make, with the arguments they pass. */
  datatype Call =
    | GetNumOfConnectedCameras
    | GetCameraProperty(camera: int)
    | OpenCamera(camera: int)
    | InitCamera(camera: int)
    | GetNumOfControls(camera: int)
    | GetControlCaps(camera: int, index: int)
    | GetControlValue(camera: int, control: ControlType)
    | SetROIFormat(camera: int, width: int, height: int, bin: int, imgType: ImgType)
    | SetControlValue(camera: int, control: ControlType, value: int, auto: bool)
    | StartExposure(camera: int, dark: bool)
    | GetExpStatus(camera: int)
    | StopExposure(camera: int)
    | GetDataAfterExp(camera: int, size: int)
    | CloseCamera(camera: int)

  /**
   * What one call returns: its status code and its out-parameters (the
   * camera count, the camera's properties, the control type in the
   * capabilities, the exposure status, the image bytes); each call reads
   * only the fields it has.
   */
  datatype Reply = Reply(
    code: ErrorCode,
    count: int,
    info: CameraInfo,
    control: ControlType,
    status: ExposureStatus,
    frame: seq<byte>)

  /** How a run ends: with a process exit status, or by making a call the script has no reply for. */
  datatype Exit = Exited(status: int) | OutOfScript

  const NoInfo: CameraInfo := CameraInfo("", 0, 0, 0, [0, 0, 0, 0, 0, 0, 0, 0, 0, 0, 0, 0, 0, 0, 0, 0], [ImgEnd, ImgEnd, ImgEnd, ImgEnd, ImgEnd, ImgEnd, ImgEnd, ImgEnd])
  const NoReply: Reply := Reply(Success, 0, NoInfo, Gain, ExpIdle, [])

  /** The run's end as a trace stop: None exactly when the run exited with EXIT_SUCCESS. */
  function StopOf(exit: Exit): Option<Exit> {
    if exit == Exited(EXIT_SUCCESS) then None else Some(exit)
  }

  /** The reply to the call made at position k, when the script has one. */
  function ReplyAt(replies: seq<Reply>, k: int): (r: Reply)
    ensures 0 <= k < |replies| ==> r == replies[k]
  {
    if 0 <= k < |replies| then replies[k] else NoReply
  }

  /** A call answered by reply lets the run go on: the camera count is not a status code and is never checked. */
  predicate Ok(call: Call, reply: Reply) {
    call.GetNumOfConnectedCameras? || reply.code == Success
  }

  /** Every call at positions from..to got a reply that lets the run go on. */
  ghost predicate AllOk(replies: seq<Reply>, calls: seq<Call>, from: nat, to: nat)
    requires from <= to <= |calls| <= |replies|
  {
    forall k :: from <= k < to ==> Ok(calls[k], replies[k])
  }

  /** The calls a run made and how it stopped: None while it may go on. */
  datatype Trace = Trace(calls: seq<Call>, stop: Option<Exit>)

  /**
   * The run of a script of calls whose first call is answered by the reply at
   * position at: each call in turn, stopping at the first one that fails
   * (ASI_CALL's jump to the error label, EXIT_FAILURE) or that finds no reply.
   */
  function Run(replies: seq<Reply>, at: nat, script: seq<Call>): (t: Trace)
    ensures t.stop == None ==> |t.calls| == |script|
    ensures t.stop != None ==> |t.calls| <= |script|
    ensures t.stop == None || t.stop == Some(OutOfScript) || t.stop == Some(Exited(EXIT_FAILURE))
    decreases |script|
  {
    if script == [] then Trace([], None)
    else if at >= |replies| then Trace([], Some(OutOfScript))
    else if !Ok(script[0], replies[at]) then Trace([script[0]], Some(Exited(EXIT_FAILURE)))
    else
      var t := Run(replies, at + 1, script[1..]);
      Trace([script[0]] + t.calls, t.stop)
  }

  /** From the trace calls, the run of script led to the trace calls' and stopped as stop says. */
  predicate Ran(replies: seq<Reply>, calls: seq<Call>, calls': seq<Call>, script: seq<Call>, stop: Option<Exit>) {
    calls' == calls + Run(replies, |calls|, script).calls && stop == Run(replies, |calls|, script).stop
  }

  /** Running a script that is two scripts in turn: the second runs only when the first went through. */
  lemma {:induction false} RunThen(replies: seq<Reply>, at: nat, a: seq<Call>, b: seq<Call>)
    ensures Run(replies, at, a).stop == None ==>
      Run(replies, at, a + b)
      == Trace(Run(replies, at, a).calls + Run(replies, at + |a|, b).calls, Run(replies, at + |a|, b).stop)
    ensures Run(replies, at, a).stop != None ==> Run(replies, at, a + b) == Run(replies, at, a)
    decreases |a|
  {
    if a == [] {
      assert a + b == b;
    } else {
      assert (a + b)[0] == a[0];
      assert (a + b)[1..] == a[1..] + b;
      if at < |replies| && Ok(a[0], replies[at]) {
        RunThen(replies, at + 1, a[1..], b);
      }
    }
  }

  /** Nothing to run. */
  lemma RanNothing(replies: seq<Reply>, calls: seq<Call>)
    ensures Ran(replies, calls, calls, [], None)
  {
  }

  /** A run that went through a and then ran b has run a + b. */
  lemma RanThen(replies: seq<Reply>, c0: seq<Call>, c1: seq<Call>, c2: seq<Call>, a: seq<Call>, b: seq<Call>, stop: Option<Exit>)
    requires Ran(replies, c0, c1, a, None)
    requires Ran(replies, c1, c2, b, stop)
    ensures Ran(replies, c0, c2, a + b, stop)
  {
    var ra := Run(replies, |c0|, a);
    var rb := Run(replies, |c1|, b);
    assert |c1| == |c0| + |a|;
    assert c2 == c0 + (ra.calls + rb.calls);
    RunThen(replies, |c0|, a, b);
  }

  /** A run that stopped within a stopped in the same place within any script that starts with a. */
  lemma RanStopped(replies: seq<Reply>, c0: seq<Call>, c1: seq<Call>, a: seq<Call>, b: seq<Call>, stop: Exit)
    requires Ran(replies, c0, c1, a, Some(stop))
    ensures Ran(replies, c0, c1, a + b, Some(stop))
  {
    RunThen(replies, |c0|, a, b);
  }

  /**
   * One more call after a run that went through so far: the run goes on with
   * the call appended, or stops there within any script that continues with rest.
   */
  lemma Step(replies: seq<Reply>, c0: seq<Call>, c1: seq<Call>, c2: seq<Call>, done: seq<Call>, call: Call, rest: seq<Call>, stop: Option<Exit>)
    requires Ran(replies, c0, c1, done, None)
    requires Ran(replies, c1, c2, [call], stop)
    ensures stop == None ==> Ran(replies, c0, c2, done + [call], None)
    ensures stop != None ==> Ran(replies, c0, c2, done + [call] + rest, stop)
  {
    RanThen(replies, c0, c1, c2, done, [call], stop);
    if stop != None {
      RanStopped(replies, c0, c2, done + [call], rest, stop.value);
    }
  }

  /**
   * What a run is, call by call: a prefix of the script, each call answered
   * by the reply at its position; when it went through, the whole script with
   * every call succeeding; when it ran out of replies, everything up to the
   * end of the replies succeeding; when it failed, every call succeeding but
   * the last, which failed.
   */
  ghost predicate Issued(replies: seq<Reply>, calls: seq<Call>, calls': seq<Call>, script: seq<Call>, stop: Option<Exit>)
  {
    |calls| <= |calls'| <= |replies| && |calls'| - |calls| <= |script|
    && calls' == calls + script[..|calls'| - |calls|]
    && (stop == None ==>
          |calls'| - |calls| == |script| && AllOk(replies, calls', |calls|, |calls'|))
    && (stop == Some(OutOfScript) ==>
          |calls'| - |calls| < |script| && |calls'| == |replies| && AllOk(replies, calls', |calls|, |calls'|))
    && (stop.Some? && stop.value.Exited? ==>
          stop.value.status == EXIT_FAILURE && |calls| < |calls'|
          && AllOk(replies, calls', |calls|, |calls'| - 1)
          && !Ok(calls'[|calls'| - 1], replies[|calls'| - 1]))
  }

  /** A successful first call followed by a run of the rest of the script. */
  lemma IssuedCons(replies: seq<Reply>, calls: seq<Call>, script: seq<Call>, more: seq<Call>, stop: Option<Exit>)
    requires |calls| < |replies| && script != [] && Ok(script[0], replies[|calls|])
    requires Issued(replies, calls + [script[0]], calls + [script[0]] + more, script[1..], stop)
    ensures Issued(replies, calls, calls + ([script[0]] + more), script, stop)
  {
    var next := calls + [script[0]];
    assert calls + ([script[0]] + more) == next + more;
    assert script[..1 + |more|] == [script[0]] + script[1..][..|more|];
  }

  /** Every run is as Issued describes it: the first failing call ends the run, and nothing runs past the replies. */
  lemma {:induction false} RunIssued(replies: seq<Reply>, calls: seq<Call>, script: seq<Call>)
    requires |calls| <= |replies|
    ensures Issued(replies, calls, calls + Run(replies, |calls|, script).calls, script, Run(replies, |calls|, script).stop)
    decreases |script|
  {
    if script == [] || |calls| == |replies| {
      assert calls + [] == calls;
    } else if !Ok(script[0], replies[|calls|]) {
      assert script[..1] == [script[0]];
    } else {
      var next := calls + [script[0]];
      RunIssued(replies, next, script[1..]);
      IssuedCons(replies, calls, script, Run(replies, |next|, script[1..]).calls, Run(replies, |next|, script[1..]).stop);
    }
  }

  /** Issued describes exactly one trace, the run: whatever fits it is what Run makes. */
  lemma {:induction false} IssuedRun(replies: seq<Reply>, calls: seq<Call>, calls': seq<Call>, script: seq<Call>, stop: Option<Exit>)
    requires |calls| <= |replies|
    requires Issued(replies, calls, calls', script, stop)
    ensures Ran(replies, calls, calls', script, stop)
    decreases |script|
  {
    if script != [] && |calls| < |replies| {
      if Ok(script[0], replies[|calls|]) {
        var next := calls + [script[0]];
        assert |calls| < |calls'|;
        assert calls' == next + script[1..][..|calls'| - |next|] by {
          assert script[..|calls'| - |calls|] == [script[0]] + script[1..][..|calls'| - |next|];
        }
        assert Issued(replies, next, calls', script[1..], stop);
        IssuedRun(replies, next, calls', script[1..], stop);
      } else {
        assert |calls| < |calls'|;
        assert calls'[|calls|] == script[0];
        assert |calls'| == |calls| + 1;
        assert calls' == calls + [script[0]] by {
          assert script[..1] == [script[0]];
        }
        assert !AllOk(replies, calls', |calls|, |calls'|) by {
          assert !Ok(calls'[|calls|], replies[|calls|]);
        }
        assert stop.Some? && stop.value.Exited?;
      }
    }
  }

  /**
   * ASI_CALL: make the call; on ASI_SUCCESS go on with its reply, otherwise
   * stop with EXIT_FAILURE (the macro's jump to the caller's error label).
   * The status also lands in the caller's asi_error_code, which nothing reads
   * afterwards except the diagnostic.
   */
  method AsiCall(replies: seq<Reply>, calls: seq<Call>, call: Call) returns (calls': seq<Call>, stop: Option<Exit>, reply: Reply)
    requires !call.GetNumOfConnectedCameras?
    ensures Ran(replies, calls, calls', [call], stop)
    ensures stop == None <==> |calls| < |replies| && replies[|calls|].code == Success
    ensures stop == None ==> reply == replies[|calls|]
  {
    if |calls| >= |replies| {
      return calls, Some(OutOfScript), NoReply;
    }
    reply := replies[|calls|];
    var asiErrorCode := reply.code;
    calls' := calls + [call];
    if asiErrorCode != Success {
      stop := Some(Exited(EXIT_FAILURE));
    } else {
      stop := None;
    }
  }

  /**
   * A command that counts the cameras first, from position at: no call
   * without a reply; a rejected count or index fails right after the count;
   * otherwise the count and then the run of script.
   */
  function Counted(replies: seq<Reply>, at: nat, rejected: bool, script: seq<Call>): (t: Trace)
    ensures at >= |replies| ==> t == Trace([], Some(OutOfScript))
    ensures at < |replies| && rejected ==> t == Trace([GetNumOfConnectedCameras], Some(Exited(EXIT_FAILURE)))
    ensures t.stop == None || t.stop == Some(OutOfScript) || t.stop == Some(Exited(EXIT_FAILURE))
  {
    if at >= |replies| then Trace([], Some(OutOfScript))
    else if rejected then Trace([GetNumOfConnectedCameras], Some(Exited(EXIT_FAILURE)))
    else
      var t := Run(replies, at + 1, script);
      Trace([GetNumOfConnectedCameras] + t.calls, t.stop)
  }

  /** Once the count is accepted, the calls after it are the run of the script. */
  lemma CountedRan(replies: seq<Reply>, calls: seq<Call>, calls': seq<Call>, rejected: bool, script: seq<Call>, stop: Option<Exit>)
    requires |calls| < |replies| && !rejected
    requires Ran(replies, calls + [GetNumOfConnectedCameras], calls', script, stop)
    ensures calls' == calls + Counted(replies, |calls|, rejected, script).calls
    ensures stop == Counted(replies, |calls|, rejected, script).stop
  {
    var t := Run(replies, |calls| + 1, script);
    assert calls + [GetNumOfConnectedCameras] + t.calls == calls + ([GetNumOfConnectedCameras] + t.calls);
  }

  /** ASIGetNumOfConnectedCameras(): never checked, its result is the camera count. */
  method CountCameras(replies: seq<Reply>, calls: seq<Call>) returns (calls': seq<Call>, stop: Option<Exit>, count: int)
    ensures Ran(replies, calls, calls', [GetNumOfConnectedCameras], stop)
    ensures stop == None <==> |calls| < |replies|
    ensures stop == None ==> count == replies[|calls|].count
  {
    if |calls| >= |replies| {
      return calls, Some(OutOfScript), 0;
    }
    calls' := calls + [GetNumOfConnectedCameras];
    return calls', None, replies[|calls|].count;
  }
}
