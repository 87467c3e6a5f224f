/**
 * Describing one camera: read its properties and list them, open and
 * initialise it, query every control's capabilities and current value, then
 * close it, each call through ASI_CALL.  picapture.c's info() does this for
 * the camera it is given (picapture.c:278-305), info/info.c's main for every
 * camera in turn (info/info.c:189-216).
 */
module Describe {
  import opened Wrappers
  import opened AsiLabels
  import opened Sdk
  import opened Display

  /** The listing printed for the camera whose description starts at position at, if its property call succeeds. */
  function ListingAt(replies: seq<Reply>, at: int): seq<string> {
    if 0 <= at < |replies| && replies[at].code == Success then Listing(replies[at].info) else []
  }

  /** The calls before the control loop. */
  function Prologue(camera: int): seq<Call> {
    [GetCameraProperty(camera), OpenCamera(camera), InitCamera(camera), GetNumOfControls(camera)]
  }

  /**
   * The control loop from control j on, its first call at position at: the
   * capabilities of each control index, then the value of the control type
   * those capabilities name.
   */
  function ControlQueries(camera: int, replies: seq<Reply>, at: int, j: int, count: int): seq<Call>
    decreases count - j
  {
    if j >= count then []
    else [GetControlCaps(camera, j), GetControlValue(camera, ReplyAt(replies, at).control)]
         + ControlQueries(camera, replies, at + 2, j + 1, count)
  }

  /** Every call describing the camera makes when its first call is at position at. */
  function DescribeScript(camera: int, replies: seq<Reply>, at: int): seq<Call> {
    Prologue(camera)
    + ControlQueries(camera, replies, at + 4, 0, ReplyAt(replies, at + 3).count)
    + [CloseCamera(camera)]
  }

  /** One pass of the control loop: the capabilities of control j, then the value of the control type they name. */
  method QueryControl(replies: seq<Reply>, calls: seq<Call>, camera: int, j: int)
    returns (calls': seq<Call>, stop: Option<Exit>)
    ensures Ran(replies, calls, calls',
      [GetControlCaps(camera, j), GetControlValue(camera, ReplyAt(replies, |calls|).control)], stop)
  {
    ghost var value := GetControlValue(camera, ReplyAt(replies, |calls|).control);
    RanNothing(replies, calls);
    var c1, s1, caps := AsiCall(replies, calls, GetControlCaps(camera, j));
    Step(replies, calls, calls, c1, [], GetControlCaps(camera, j), [value], s1);
    if s1 != None {
      return c1, s1;
    }
    var c2, s2, _ := AsiCall(replies, c1, GetControlValue(camera, caps.control));
    Step(replies, calls, c1, c2, [GetControlCaps(camera, j)], value, [], s2);
    if s2 != None {
      assert [GetControlCaps(camera, j)] + [value] + [] == [GetControlCaps(camera, j), value];
    }
    return c2, s2;
  }

  /** The control loop: for j from 0 while j < count, the capabilities of control j and then its value. */
  method QueryControls(replies: seq<Reply>, calls: seq<Call>, camera: int, count: int)
    returns (calls': seq<Call>, stop: Option<Exit>)
    ensures Ran(replies, calls, calls', ControlQueries(camera, replies, |calls|, 0, count), stop)
  {
    ghost var whole := ControlQueries(camera, replies, |calls|, 0, count);
    ghost var done: seq<Call> := [];
    RanNothing(replies, calls);
    calls' := calls;
    var j := 0;
    while j < count
      invariant 0 <= j
      invariant Ran(replies, calls, calls', done, None)
      invariant |calls'| == |calls| + 2 * j
      invariant done + ControlQueries(camera, replies, |calls'|, j, count) == whole
      decreases count - j
    {
      ghost var pair := [GetControlCaps(camera, j), GetControlValue(camera, ReplyAt(replies, |calls'|).control)];
      ghost var rest := ControlQueries(camera, replies, |calls'| + 2, j + 1, count);
      var next, s := QueryControl(replies, calls', camera, j);
      RanThen(replies, calls, calls', next, done, pair, s);
      if s != None {
        RanStopped(replies, calls, next, done + pair, rest, s.value);
        assert done + pair + rest == whole;
        return next, s;
      }
      done := done + pair;
      calls' := next;
      j := j + 1;
    }
    assert done == whole;
    stop := None;
  }

  /**
   * The calls before the control loop: the property query (whose result is
   * listed as soon as it arrives), open, init and the control count.
   */
  method PrepareCamera(replies: seq<Reply>, calls: seq<Call>, camera: int)
    returns (calls': seq<Call>, stop: Option<Exit>, listing: seq<string>, numControls: int)
    ensures Ran(replies, calls, calls', Prologue(camera), stop)
    ensures |calls| < |replies| && replies[|calls|].code == Success ==> listing == Listing(replies[|calls|].info)
    ensures !(|calls| < |replies| && replies[|calls|].code == Success) ==> listing == []
    ensures stop == None ==> numControls == ReplyAt(replies, |calls| + 3).count
  {
    var p := Prologue(camera);
    RanNothing(replies, calls);
    listing := [];
    numControls := 0;
    var c1, s1, property := AsiCall(replies, calls, p[0]);
    Step(replies, calls, calls, c1, [], p[0], p[1..], s1);
    if s1 != None {
      return c1, s1, listing, numControls;
    }
    listing := DisplayCameraInfo(property.info);
    var c2, s2, _ := AsiCall(replies, c1, p[1]);
    Step(replies, calls, c1, c2, p[..1], p[1], p[2..], s2);
    if s2 != None {
      assert p[..1] + [p[1]] + p[2..] == p;
      return c2, s2, listing, numControls;
    }
    assert p[..1] + [p[1]] == p[..2];
    var c3, s3, _ := AsiCall(replies, c2, p[2]);
    Step(replies, calls, c2, c3, p[..2], p[2], p[3..], s3);
    if s3 != None {
      assert p[..2] + [p[2]] + p[3..] == p;
      return c3, s3, listing, numControls;
    }
    assert p[..2] + [p[2]] == p[..3];
    var c4, s4, controls := AsiCall(replies, c3, p[3]);
    Step(replies, calls, c3, c4, p[..3], p[3], [], s4);
    assert p[..3] + [p[3]] == p;
    if s4 != None {
      assert p[..3] + [p[3]] + [] == p;
      return c4, s4, listing, numControls;
    }
    numControls := controls.count;
    return c4, s4, listing, numControls;
  }

  /**
   * One camera described: its property listing, then open, init, the control
   * loop and close, stopping at the first call that fails.  The listing is
   * produced once the property call has succeeded.
   */
  method DescribeCamera(replies: seq<Reply>, calls: seq<Call>, camera: int)
    returns (calls': seq<Call>, stop: Option<Exit>, listing: seq<string>)
    ensures Ran(replies, calls, calls', DescribeScript(camera, replies, |calls|), stop)
    ensures |calls| < |replies| && replies[|calls|].code == Success ==> listing == Listing(replies[|calls|].info)
    ensures !(|calls| < |replies| && replies[|calls|].code == Success) ==> listing == []
  {
    ghost var queries := ControlQueries(camera, replies, |calls| + 4, 0, ReplyAt(replies, |calls| + 3).count);
    ghost var close := [CloseCamera(camera)];
    var c4, s4, numControls;
    c4, s4, listing, numControls := PrepareCamera(replies, calls, camera);
    if s4 != None {
      RanStopped(replies, calls, c4, Prologue(camera), queries + close, s4.value);
      assert Prologue(camera) + (queries + close) == DescribeScript(camera, replies, |calls|);
      return c4, s4, listing;
    }
    assert |c4| == |calls| + 4;
    var c5, s5 := QueryControls(replies, c4, camera, numControls);
    RanThen(replies, calls, c4, c5, Prologue(camera), queries, s5);
    if s5 != None {
      RanStopped(replies, calls, c5, Prologue(camera) + queries, close, s5.value);
      return c5, s5, listing;
    }
    var c6, s6, _ := AsiCall(replies, c5, CloseCamera(camera));
    Step(replies, calls, c5, c6, Prologue(camera) + queries, CloseCamera(camera), [], s6);
    if s6 != None {
      assert Prologue(camera) + queries + close + [] == DescribeScript(camera, replies, |calls|);
    }
    return c6, s6, listing;
  }

  /**
   * The control loop queries controls 0, 1, … count - 1 in index order, each
   * by its capabilities first and then by the value of the control type those
   * capabilities returned.
   */
  lemma {:induction false} ControlQueriesOrder(camera: int, replies: seq<Reply>, at: int, j: int, count: int)
    requires j <= count
    ensures |ControlQueries(camera, replies, at, j, count)| == 2 * (count - j)
    ensures forall m :: 0 <= m < count - j ==>
      ControlQueries(camera, replies, at, j, count)[2 * m] == GetControlCaps(camera, j + m)
      && ControlQueries(camera, replies, at, j, count)[2 * m + 1]
         == GetControlValue(camera, ReplyAt(replies, at + 2 * m).control)
    decreases count - j
  {
    if j < count {
      var tail := ControlQueries(camera, replies, at + 2, j + 1, count);
      ControlQueriesOrder(camera, replies, at + 2, j + 1, count);
      var s := ControlQueries(camera, replies, at, j, count);
      forall m | 0 <= m < count - j
        ensures s[2 * m] == GetControlCaps(camera, j + m)
        ensures s[2 * m + 1] == GetControlValue(camera, ReplyAt(replies, at + 2 * m).control)
      {
        if m > 0 {
          assert s[2 * m] == tail[2 * (m - 1)];
          assert s[2 * m + 1] == tail[2 * (m - 1) + 1];
        }
      }
    }
  }

  /**
   * The shape of a description: property query, open, init, control count,
   * two calls per control, and close as the very last call; the close is
   * nowhere else.
   */
  lemma DescribeScriptShape(camera: int, replies: seq<Reply>, at: int)
    ensures var s := DescribeScript(camera, replies, at);
      var n := ReplyAt(replies, at + 3).count;
      |s| == 5 + 2 * (if n > 0 then n else 0)
      && s[..4] == Prologue(camera)
      && s[|s| - 1] == CloseCamera(camera)
      && forall k :: 0 <= k < |s| - 1 ==> !s[k].CloseCamera?
  {
    var n := ReplyAt(replies, at + 3).count;
    var q := ControlQueries(camera, replies, at + 4, 0, n);
    if n > 0 {
      ControlQueriesOrder(camera, replies, at + 4, 0, n);
      assert forall k :: 0 <= k < |q| ==> !q[k].CloseCamera? by {
        forall k | 0 <= k < |q| ensures !q[k].CloseCamera? {
          var m := k / 2;
          assert k == 2 * m || k == 2 * m + 1;
        }
      }
    } else {
      assert q == [];
    }
  }

  /**
   * When a description stops at a failing call other than the close, the
   * camera is left open: the run ends without a close.
   */
  lemma LeftOpen(replies: seq<Reply>, calls: seq<Call>, calls': seq<Call>, camera: int)
    requires |calls| <= |replies|
    requires Ran(replies, calls, calls', DescribeScript(camera, replies, |calls|), Some(Exited(1)))
    requires !calls'[|calls'| - 1].CloseCamera?
    ensures forall k :: |calls| <= k < |calls'| ==> !calls'[k].CloseCamera?
  {
    var s := DescribeScript(camera, replies, |calls|);
    DescribeScriptShape(camera, replies, |calls|);
    RunIssued(replies, calls, s);
    var n := |calls'| - |calls|;
    forall k | |calls| <= k < |calls'|
      ensures !calls'[k].CloseCamera?
    {
      assert calls'[k] == s[k - |calls|];
    }
  }
}
