/**
 * The info tool's main (info/info.c:168-224): count the cameras, report how
 * many there are, then describe each camera in index order, stopping the
 * whole run at the first SDK call that fails.
 */
module InfoTool {
  import opened Wrappers
  import opened Platform
  import opened Decimal
  import opened AsiLabels
  import opened Sdk
  import opened Describe

  /** The message printed once at least one camera is detected. */
  function CountMessage(n: int): string {
    if n == 1 then "1 camera detected!\n" else IntToDecimal(n) + " cameras detected!\n"
  }

  /** The calls describing cameras 0 … k - 1 in turn, the first call at position 1. */
  function CamerasUpTo(replies: seq<Reply>, k: int): seq<Call>
    decreases k
  {
    if k <= 0 then []
    else
      var before := CamerasUpTo(replies, k - 1);
      before + DescribeScript(k - 1, replies, 1 + |before|)
  }

  /**
   * The run after the count stopped while describing camera i: it gets
   * through cameras 0 … i - 1 and stops within camera i's calls.
   */
  predicate StoppedIn(replies: seq<Reply>, i: int) {
    Run(replies, 1, CamerasUpTo(replies, i)).stop == None && Run(replies, 1, CamerasUpTo(replies, i + 1)).stop != None
  }

  /** The positions where the descriptions of cameras 0 … k - 1 start. */
  function CameraStarts(replies: seq<Reply>, k: nat): seq<int> {
    seq(k, i requires 0 <= i < k => 1 + |CamerasUpTo(replies, i)|)
  }

  /** The listings printed for descriptions starting at the given positions, in order. */
  function ListingsAt(replies: seq<Reply>, starts: seq<int>): seq<seq<string>> {
    seq(|starts|, i requires 0 <= i < |starts| => ListingAt(replies, starts[i]))
  }

  /** The listings printed for cameras 0 … k - 1 when all their property calls are reached. */
  function ListingsUpTo(replies: seq<Reply>, k: nat): (listings: seq<seq<string>>) {
    ListingsAt(replies, CameraStarts(replies, k))
  }

  /**
   * One pass of the camera loop: describe camera i after cameras 0 … i - 1
   * were described without a failing call, and add its listing; a failure
   * there is where the run over all cameras stops, after exactly i of them.
   */
  method NextCamera(replies: seq<Reply>, c0: seq<Call>, calls: seq<Call>, i: nat, count: int, listings: seq<seq<string>>)
    returns (calls': seq<Call>, stop: Option<Exit>, listings': seq<seq<string>>)
    requires |c0| == 1 && i < count
    requires Ran(replies, c0, calls, CamerasUpTo(replies, i), None)
    requires listings == ListingsUpTo(replies, i)
    ensures listings' == ListingsUpTo(replies, i + 1) && |listings'| == i + 1
    ensures stop != None ==> StoppedIn(replies, i)
    ensures stop == None ==> Ran(replies, c0, calls', CamerasUpTo(replies, i + 1), None)
    ensures stop != None ==> Ran(replies, c0, calls', CamerasUpTo(replies, count), stop)
  {
    ghost var done := CamerasUpTo(replies, i);
    ghost var script := DescribeScript(i, replies, |calls|);
    CamerasNext(replies, i);
    var listing;
    calls', stop, listing := DescribeCamera(replies, calls, i);
    ListingsSnoc(replies, i, listings, listing);
    listings' := listings + [listing];
    RanThen(replies, c0, calls, calls', done, script, stop);
    if stop != None {
      StoppedInCamera(replies, c0, calls, calls', i, stop);
      CamerasStopped(replies, c0, calls', i, count, stop.value);
    }
  }

  /**
   * The camera loop: describe cameras 0 … count - 1 in turn, stopping at the
   * first failing call; the camera that fails still has its listing.  It
   * hands back the loop index it stops at: the camera whose description
   * failed, or count when every description went through.
   */
  method DescribeCameras(replies: seq<Reply>, calls: seq<Call>, count: int)
    returns (calls': seq<Call>, stop: Option<Exit>, listings: seq<seq<string>>, i: int)
    requires |calls| == 1
    ensures Ran(replies, calls, calls', CamerasUpTo(replies, count), stop)
    ensures listings == ListingsUpTo(replies, |listings|)
    ensures stop == None ==> i == |listings| == if count > 0 then count else 0
    ensures stop != None ==> 0 <= i < count && |listings| == i + 1
    ensures stop != None ==> StoppedIn(replies, i)
  {
    listings := [];
    calls' := calls;
    stop := None;
    RanNothing(replies, calls);
    i := 0;
    while i < count
      invariant 0 <= i && (i <= count || i == 0)
      invariant stop == None && Ran(replies, calls, calls', CamerasUpTo(replies, i), None)
      invariant |listings| == i && listings == ListingsUpTo(replies, i)
    {
      calls', stop, listings := NextCamera(replies, calls, calls', i, count, listings);
      if stop != None {
        return;
      }
      i := i + 1;
    }
    assert CamerasUpTo(replies, count) == CamerasUpTo(replies, i);
  }

  /**
   * info/info.c's main.  With no reply for the camera count the run makes no
   * call; with zero cameras it fails right after the count; otherwise it
   * prints the count message and describes the cameras one after another.
   * camera is the loop index the run ends at: on a failure, the camera whose
   * description failed.
   */
  method InfoMain(replies: seq<Reply>)
    returns (calls: seq<Call>, exit: Exit, numCameras: int, message: Option<string>, listings: seq<seq<string>>, camera: int)
    ensures |replies| == 0 ==> exit == OutOfScript && calls == [] && message == None
    ensures |replies| > 0 ==> numCameras == replies[0].count
    ensures |replies| > 0 && numCameras == 0 ==>
      exit == Exited(EXIT_FAILURE) && calls == [GetNumOfConnectedCameras] && message == None
    ensures |replies| > 0 && numCameras != 0 ==>
      message == Some(CountMessage(numCameras))
      && Ran(replies, [GetNumOfConnectedCameras], calls, CamerasUpTo(replies, numCameras), StopOf(exit))
    ensures listings == ListingsUpTo(replies, |listings|)
    ensures exit == Exited(EXIT_SUCCESS) ==> |replies| > 0 && |listings| == if numCameras > 0 then numCameras else 0
    ensures |replies| > 0 && numCameras != 0 && exit != Exited(EXIT_SUCCESS) ==>
      0 <= camera < numCameras && |listings| == camera + 1 && StoppedIn(replies, camera)
  {
    message := None;
    listings := [];
    var s0;
    calls, s0, numCameras := CountCameras(replies, []);
    camera := 0;
    if s0 != None {
      return calls, s0.value, numCameras, message, listings, camera;
    }
    if numCameras == 0 {
      return calls, Exited(EXIT_FAILURE), numCameras, message, listings, camera;
    }
    message := Some(CountMessage(numCameras));
    var stop;
    calls, stop, listings, camera := DescribeCameras(replies, calls, numCameras);
    exit := if stop == None then Exited(EXIT_SUCCESS) else stop.value;
  }

  /** The calls for the first k cameras begin the calls for the first m. */
  lemma {:induction false} CamerasPrefix(replies: seq<Reply>, k: int, m: int)
    requires k <= m
    ensures |CamerasUpTo(replies, k)| <= |CamerasUpTo(replies, m)|
    ensures CamerasUpTo(replies, m) == CamerasUpTo(replies, k) + CamerasUpTo(replies, m)[|CamerasUpTo(replies, k)|..]
    decreases m - k
  {
    if k < m {
      CamerasPrefix(replies, k, m - 1);
      if m - 1 > 0 {
        var a := CamerasUpTo(replies, k);
        var b := CamerasUpTo(replies, m - 1);
        var c := CamerasUpTo(replies, m);
        assert c == b + DescribeScript(m - 1, replies, 1 + |b|);
        assert c[..|a|] == b[..|a|];
      }
    }
  }

  /** One more camera: its description follows those of the cameras before it. */
  lemma CamerasNext(replies: seq<Reply>, i: nat)
    ensures CamerasUpTo(replies, i + 1) == CamerasUpTo(replies, i) + DescribeScript(i, replies, 1 + |CamerasUpTo(replies, i)|)
  {
  }

  /** A run that got through the first i cameras and stops within the first i + 1 stopped in camera i. */
  lemma StoppedInCamera(replies: seq<Reply>, c0: seq<Call>, calls: seq<Call>, calls': seq<Call>, i: nat, stop: Option<Exit>)
    requires |c0| == 1 && stop != None
    requires Ran(replies, c0, calls, CamerasUpTo(replies, i), None)
    requires Ran(replies, c0, calls', CamerasUpTo(replies, i) + DescribeScript(i, replies, |calls|), stop)
    ensures StoppedIn(replies, i)
  {
    CamerasNext(replies, i);
  }

  /** Once a run stopped within the descriptions of the first k cameras, it stops within those of the first m >= k too. */
  lemma CamerasStopPersists(replies: seq<Reply>, k: int, m: int)
    requires k <= m && Run(replies, 1, CamerasUpTo(replies, k)).stop != None
    ensures Run(replies, 1, CamerasUpTo(replies, m)).stop != None
  {
    var first := CamerasUpTo(replies, k);
    CamerasPrefix(replies, k, m);
    RunThen(replies, 1, first, CamerasUpTo(replies, m)[|first|..]);
  }

  /** The run decides which camera stopped it: one camera only is reached by a run that then stops within it. */
  lemma CamerasStopUnique(replies: seq<Reply>, k: int, m: int)
    requires StoppedIn(replies, k) && StoppedIn(replies, m)
    ensures k == m
  {
    if k < m {
      CamerasStopPersists(replies, k + 1, m);
    } else if m < k {
      CamerasStopPersists(replies, m + 1, k);
    }
  }

  /** A run that stopped while describing camera i stopped in the same place within the descriptions of all count cameras. */
  lemma CamerasStopped(replies: seq<Reply>, c0: seq<Call>, c1: seq<Call>, i: nat, count: int, stop: Exit)
    requires i < count
    requires Ran(replies, c0, c1, CamerasUpTo(replies, i + 1), Some(stop))
    ensures Ran(replies, c0, c1, CamerasUpTo(replies, count), Some(stop))
  {
    var upTo := CamerasUpTo(replies, i + 1);
    CamerasPrefix(replies, i + 1, count);
    RanStopped(replies, c0, c1, upTo, CamerasUpTo(replies, count)[|upTo|..], stop);
  }

  /** One more camera, one more start position. */
  lemma StartsStep(replies: seq<Reply>, i: nat)
    ensures CameraStarts(replies, i + 1) == CameraStarts(replies, i) + [1 + |CamerasUpTo(replies, i)|]
  {
    var a := CameraStarts(replies, i + 1);
    var b := CameraStarts(replies, i) + [1 + |CamerasUpTo(replies, i)|];
    forall k | 0 <= k < i + 1
      ensures a[k] == b[k]
    {
      if k < i {
        assert b[k] == CameraStarts(replies, i)[k];
      }
    }
  }

  /** One more description, one more listing. */
  lemma ListingsAtSnoc(replies: seq<Reply>, starts: seq<int>, at: int)
    ensures ListingsAt(replies, starts + [at]) == ListingsAt(replies, starts) + [ListingAt(replies, at)]
  {
    var a := ListingsAt(replies, starts + [at]);
    var b := ListingsAt(replies, starts) + [ListingAt(replies, at)];
    forall k | 0 <= k < |starts| + 1
      ensures a[k] == b[k]
    {
      if k < |starts| {
        assert (starts + [at])[k] == starts[k];
        assert b[k] == ListingsAt(replies, starts)[k];
      }
    }
  }

  /** One more camera, one more listing. */
  /** The listings of cameras 0 … i - 1, then camera i's: those of cameras 0 … i. */
  lemma ListingsSnoc(replies: seq<Reply>, i: nat, listings: seq<seq<string>>, listing: seq<string>)
    requires listings == ListingsUpTo(replies, i) && listing == ListingAt(replies, 1 + |CamerasUpTo(replies, i)|)
    ensures listings + [listing] == ListingsUpTo(replies, i + 1) && |listings + [listing]| == i + 1
  {
    ListingsStep(replies, i);
  }

  lemma ListingsStep(replies: seq<Reply>, i: nat)
    ensures ListingsUpTo(replies, i + 1) == ListingsUpTo(replies, i) + [ListingAt(replies, 1 + |CamerasUpTo(replies, i)|)]
  {
    StartsStep(replies, i);
    ListingsAtSnoc(replies, CameraStarts(replies, i), 1 + |CamerasUpTo(replies, i)|);
  }

  /** The count message is singular for exactly one camera, and distinct counts give distinct messages. */
  lemma CountMessageInjective(a: int, b: int)
    ensures CountMessage(a) == "1 camera detected!\n" <==> a == 1
    ensures CountMessage(a) == CountMessage(b) ==> a == b
  {
    var suffix := " cameras detected!\n";
    DecimalRoundTrip(a);
    DecimalRoundTrip(b);
    assert |"1 camera detected!\n"| == |suffix|;
    if CountMessage(a) == CountMessage(b) && a != 1 && b != 1 {
      var da := IntToDecimal(a);
      var db := IntToDecimal(b);
      assert da + suffix == db + suffix;
      assert da == (da + suffix)[..|da|];
      assert |da| == |db|;
      assert db == (db + suffix)[..|db|];
    }
  }
}
