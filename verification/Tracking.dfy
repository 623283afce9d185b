/**
 * The tracking frames of a journey state. A frame is stored as the string
 * `journeyID:stepID` and read back by splitting at the first colon.
 */
module Tracking {
  import opened Basics

  type Id = string

  datatype Frame = Frame(journey: Id, step: Id)

  /** The string PushTracking appends. */
  function Join(f: Frame): string {
    f.journey + ":" + f.step
  }

  /** What PopTracking and GetTracking read from one string: two empty ids when there is no colon. */
  function Split(t: string): Frame {
    var i := IndexOf(t, ':');
    if i < |t| then Frame(t[..i], t[i + 1..]) else Frame("", "")
  }

  /** A frame survives the trip through its string exactly when its journey id has no colon. */
  lemma SplitJoin(f: Frame)
    ensures Split(Join(f)) == f <==> ':' !in f.journey
  {
    var t := Join(f);
    var n := |f.journey|;
    assert t[n] == ':';
    if ':' !in f.journey {
      assert t[..n] == f.journey;
      assert IndexOf(t, ':') == n;
      assert t[n + 1..] == f.step;
    } else {
      var k :| 0 <= k < n && f.journey[k] == ':';
      assert t[k] == ':';
      assert |Split(t).journey| < n;
    }
  }

  /** Without the colon condition two different frames can share one string. */
  lemma SplitJoinFails()
    ensures Join(Frame("a:b", "")) == Join(Frame("a", "b:"))
    ensures Split(Join(Frame("a:b", ""))) == Frame("a", "b:")
  {
    var t := Join(Frame("a:b", ""));
    assert t == "a:b:" == Join(Frame("a", "b:"));
    assert t[1] == ':';
  }

  function JoinAll(frames: seq<Frame>): (r: seq<string>)
    ensures |r| == |frames|
    ensures forall i :: 0 <= i < |r| ==> r[i] == Join(frames[i])
  {
    if frames == [] then [] else JoinAll(frames[..|frames| - 1]) + [Join(frames[|frames| - 1])]
  }
}
