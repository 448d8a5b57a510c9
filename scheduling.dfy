/** Waits that a Unity script starts and the engine resumes later: a coroutine blocked in
    `yield return new WaitForSeconds(t)`, an `Invoke(name, t)` and a delayed `Destroy(obj, t)`.
    Each object keeps its pending waits as a sequence in the order they were started; a frame
    of `dt` seconds counts every wait down, and the waits whose time has run out resume, in
    start order. */
module Scheduling {

  datatype Wait<E> = Wait(remaining: real, resume: E)

  /** Every pending wait, `dt` seconds later. */
  function Countdown<E>(ws: seq<Wait<E>>, dt: real): (r: seq<Wait<E>>)
    ensures |r| == |ws|
    ensures forall i :: 0 <= i < |ws| ==> r[i] == Wait(ws[i].remaining - dt, ws[i].resume)
  {
    if ws == [] then [] else [Wait(ws[0].remaining - dt, ws[0].resume)] + Countdown(ws[1..], dt)
  }

  /** What each pending wait will resume, in start order. */
  function Resumes<E>(ws: seq<Wait<E>>): (r: seq<E>)
    ensures |r| == |ws|
    ensures forall i :: 0 <= i < |ws| ==> r[i] == ws[i].resume
  {
    if ws == [] then [] else [ws[0].resume] + Resumes(ws[1..])
  }

  /** The resumptions whose wait has run out, in start order. */
  function Due<E>(ws: seq<Wait<E>>): (r: seq<E>)
    ensures |r| <= |ws|
  {
    if ws == [] then []
    else (if ws[0].remaining <= 0.0 then [ws[0].resume] else []) + Due(ws[1..])
  }

  /** The waits still running, in start order. */
  function Later<E>(ws: seq<Wait<E>>): (r: seq<Wait<E>>)
    ensures |r| <= |ws|
  {
    if ws == [] then []
    else (if ws[0].remaining > 0.0 then [ws[0]] else []) + Later(ws[1..])
  }

  /** A frame splits the pending waits without losing or duplicating any: every wait either
      resumes now or keeps running. */
  lemma {:induction false} SplitIsPartition<E>(ws: seq<Wait<E>>)
    ensures multiset(Resumes(ws)) == multiset(Due(ws)) + multiset(Resumes(Later(ws)))
  {
    if ws != [] {
      var rest := ws[1..];
      SplitIsPartition(rest);
      assert Resumes(ws) == [ws[0].resume] + Resumes(rest);
      if ws[0].remaining <= 0.0 {
        SplitDue(ws);
      } else {
        SplitLater(ws);
      }
    }
  }

  /** One frame, when the oldest wait has run out. */
  lemma SplitDue<E>(ws: seq<Wait<E>>)
    requires ws != [] && ws[0].remaining <= 0.0
    ensures Due(ws) == [ws[0].resume] + Due(ws[1..]) && Later(ws) == Later(ws[1..])
  {}

  /** One frame, when the oldest wait keeps running. */
  lemma SplitLater<E>(ws: seq<Wait<E>>)
    requires ws != [] && ws[0].remaining > 0.0
    ensures Due(ws) == Due(ws[1..]) && Resumes(Later(ws)) == [ws[0].resume] + Resumes(Later(ws[1..]))
  {
    assert Later(ws) == [ws[0]] + Later(ws[1..]);
  }

  /** A wait resumes in the frame where its time runs out, and only then. */
  lemma {:induction false} DueExactly<E>(ws: seq<Wait<E>>, i: nat)
    requires i < |ws|
    ensures ws[i].remaining <= 0.0 ==> ws[i].resume in Due(ws)
    ensures ws[i].remaining > 0.0 ==> ws[i] in Later(ws)
  {
    if i > 0 {
      DueExactly(ws[1..], i - 1);
    }
  }

  /** Every wait that keeps running still has time left. */
  lemma {:induction false} LaterStillRunning<E>(ws: seq<Wait<E>>)
    ensures forall w :: w in Later(ws) ==> w in ws && w.remaining > 0.0
  {
    if ws != [] {
      LaterStillRunning(ws[1..]);
    }
  }

  /** Every wait lands on exactly one side of the split. */
  lemma {:induction false} SplitSizes<E>(ws: seq<Wait<E>>)
    ensures |Due(ws)| + |Later(ws)| == |ws|
  {
    if ws != [] {
      SplitSizes(ws[1..]);
    }
  }

  /** Two frames count down as much as one frame of their combined length: a wait of `t`
      seconds resumes on the first frame by which `t` seconds have passed. */
  lemma CountdownComposes<E>(ws: seq<Wait<E>>, dt1: real, dt2: real)
    ensures Countdown(Countdown(ws, dt1), dt2) == Countdown(ws, dt1 + dt2)
  {
    var twice, once := Countdown(Countdown(ws, dt1), dt2), Countdown(ws, dt1 + dt2);
    assert |twice| == |once|;
    forall i | 0 <= i < |once|
      ensures twice[i] == once[i]
    {
    }
  }

  /** Nothing resumes while every wait still has time left. */
  lemma {:induction false} NothingDueEarly<E>(ws: seq<Wait<E>>)
    requires forall i :: 0 <= i < |ws| ==> ws[i].remaining > 0.0
    ensures Due(ws) == [] && Later(ws) == ws
  {
    if ws != [] {
      NothingDueEarly(ws[1..]);
    }
  }

  /** Counting down never changes what a wait will resume. */
  lemma CountdownKeepsResumes<E>(ws: seq<Wait<E>>, dt: real)
    ensures Resumes(Countdown(ws, dt)) == Resumes(ws)
  {
  }

  /** Starting more waits appends their resumptions. */
  lemma ResumesAppend<E>(a: seq<Wait<E>>, b: seq<Wait<E>>)
    ensures Resumes(a + b) == Resumes(a) + Resumes(b)
  {
  }
}
