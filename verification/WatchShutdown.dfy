/** What the watcher's protocol promises over all of its runs, and that Close
    returns. */
module WatchShutdown {
  import opened WatchProtocol

  /** A state some interleaving of the three parties can reach. */
  ghost predicate Reachable(s: State) {
    exists actions: seq<Action> :: IsRun(Init, actions) && After(Init, actions) == s
  }

  lemma {:induction false} RunKeepsInv(s: State, actions: seq<Action>)
    requires Inv(s) && IsRun(s, actions)
    ensures Inv(After(s, actions))
    decreases |actions|
  {
    if actions != [] {
      StepKeepsInv(s, actions[0]);
      RunKeepsInv(Apply(s, actions[0]), actions[1..]);
    }
  }

  lemma ReachableInv(s: State)
    requires Reachable(s)
    ensures Inv(s)
  {
    var actions: seq<Action> :| IsRun(Init, actions) && After(Init, actions) == s;
    RunKeepsInv(Init, actions);
  }

  // ----- what the protocol promises -----

  /** Whether taking action a in s issues a read on root r. */
  predicate IssuesRead(s: State, a: Action, r: nat) {
    a.ReaderIssues? && s.reader.Rearming? && s.reader.root == r && r < |s.roots| && !s.roots[r].closed
  }

  /** No read is ever issued on a closed handle, nor while another read of the
      same root is outstanding; and Close never closes a handle with a read
      call in progress on it. */
  lemma NoReadOnClosedHandle(s: State, a: Action, r: nat)
    requires Reachable(s) && Enabled(s, a) && r < |s.roots|
    ensures IssuesRead(s, a, r) ==> s.roots[r].open && Outstanding(s, r) == 0
    ensures a.CloserClosesHandle? && s.closer.i == r ==> !ReaderHolds(s.reader, r)
  {
    ReachableInv(s);
    assert RootInv(s, r);
  }

  /** draining counts exactly the closed roots whose last completion is still
      unprocessed, including one run has noted without having called Done yet;
      so it is never negative and Done is never called on a zero counter. */
  lemma DrainingIsExact(s: State)
    requires Reachable(s)
    ensures s.draining == Owed(s) >= 0
    ensures s.reader.Owing? ==> s.draining >= 1
    ensures forall r :: 0 <= r < |s.roots| ==>
      Outstanding(s, r) == (if s.roots[r].reading || s.reader == Issued(r, true) then 1 else 0)
  {
    ReachableInv(s);
    forall r | 0 <= r < |s.roots|
      ensures Outstanding(s, r) == (if s.roots[r].reading || s.reader == Issued(r, true) then 1 else 0)
    {
      assert RootInv(s, r);
    }
  }

  /** From the moment Wait returns, and so whenever run takes the shutdown
      packet or Close closes the port, every handle is closed, the kernel owns
      no read, no completion is queued or in run's hands. */
  lemma ShutdownFindsNothingLeft(s: State)
    requires Reachable(s)
    requires WaitOver(s) || (s.reader.Waiting? && s.queue != [] && s.queue[0].Shutdown?)
    ensures WaitOver(s)
    ensures forall r :: 0 <= r < |s.roots| ==> !s.roots[r].open && !s.roots[r].pending && Outstanding(s, r) == 0
    ensures forall k :: 0 <= k < |s.queue| ==> s.queue[k].Shutdown?
    ensures s.closer.Finished? ==> s.reader.Exited?
  {
    ReachableInv(s);
    AllDrained(s);
    forall r | 0 <= r < |s.roots| ensures !s.roots[r].open && !s.roots[r].pending && Outstanding(s, r) == 0 {
      assert RootInv(s, r);
    }
    forall k | 0 <= k < |s.queue| ensures s.queue[k].Shutdown? {
      NothingQueued(s, k);
    }
  }

  predicate AllClosed(s: State) {
    forall r :: 0 <= r < |s.roots| ==> s.roots[r].closed
  }

  /** Once every root is closed, no action raises what is outstanding on any
      root, and the roots stay closed. */
  lemma ClosedOnlyDrains(s: State, a: Action, r: nat)
    requires Reachable(s) && Enabled(s, a) && !s.closer.NotStarted? && AllClosed(s) && r < |s.roots|
    ensures AllClosed(Apply(s, a))
    ensures r < |Apply(s, a).roots| && Outstanding(Apply(s, a), r) <= Outstanding(s, r)
  {
    ReachableInv(s);
    StayClosed(s, a);
    NothingNew(s, a, r);
  }

  lemma StayClosed(s: State, a: Action)
    requires Inv(s) && Enabled(s, a) && !s.closer.NotStarted? && AllClosed(s)
    ensures |Apply(s, a).roots| == |s.roots| && AllClosed(Apply(s, a))
  {
    forall k | 0 <= k < |s.roots| ensures Apply(s, a).roots[k].closed { assert s.roots[k].closed; }
  }

  lemma NothingNew(s: State, a: Action, r: nat)
    requires Inv(s) && Enabled(s, a) && !s.closer.NotStarted? && AllClosed(s) && r < |s.roots|
    ensures r < |Apply(s, a).roots| && Outstanding(Apply(s, a), r) <= Outstanding(s, r)
  {
    assert RootInv(s, r);
    match a
    case KernelCompletes(q, failed) => QueuedAppend(s.queue, Completion(q, failed), r);
    case CloserPosts(ok) => QueuedAppend(s.queue, Shutdown, r);
    case _ => SameQueue(s, a, r);
  }

  lemma SameQueue(s: State, a: Action, r: nat)
    requires Inv(s) && Enabled(s, a) && !s.closer.NotStarted? && AllClosed(s) && r < |s.roots|
    requires !a.KernelCompletes? && !a.CloserPosts?
    ensures r < |Apply(s, a).roots| && Outstanding(Apply(s, a), r) <= Outstanding(s, r)
  {
  }

  // ----- Close returns -----

  /** Every root has been through its critical section. */
  predicate Closing(s: State) {
    match s.closer
    case NotStarted => false
    case Marking(i) => i >= |s.roots|
    case Draining => true
    case Drained => true
    case PostFailed => true
    case Joining => true
    case Finished => true
    case _ => false
  }

  predicate CloseDone(s: State) { s.closer.Finished? || s.closer.PostFailed? }

  function PendingCount(roots: seq<Root>): nat
  {
    if roots == [] then 0 else
      var n := |roots| - 1;
      PendingCount(roots[..n]) + (if roots[n].pending then 1 else 0)
  }

  function QueueWeight(q: seq<Packet>): nat
  {
    if q == [] then 0 else (if q[0].Completion? then 8 else 1) + QueueWeight(q[1..])
  }

  function ReaderWeight(rd: Reader): nat {
    match rd
    case Exited => 0
    case Waiting => 1
    case Owing(_) => 2
    case Releasing(_) => 2
    case Rearming(_) => 3
    case Issued(_, _) => 3
    case Working(_, _) => 4
    case Noted(_, _, _) => 5
    case Noting(_, _) => 6
    case Dequeued(_, _) => 7
  }

  function CloserWeight(c: Closer): nat {
    match c
    case Marking(_) => 6
    case Draining => 5
    case Drained => 4
    case Joining => 1
    case _ => 0
  }

  /** What is left to do once every root is closed. */
  function Remaining(s: State): nat {
    9 * PendingCount(s.roots) + QueueWeight(s.queue) + ReaderWeight(s.reader) + CloserWeight(s.closer)
  }

  lemma {:induction false} PendingUpdate(roots: seq<Root>, r: nat, x: Root)
    requires r < |roots|
    ensures PendingCount(roots[r := x]) ==
            PendingCount(roots) - (if roots[r].pending then 1 else 0) + (if x.pending then 1 else 0)
  {
    var n := |roots| - 1;
    if r == n {
      assert roots[r := x][..n] == roots[..n];
    } else {
      assert roots[r := x][..n] == roots[..n][r := x];
      PendingUpdate(roots[..n], r, x);
    }
  }

  lemma {:induction false} WeightAppend(q: seq<Packet>, p: Packet)
    ensures QueueWeight(q + [p]) == QueueWeight(q) + (if p.Completion? then 8 else 1)
  {
    if q == [] {
      assert q + [p] == [p];
    } else {
      assert (q + [p])[1..] == q[1..] + [p];
      WeightAppend(q[1..], p);
    }
  }

  lemma ClosingMeansClosed(s: State)
    requires Inv(s) && Closing(s)
    ensures AllClosed(s) && !s.reader.Issued?
  {
    forall r | 0 <= r < |s.roots| ensures s.roots[r].closed { assert RootInv(s, r); }
  }

  /** Whatever any party does once every root is closed brings the end closer. */
  lemma StepShrinks(s: State, a: Action)
    requires Inv(s) && Closing(s) && Enabled(s, a)
    ensures Closing(Apply(s, a)) && Remaining(Apply(s, a)) < Remaining(s)
  {
    ClosingMeansClosed(s);
    match a
    case KernelCompletes(r, failed) => KernelShrinks(s, r, failed);
    case ReaderLocks => RootStepShrinks(s, a);
    case ReaderNotes => RootStepShrinks(s, a);
    case ReaderReleases => RootStepShrinks(s, a);
    case ReaderLocksAgain => RootStepShrinks(s, a);
    case ReaderUnlocks => RootStepShrinks(s, a);
    case CloserPosts(ok) => PostShrinks(s, ok);
    case _ => QuietStepShrinks(s, a);
  }

  lemma KernelShrinks(s: State, r: nat, failed: bool)
    requires Closing(s) && r < |s.roots| && s.roots[r].pending
    ensures Closing(Apply(s, KernelCompletes(r, failed)))
    ensures Remaining(Apply(s, KernelCompletes(r, failed))) < Remaining(s)
  {
    PendingUpdate(s.roots, r, s.roots[r].(pending := false));
    WeightAppend(s.queue, Completion(r, failed));
  }

  lemma PostShrinks(s: State, ok: bool)
    requires s.closer.Drained?
    ensures Closing(Apply(s, CloserPosts(ok))) && Remaining(Apply(s, CloserPosts(ok))) < Remaining(s)
  {
    WeightAppend(s.queue, Shutdown);
  }

  lemma RootStepShrinks(s: State, a: Action)
    requires Inv(s) && Closing(s) && Enabled(s, a)
    requires a.ReaderLocks? || a.ReaderNotes? || a.ReaderReleases? || a.ReaderLocksAgain? || a.ReaderUnlocks?
    ensures Closing(Apply(s, a)) && Remaining(Apply(s, a)) < Remaining(s)
  {
    PendingUpdate(s.roots, s.reader.root, Apply(s, a).roots[s.reader.root]);
  }

  lemma QuietStepShrinks(s: State, a: Action)
    requires Inv(s) && Closing(s) && Enabled(s, a) && AllClosed(s) && !s.reader.Issued?
    requires !a.KernelCompletes? && !a.CloserPosts?
    requires !a.ReaderLocks? && !a.ReaderNotes? && !a.ReaderReleases? && !a.ReaderLocksAgain? && !a.ReaderUnlocks?
    ensures Closing(Apply(s, a)) && Remaining(Apply(s, a)) < Remaining(s)
  {
  }

  /** From the start of Close until it returns, some party other than a failing
      port can always move: the mutexes and the WaitGroup never deadlock. */
  lemma NeverStuck(s: State) returns (a: Action)
    requires Reachable(s) && !s.closer.NotStarted? && !CloseDone(s) && !s.portFailed
    ensures Enabled(s, a) && !a.PortFails?
  {
    ReachableInv(s);
    if s.reader.Exited? {
      a := CloserJoins;
    } else if s.reader.Waiting? {
      a := CloserOrKernelMoves(s);
    } else {
      assert RootInv(s, s.reader.root);
      a := ReaderOrCloserMoves(s);
    }
  }

  lemma ReaderOrCloserMoves(s: State) returns (a: Action)
    requires Inv(s) && !s.reader.Exited? && !s.reader.Waiting?
    ensures Enabled(s, a) && !a.PortFails?
  {
    assert RootInv(s, s.reader.root);
    match s.reader
    case Noting(_, _) => a := ReaderNotes;
    case Noted(_, _, _) => a := ReaderReleases;
    case Owing(_) => a := ReaderDone;
    case Rearming(_) => a := ReaderIssues(true);
    case Issued(_, _) => a := ReaderRecords;
    case Releasing(_) => a := ReaderUnlocks;
    case Dequeued(r, _) => a := if s.roots[r].lock.Free? then ReaderLocks else CriticalAction(s.closer);
    case Working(r, _) => a := if s.roots[r].lock.Free? then ReaderLocksAgain else CriticalAction(s.closer);
  }

  /** What Close does next inside a root's critical section. */
  function CriticalAction(c: Closer): Action {
    match c
    case Held(_) => CloserMarks
    case Marked(_) => CloserCounts
    case Counted(_) => CloserClosesHandle
    case _ => CloserUnlocks
  }

  lemma CloserOrKernelMoves(s: State) returns (a: Action)
    requires Inv(s) && s.reader.Waiting? && !s.closer.NotStarted? && !CloseDone(s) && !s.portFailed
    ensures Enabled(s, a) && !a.PortFails?
  {
    match s.closer
    case Marking(i) =>
      if i < |s.roots| {
        assert RootInv(s, i);
        a := CloserLocks;
      } else {
        a := CloserWaits;
      }
    case Draining =>
      if s.draining == 0 {
        a := WaitReturns;
      } else {
        var r := UndrainedPositive(s.roots);
        assert RootInv(s, r);
        a := if s.roots[r].pending then KernelCompletes(r, true) else Dequeue;
      }
    case Drained => a := CloserPosts(true);
    case Joining => a := Dequeue;
    case _ => a := CriticalAction(s.closer);
  }

  /** Once every root has been closed, Close comes to its end under every
      schedule: no run from here is longer than Remaining(s), and one that
      cannot be continued has Close returned, provided the port did not fail. */
  lemma {:induction false} CloseReturns(s: State, actions: seq<Action>)
    requires Reachable(s) && Closing(s) && IsRun(s, actions)
    ensures |actions| <= Remaining(s)
    ensures !After(s, actions).portFailed && (forall a :: Enabled(After(s, actions), a) ==> a.PortFails?)
            ==> CloseDone(After(s, actions))
    decreases |actions|
  {
    ReachableInv(s);
    if actions != [] {
      StepShrinks(s, actions[0]);
      ReachableStep(s, actions[0]);
      CloseReturns(Apply(s, actions[0]), actions[1..]);
    } else if !CloseDone(s) && !s.portFailed {
      var a := NeverStuck(s);
    }
  }

  // ----- a port that failed -----

  /** With run gone, nobody takes note of a completion any more. */
  lemma FailedPortKeepsReads(s: State, a: Action, r: nat)
    requires Inv(s) && s.portFailed && !s.closer.NotStarted? && Enabled(s, a) && r < |s.roots|
    ensures Apply(s, a).portFailed && !Apply(s, a).closer.NotStarted? && |Apply(s, a).roots| == |s.roots|
    ensures Apply(s, a).roots[r].reading == s.roots[r].reading
  {
  }

  /** Close waits for ever on a count nobody lowers. */
  predicate Hangs(s: State) { s.closer.Draining? && s.draining > 0 }

  lemma FailedPortMoves(s: State) returns (a: Action)
    requires Inv(s) && s.portFailed && !s.closer.NotStarted? && !CloseDone(s) && !Hangs(s)
    ensures Enabled(s, a) && !a.PortFails?
  {
    match s.closer
    case Marking(i) =>
      a := CloserWaits;
      if i < |s.roots| {
        assert RootInv(s, i);
        a := CloserLocks;
      }
    case Draining => a := WaitReturns;
    case Drained => a := CloserPosts(true);
    case Joining => a := CloserJoins;
    case _ => a := CriticalAction(s.closer);
  }

  lemma EndOfFailedRun(s: State)
    requires Inv(s) && s.portFailed && CloseDone(s) != Hangs(s)
    ensures CloseDone(s) <==> forall r :: 0 <= r < |s.roots| ==> !s.roots[r].reading
  {
    ClosingMeansClosed(s);
    UndrainedZeroIff(s.roots);
  }

  /** draining is zero exactly when no closed root has a read on record. */
  lemma {:induction false} UndrainedZeroIff(roots: seq<Root>)
    requires forall r :: 0 <= r < |roots| ==> roots[r].closed
    ensures Undrained(roots, -1) == 0 <==> forall r :: 0 <= r < |roots| ==> !roots[r].reading
  {
    if roots != [] { UndrainedZeroIff(roots[..|roots| - 1]); }
  }

  /** The other way for a run to end: once the port has failed, Close returns if
      and only if no root had a read whose completion run had not taken note of;
      otherwise it waits for ever. */
  lemma {:induction false} FailedPortHangsIff(s: State, actions: seq<Action>)
    requires Reachable(s) && s.portFailed && !s.closer.NotStarted? && IsRun(s, actions)
    requires forall a :: Enabled(After(s, actions), a) ==> a.PortFails?
    ensures CloseDone(After(s, actions)) <==> forall r :: 0 <= r < |s.roots| ==> !s.roots[r].reading
    decreases |actions|
  {
    ReachableInv(s);
    if actions == [] {
      if !CloseDone(s) && !Hangs(s) {
        var a := FailedPortMoves(s);
      }
      EndOfFailedRun(s);
    } else {
      var s' := Apply(s, actions[0]);
      ReachableStep(s, actions[0]);
      FailedPortHangsIff(s', actions[1..]);
      forall r | 0 <= r < |s.roots|
        ensures |s'.roots| == |s.roots| && s'.roots[r].reading == s.roots[r].reading && s'.portFailed
      {
        FailedPortKeepsReads(s, actions[0], r);
      }
    }
  }

  lemma ReachableStep(s: State, a: Action)
    requires Reachable(s) && Enabled(s, a)
    ensures Reachable(Apply(s, a))
  {
    var actions: seq<Action> :| IsRun(Init, actions) && After(Init, actions) == s;
    RunAppend(Init, actions, a);
  }

  lemma {:induction false} RunAppend(s: State, actions: seq<Action>, a: Action)
    requires IsRun(s, actions) && Enabled(After(s, actions), a)
    ensures IsRun(s, actions + [a]) && After(s, actions + [a]) == Apply(After(s, actions), a)
    decreases |actions|
  {
    if actions == [] {
      assert actions + [a] == [a];
    } else {
      assert (actions + [a])[1..] == actions[1..] + [a];
      RunAppend(Apply(s, actions[0]), actions[1..], a);
    }
  }

  lemma Then(s: State, a: Action) returns (s': State)
    requires Reachable(s) && Enabled(s, a)
    ensures s' == Apply(s, a) && Reachable(s')
  {
    s' := Apply(s, a);
    ReachableStep(s, a);
  }

  /** Such runs exist: one root is armed, Close cancels its read, run accounts for
      the aborted completion, takes the shutdown packet and is joined. */
  lemma CloseCanFinish() returns (s: State)
    ensures Reachable(s) && s.closer.Finished? && s.reader.Exited? && |s.roots| == 1
  {
    s := Posting();
    s := Then(s, CloserPosts(true));
    s := Then(s, Dequeue);
    s := Then(s, CloserJoins);
  }

  lemma Posting() returns (s: State)
    ensures Reachable(s)
    ensures s == State([Root(Free, true, false, false, false)], 1, [], Waiting, Drained, 0, false)
  {
    s := Accounted();
    s := Then(s, ReaderDone);
    s := Then(s, CloserWaits);
    s := Then(s, WaitReturns);
  }

  lemma Accounted() returns (s: State)
    ensures Reachable(s)
    ensures s == State([Root(Free, true, false, false, false)], 1, [], Owing(0), Marking(1), 1, false)
  {
    s := Completed();
    s := Then(s, ReaderLocks);
    s := Then(s, ReaderNotes);
    s := Then(s, ReaderReleases);
    assert s.roots == [Root(Free, true, false, false, false)];
  }

  lemma Completed() returns (s: State)
    ensures Reachable(s)
    ensures s == State([Root(Free, true, true, false, false)], 1, [], Dequeued(0, true), Marking(1), 1, false)
  {
    s := ArmedAndClosed();
    s := Then(s, KernelCompletes(0, true));
    s := Then(s, Dequeue);
    assert s.roots == [Root(Free, true, true, false, false)];
  }

  lemma ArmedAndClosed() returns (s: State)
    ensures Reachable(s)
    ensures s == State([Root(Free, true, true, false, true)], 1, [], Waiting, Marking(1), 1, false)
  {
    s := ArmedAndMarked();
    s := Then(s, CloserCounts);
    s := Then(s, CloserClosesHandle);
    s := Then(s, CloserUnlocks);
    assert s.roots == [Root(Free, true, true, false, true)];
  }

  lemma ArmedAndMarked() returns (s: State)
    ensures Reachable(s)
    ensures s == State([Root(ByCloser, true, true, true, true)], 1, [], Waiting, Marked(0), 0, false)
  {
    s := Armed();
    s := Then(s, CloseStarts);
    s := Then(s, CloserLocks);
    s := Then(s, CloserMarks);
    assert s.roots == [Root(ByCloser, true, true, true, true)];
  }

  lemma Armed() returns (s: State)
    ensures Reachable(s) && s == State([Fresh], 1, [], Waiting, NotStarted, 0, false)
  {
    InitReachable();
    s := Then(Init, ArmRoot);
    s := Then(s, PublishRoot);
    assert s.roots == [Fresh];
  }

  /** The port fails with a read outstanding, and then Close waits for ever. */
  lemma FailedPortCanHang() returns (s: State)
    ensures Reachable(s) && s.portFailed && Hangs(s)
    ensures forall a :: Enabled(s, a) && !a.KernelCompletes? ==> a.PortFails?
  {
    s := MarkedWithoutReader();
    s := Then(s, CloserCounts);
    s := Then(s, CloserClosesHandle);
    s := Then(s, CloserUnlocks);
    s := Then(s, CloserWaits);
  }

  lemma MarkedWithoutReader() returns (s: State)
    ensures Reachable(s)
    ensures s == State([Root(ByCloser, true, true, true, true)], 1, [], Exited, Marked(0), 0, true)
  {
    s := Armed();
    s := Then(s, PortFails);
    s := Then(s, CloseStarts);
    s := Then(s, CloserLocks);
    s := Then(s, CloserMarks);
    assert s.roots == [Root(ByCloser, true, true, true, true)];
  }

  lemma InitReachable()
    ensures Reachable(Init)
  {
    assert IsRun(Init, []) && After(Init, []) == Init;
  }

  // ----- the shutdown packet -----

  lemma StepGivesUp(s: State, a: Action)
    requires Enabled(s, a)
    ensures Apply(s, a).closer.PostFailed? <==> s.closer.PostFailed? || a == CloserPosts(false)
  {
  }

  /** Close gives up, without joining run, exactly when its packet could not be
      posted. */
  lemma {:induction false} GivesUpIff(s: State, actions: seq<Action>)
    requires IsRun(s, actions)
    ensures After(s, actions).closer.PostFailed? <==> s.closer.PostFailed? || CloserPosts(false) in actions
    decreases |actions|
  {
    if actions != [] {
      StepGivesUp(s, actions[0]);
      GivesUpIff(Apply(s, actions[0]), actions[1..]);
    }
  }
}
