/** The shutdown and re-arm protocol of the recursive directory watcher.

    Three parties share the state: the reader goroutine (`run`), the closer
    (`Close`) and the kernel, which completes outstanding reads whenever it
    likes.  Every statement that touches shared state is a step of its own, so
    that a run of the model is an arbitrary interleaving of the three. */
module WatchProtocol {

  /** Who holds a root's mutex. */
  datatype Holder = Free | ByReader | ByCloser

  /** One recursiveRoot.  `open` is the handle, `pending` says that the kernel
      owns an unfinished read on it. */
  datatype Root = Root(lock: Holder, closed: bool, reading: bool, open: bool, pending: bool)

  /** What the completion port delivers.  Shutdown is the packet with a nil overlapped. */
  datatype Packet = Completion(root: nat, failed: bool) | Shutdown

  /** Program counter of `run`. */
  datatype Reader =
    | Waiting                                      // in GetQueuedCompletionStatus
    | Dequeued(root: nat, failed: bool)            // before the first mu.Lock
    | Noting(root: nat, failed: bool)              // holds mu, reading not cleared yet
    | Noted(root: nat, failed: bool, was: bool)    // holds mu, reading cleared, closed read into was
    | Owing(root: nat)                             // released, about to call draining.Done
    | Working(root: nat, failed: bool)             // decoding or logging, before the second mu.Lock
    | Rearming(root: nat)                          // holds mu, about to test closed
    | Issued(root: nat, ok: bool)                  // holds mu, ReadDirectoryChanges has returned
    | Releasing(root: nat)                         // holds mu, about to unlock
    | Exited

  /** Program counter of `Close`. */
  datatype Closer =
    | NotStarted
    | Marking(i: nat)       // about to lock root i; past the last root, about to wait
    | Held(i: nat)          // holds mu of root i
    | Marked(i: nat)        // closed := true done
    | Counted(i: nat)       // draining.Add done where needed
    | HandleClosed(i: nat)  // handle cancelled and closed, mu still held
    | Draining              // in draining.Wait
    | Drained               // Wait returned
    | PostFailed            // PostQueuedCompletionStatus failed: Close gave up
    | Joining               // in wg.Wait
    | Finished              // port closed

  datatype State = State(
    roots: seq<Root>, published: nat, queue: seq<Packet>,
    reader: Reader, closer: Closer, draining: int, portFailed: bool)

  datatype Action =
    | ArmRoot | PublishRoot
    | KernelCompletes(r: nat, failed: bool)
    | Dequeue | PortFails
    | ReaderLocks | ReaderNotes | ReaderReleases | ReaderDone
    | ReaderLocksAgain | ReaderIssues(ok: bool) | ReaderRecords | ReaderUnlocks
    | CloseStarts | CloserLocks | CloserMarks | CloserCounts | CloserClosesHandle | CloserUnlocks
    | CloserWaits | WaitReturns | CloserPosts(ok: bool) | CloserJoins

  const Fresh := Root(Free, false, true, true, true)

  const Init := State([], 0, [], Waiting, NotStarted, 0, false)

  /** Whether an action can happen now: program counters, mutexes that must be
      free, the port that must hold a packet, the WaitGroup that must be zero. */
  predicate Enabled(s: State, a: Action)
  {
    match a
    case ArmRoot => s.closer == NotStarted
    case PublishRoot => s.closer == NotStarted && s.published < |s.roots|
    case KernelCompletes(r, _) => r < |s.roots| && s.roots[r].pending
    case Dequeue => s.reader.Waiting? && s.queue != []
    case PortFails => s.reader.Waiting?
    case ReaderLocks => s.reader.Dequeued? && s.reader.root < |s.roots| && s.roots[s.reader.root].lock.Free?
    case ReaderNotes => s.reader.Noting? && s.reader.root < |s.roots|
    case ReaderReleases => s.reader.Noted? && s.reader.root < |s.roots|
    case ReaderDone => s.reader.Owing?
    case ReaderLocksAgain => s.reader.Working? && s.reader.root < |s.roots| && s.roots[s.reader.root].lock.Free?
    case ReaderIssues(_) => s.reader.Rearming? && s.reader.root < |s.roots|
    case ReaderRecords => s.reader.Issued? && s.reader.root < |s.roots|
    case ReaderUnlocks => s.reader.Releasing? && s.reader.root < |s.roots|
    case CloseStarts => s.closer.NotStarted? && s.published == |s.roots|
    case CloserLocks => s.closer.Marking? && s.closer.i < |s.roots| && s.roots[s.closer.i].lock.Free?
    case CloserMarks => s.closer.Held? && s.closer.i < |s.roots|
    case CloserCounts => s.closer.Marked? && s.closer.i < |s.roots|
    case CloserClosesHandle => s.closer.Counted? && s.closer.i < |s.roots|
    case CloserUnlocks => s.closer.HandleClosed? && s.closer.i < |s.roots|
    case CloserWaits => s.closer.Marking? && s.closer.i >= |s.roots|
    case WaitReturns => s.closer.Draining? && s.draining == 0
    case CloserPosts(_) => s.closer.Drained?
    case CloserJoins => s.closer.Joining? && s.reader.Exited?
  }

  function WithRoot(s: State, r: nat, root: Root): State
    requires r < |s.roots|
  {
    s.(roots := s.roots[r := root])
  }

  /** The effect of one action. */
  function Apply(s: State, a: Action): State
    requires Enabled(s, a)
  {
    match a
    case ArmRoot => s.(roots := s.roots + [Fresh])
    case PublishRoot => s.(published := s.published + 1)
    case KernelCompletes(r, failed) =>
      WithRoot(s, r, s.roots[r].(pending := false)).(queue := s.queue + [Completion(r, failed)])
    case Dequeue =>
      (match s.queue[0]
       case Shutdown => s.(reader := Exited, queue := s.queue[1..])
       case Completion(r, failed) => s.(reader := Dequeued(r, failed), queue := s.queue[1..]))
    case PortFails => s.(reader := Exited, portFailed := true)
    case ReaderLocks =>
      var r := s.reader.root;
      WithRoot(s, r, s.roots[r].(lock := ByReader)).(reader := Noting(r, s.reader.failed))
    case ReaderNotes =>
      var r := s.reader.root;
      WithRoot(s, r, s.roots[r].(reading := false)).(reader := Noted(r, s.reader.failed, s.roots[r].closed))
    case ReaderReleases =>
      var r := s.reader.root;
      WithRoot(s, r, s.roots[r].(lock := Free)).(reader := if s.reader.was then Owing(r)
        else Working(r, s.reader.failed))
    case ReaderDone => s.(draining := s.draining - 1, reader := Waiting)
    case ReaderLocksAgain =>
      var r := s.reader.root;
      WithRoot(s, r, s.roots[r].(lock := ByReader)).(reader := Rearming(r))
    case ReaderIssues(ok) =>
      var r := s.reader.root;
      if s.roots[r].closed then s.(reader := Releasing(r))
      else WithRoot(s, r, s.roots[r].(pending := ok)).(reader := Issued(r, ok))
    case ReaderRecords =>
      var r := s.reader.root;
      WithRoot(s, r, s.roots[r].(reading := s.reader.ok)).(reader := Releasing(r))
    case ReaderUnlocks =>
      var r := s.reader.root;
      WithRoot(s, r, s.roots[r].(lock := Free)).(reader := Waiting)
    case CloseStarts => s.(closer := Marking(0))
    case CloserLocks =>
      var i := s.closer.i;
      WithRoot(s, i, s.roots[i].(lock := ByCloser)).(closer := Held(i))
    case CloserMarks =>
      var i := s.closer.i;
      WithRoot(s, i, s.roots[i].(closed := true)).(closer := Marked(i))
    case CloserCounts =>
      var i := s.closer.i;
      s.(draining := s.draining + (if s.roots[i].reading then 1 else 0), closer := Counted(i))
    case CloserClosesHandle =>
      var i := s.closer.i;
      WithRoot(s, i, s.roots[i].(open := false)).(closer := HandleClosed(i))
    case CloserUnlocks =>
      var i := s.closer.i;
      WithRoot(s, i, s.roots[i].(lock := Free)).(closer := Marking(i + 1))
    case CloserWaits => s.(closer := Draining)
    case WaitReturns => s.(closer := Drained)
    case CloserPosts(ok) =>
      if ok then s.(queue := s.queue + [Shutdown], closer := Joining) else s.(closer := PostFailed)
    case CloserJoins => s.(closer := Finished)
  }

  /** A run from s: the states after each action, if every action is enabled in turn. */
  predicate IsRun(s: State, actions: seq<Action>)
    decreases |actions|
  {
    actions == [] || (Enabled(s, actions[0]) && IsRun(Apply(s, actions[0]), actions[1..]))
  }

  function After(s: State, actions: seq<Action>): State
    requires IsRun(s, actions)
    decreases |actions|
  {
    if actions == [] then s else After(Apply(s, actions[0]), actions[1..])
  }

  // ----- what is outstanding -----

  function Queued(q: seq<Packet>, r: nat): nat
  {
    if q == [] then 0 else (if q[0].Completion? && q[0].root == r then 1 else 0) + Queued(q[1..], r)
  }

  predicate InHand(s: State, r: nat) {
    (s.reader.Dequeued? || s.reader.Noting?) && s.reader.root == r
  }

  /** Reads of root r that were issued and whose completion run has not taken
      note of yet: in the kernel, in the port's queue, or in run's hands. */
  function Outstanding(s: State, r: nat): nat
    requires r < |s.roots|
  {
    (if s.roots[r].pending then 1 else 0) + Queued(s.queue, r) + (if InHand(s, r) then 1 else 0)
  }

  function TotalOutstanding(s: State, n: nat): nat
    requires n <= |s.roots|
  {
    if n == 0 then 0 else TotalOutstanding(s, n - 1) + Outstanding(s, n - 1)
  }

  /** Closed roots with a read outstanding, leaving out the root Close is in
      the middle of (marked, not counted yet). */
  function Undrained(roots: seq<Root>, skip: int): nat
  {
    if roots == [] then 0 else
      var n := |roots| - 1;
      Undrained(roots[..n], skip) + (if roots[n].closed && roots[n].reading && n != skip then 1 else 0)
  }

  function Skip(c: Closer): int { if c.Marked? then c.i else -1 }

  /** run has taken note of a closed root's last completion and has not called Done yet. */
  predicate OwesDone(rd: Reader) { rd.Owing? || (rd.Noted? && rd.was) }

  /** How many calls of draining.Done are still to come. */
  function Owed(s: State): nat {
    Undrained(s.roots, Skip(s.closer)) + (if OwesDone(s.reader) then 1 else 0)
  }

  // ----- the invariant -----

  predicate ReaderHolds(rd: Reader, r: nat) {
    (rd.Noting? || rd.Noted? || rd.Rearming? || rd.Issued? || rd.Releasing?) && rd.root == r
  }

  predicate CloserHolds(c: Closer, r: nat) {
    (c.Held? || c.Marked? || c.Counted? || c.HandleClosed?) && c.i == r
  }

  /** Roots below this index carry closed == true. */
  function ClosedBelow(s: State): int {
    match s.closer
    case NotStarted => 0
    case Marking(i) => i
    case Held(i) => i
    case Marked(i) => i + 1
    case Counted(i) => i + 1
    case HandleClosed(i) => i + 1
    case _ => |s.roots|
  }

  /** Roots below this index have their handle closed. */
  function HandlesClosedBelow(s: State): int {
    match s.closer
    case Marked(i) => i
    case Counted(i) => i
    case _ => ClosedBelow(s)
  }

  predicate WaitOver(s: State) {
    s.closer.Drained? || s.closer.PostFailed? || s.closer.Joining? || s.closer.Finished?
  }

  predicate Posted(s: State) { s.closer.Joining? || s.closer.Finished? }

  ghost predicate RootInv(s: State, r: nat)
    requires r < |s.roots|
  {
    var root := s.roots[r];
    && Outstanding(s, r) == (if root.reading || s.reader == Issued(r, true) then 1 else 0)
    && (root.lock.ByReader? <==> ReaderHolds(s.reader, r))
    && (root.lock.ByCloser? <==> CloserHolds(s.closer, r))
    && (root.closed <==> r < ClosedBelow(s))
    && (!root.open <==> r < HandlesClosedBelow(s))
  }

  ghost predicate ReaderInv(s: State) {
    && (!s.reader.Waiting? && !s.reader.Exited? ==> s.reader.root < |s.roots|)
    && (s.reader.Issued? ==> !s.roots[s.reader.root].closed && !s.roots[s.reader.root].reading)
    && (s.reader.Noted? || s.reader.Working? || s.reader.Rearming? ==> !s.roots[s.reader.root].reading)
    && (s.reader.Noted? ==> s.reader.was == s.roots[s.reader.root].closed)
    && (s.reader.Exited? ==> s.portFailed || Posted(s))
    && (s.portFailed ==> s.reader.Exited?)
  }

  ghost predicate QueueInv(s: State) {
    && (forall k :: 0 <= k < |s.queue| && s.queue[k].Completion? ==> s.queue[k].root < |s.roots|)
    && (!Posted(s) ==> forall k :: 0 <= k < |s.queue| ==> s.queue[k].Completion?)
    && (Posted(s) && !s.portFailed ==> s.queue == (if s.reader.Exited? then [] else [Shutdown]))
    && (Posted(s) ==> s.queue == [] || s.queue == [Shutdown])
    && (s.closer.Finished? ==> s.reader.Exited?)
  }

  ghost predicate CloserInv(s: State) {
    && s.published <= |s.roots|
    && (!s.closer.NotStarted? ==> s.published == |s.roots|)
    && (s.closer.Marking? ==> s.closer.i <= |s.roots|)
    && (s.closer.Held? || s.closer.Marked? || s.closer.Counted? || s.closer.HandleClosed? ==> s.closer.i < |s.roots|)
    && (WaitOver(s) ==> s.draining == 0)
  }

  ghost predicate Inv(s: State) {
    && (forall r :: 0 <= r < |s.roots| ==> RootInv(s, r))
    && ReaderInv(s)
    && QueueInv(s)
    && CloserInv(s)
    && s.draining == Owed(s)
  }

  // ----- counting lemmas -----

  lemma {:induction false} QueuedAppend(q: seq<Packet>, p: Packet, r: nat)
    ensures Queued(q + [p], r) == Queued(q, r) + (if p.Completion? && p.root == r then 1 else 0)
  {
    if q == [] {
      assert q + [p] == [p];
    } else {
      assert (q + [p])[1..] == q[1..] + [p];
      QueuedAppend(q[1..], p, r);
    }
  }

  lemma {:induction false} QueuedOnce(q: seq<Packet>, k: nat)
    requires k < |q| && q[k].Completion?
    ensures Queued(q, q[k].root) >= 1
  {
    if k > 0 { QueuedOnce(q[1..], k - 1); }
  }

  lemma {:induction false} QueuedNone(q: seq<Packet>, r: nat)
    requires forall k :: 0 <= k < |q| && q[k].Completion? ==> q[k].root < r
    ensures Queued(q, r) == 0
  {
    if q != [] {
      assert q[0].Completion? ==> q[0].root < r;
      forall k | 0 <= k < |q[1..]| && q[1..][k].Completion? ensures q[1..][k].root < r {
        assert q[1..][k] == q[k + 1];
      }
      QueuedNone(q[1..], r);
    }
  }

  /** Changing one root moves the count by that root's own contribution. */
  lemma {:induction false} UndrainedUpdate(roots: seq<Root>, r: nat, x: Root, skip: int)
    requires r < |roots|
    ensures Undrained(roots[r := x], skip) ==
            Undrained(roots, skip)
            - (if roots[r].closed && roots[r].reading && r != skip then 1 else 0)
            + (if x.closed && x.reading && r != skip then 1 else 0)
  {
    var n := |roots| - 1;
    if r == n {
      assert roots[r := x][..n] == roots[..n];
    } else {
      assert roots[r := x][..n] == roots[..n][r := x];
      UndrainedUpdate(roots[..n], r, x, skip);
    }
  }

  /** Leaving a root out, or not, moves the count by that root's contribution. */
  lemma {:induction false} UndrainedSkip(roots: seq<Root>, r: nat)
    requires r < |roots|
    ensures Undrained(roots, -1) == Undrained(roots, r) + (if roots[r].closed && roots[r].reading then 1 else 0)
  {
    var n := |roots| - 1;
    if r == n {
      UndrainedBeyond(roots[..n], r);
    } else {
      UndrainedSkip(roots[..n], r);
    }
  }

  lemma {:induction false} UndrainedBeyond(roots: seq<Root>, r: nat)
    requires |roots| <= r
    ensures Undrained(roots, r) == Undrained(roots, -1)
  {
    if roots != [] { UndrainedBeyond(roots[..|roots| - 1], r); }
  }

  lemma {:induction false} UndrainedZero(roots: seq<Root>, r: nat)
    requires r < |roots| && Undrained(roots, -1) == 0
    ensures !(roots[r].closed && roots[r].reading)
  {
    if r < |roots| - 1 {
      UndrainedZero(roots[..|roots| - 1], r);
    }
  }

  lemma {:induction false} UndrainedPositive(roots: seq<Root>) returns (r: nat)
    requires Undrained(roots, -1) > 0
    ensures r < |roots| && roots[r].closed && roots[r].reading
  {
    var n := |roots| - 1;
    if roots[n].closed && roots[n].reading {
      r := n;
    } else {
      r := UndrainedPositive(roots[..n]);
    }
  }

  // ----- every action keeps the invariant -----

  lemma ArmKeepsInv(s: State)
    requires Inv(s) && s.closer.NotStarted?
    ensures Inv(Apply(s, ArmRoot))
  {
    var s' := Apply(s, ArmRoot);
    var n := |s.roots|;
    assert s'.roots[..n] == s.roots;
    QueuedNone(s.queue, n);
    assert RootInv(s', n);
    forall r | 0 <= r < n ensures RootInv(s', r) {
      assert RootInv(s, r);
    }
  }

  lemma KernelKeepsInv(s: State, r: nat, failed: bool)
    requires Inv(s) && r < |s.roots| && s.roots[r].pending
    ensures Inv(Apply(s, KernelCompletes(r, failed)))
  {
    var s' := Apply(s, KernelCompletes(r, failed));
    UndrainedUpdate(s.roots, r, s'.roots[r], Skip(s.closer));
    PendingMeansNotOver(s, r);
    forall k | 0 <= k < |s.roots| ensures RootInv(s', k) {
      assert RootInv(s, k);
      KernelKeepsRoot(s, r, failed, k);
    }
  }

  lemma KernelKeepsRoot(s: State, r: nat, failed: bool, k: nat)
    requires r < |s.roots| && s.roots[r].pending && k < |s.roots| && RootInv(s, k)
    ensures RootInv(Apply(s, KernelCompletes(r, failed)), k)
  {
    QueuedAppend(s.queue, Completion(r, failed), k);
  }

  /** Once Wait has returned, no read of any root is outstanding anywhere. */
  lemma AllDrained(s: State)
    requires Inv(s) && WaitOver(s)
    ensures forall r :: 0 <= r < |s.roots| ==> Outstanding(s, r) == 0
    ensures !OwesDone(s.reader) && !s.reader.Issued?
  {
    forall r | 0 <= r < |s.roots| ensures s.roots[r].closed && Outstanding(s, r) == 0 {
      assert RootInv(s, r);
      UndrainedZero(s.roots, r);
    }
  }

  lemma PendingMeansNotOver(s: State, r: nat)
    requires Inv(s) && r < |s.roots| && s.roots[r].pending
    ensures !WaitOver(s)
  {
    assert Outstanding(s, r) > 0;
    if WaitOver(s) { AllDrained(s); }
  }

  lemma {:induction false} QueuedLeOutstanding(s: State, r: nat)
    requires r < |s.roots|
    ensures Queued(s.queue, r) <= Outstanding(s, r)
  {
  }

  /** With nothing outstanding, the port holds no completion. */
  lemma NothingQueued(s: State, k: nat)
    requires QueueInv(s) && k < |s.queue|
    requires forall r :: 0 <= r < |s.roots| ==> Outstanding(s, r) == 0
    ensures s.queue[k].Shutdown?
  {
    if s.queue[k].Completion? {
      QueuedOnce(s.queue, k);
      var r := s.queue[k].root;
      QueuedLeOutstanding(s, r);
    }
  }

  lemma DequeueKeepsInv(s: State)
    requires Inv(s) && Enabled(s, Dequeue)
    ensures Inv(Apply(s, Dequeue))
  {
    var s' := Apply(s, Dequeue);
    forall r | 0 <= r < |s.roots| ensures RootInv(s', r) {
      assert RootInv(s, r);
    }
    assert forall k :: 0 <= k < |s'.queue| ==> s'.queue[k] == s.queue[k + 1];
  }

  /** run takes the mutex of the root that completed. */
  lemma LockKeepsInv(s: State)
    requires Inv(s) && Enabled(s, ReaderLocks)
    ensures Inv(Apply(s, ReaderLocks))
  {
    var s' := Apply(s, ReaderLocks);
    var r := s.reader.root;
    assert RootInv(s, r);
    UndrainedUpdate(s.roots, r, s'.roots[r], Skip(s.closer));
    forall k | 0 <= k < |s.roots| ensures RootInv(s', k) {
      assert RootInv(s, k);
      LockKeepsRoot(s, k);
    }
  }

  lemma LockKeepsRoot(s: State, k: nat)
    requires Enabled(s, ReaderLocks) && k < |s.roots| && RootInv(s, k) && ReaderInv(s) && CloserInv(s)
    ensures RootInv(Apply(s, ReaderLocks), k)
  {
  }

  /** It clears reading: a closed root leaves the count, and a Done becomes due. */
  lemma NoteKeepsInv(s: State)
    requires Inv(s) && Enabled(s, ReaderNotes)
    ensures Inv(Apply(s, ReaderNotes))
  {
    var s' := Apply(s, ReaderNotes);
    var r := s.reader.root;
    assert RootInv(s, r);
    UndrainedUpdate(s.roots, r, s'.roots[r], Skip(s.closer));
    forall k | 0 <= k < |s.roots| ensures RootInv(s', k) {
      assert RootInv(s, k);
      NoteKeepsRoot(s, k);
    }
  }

  lemma NoteKeepsRoot(s: State, k: nat)
    requires Enabled(s, ReaderNotes) && k < |s.roots| && RootInv(s, k) && ReaderInv(s) && CloserInv(s)
    ensures RootInv(Apply(s, ReaderNotes), k)
  {
  }

  /** It lets go of the mutex. */
  lemma ReleaseKeepsInv(s: State)
    requires Inv(s) && Enabled(s, ReaderReleases)
    ensures Inv(Apply(s, ReaderReleases))
  {
    var s' := Apply(s, ReaderReleases);
    var r := s.reader.root;
    assert RootInv(s, r);
    UndrainedUpdate(s.roots, r, s'.roots[r], Skip(s.closer));
    forall k | 0 <= k < |s.roots| ensures RootInv(s', k) {
      assert RootInv(s, k);
      ReleaseKeepsRoot(s, k);
    }
  }

  lemma ReleaseKeepsRoot(s: State, k: nat)
    requires Enabled(s, ReaderReleases) && k < |s.roots| && RootInv(s, k) && ReaderInv(s) && CloserInv(s)
    ensures RootInv(Apply(s, ReaderReleases), k)
  {
  }

  /** It pays the Done it owes. */
  lemma DoneKeepsInv(s: State)
    requires Inv(s) && Enabled(s, ReaderDone)
    ensures Inv(Apply(s, ReaderDone))
  {
    var s' := Apply(s, ReaderDone);
    if WaitOver(s) { AllDrained(s); }
    forall k | 0 <= k < |s.roots| ensures RootInv(s', k) {
      assert RootInv(s, k);
    }
  }

  /** It takes the mutex again to re-arm. */
  lemma LockAgainKeepsInv(s: State)
    requires Inv(s) && Enabled(s, ReaderLocksAgain)
    ensures Inv(Apply(s, ReaderLocksAgain))
  {
    var s' := Apply(s, ReaderLocksAgain);
    var r := s.reader.root;
    assert RootInv(s, r);
    UndrainedUpdate(s.roots, r, s'.roots[r], Skip(s.closer));
    forall k | 0 <= k < |s.roots| ensures RootInv(s', k) {
      assert RootInv(s, k);
      LockAgainKeepsRoot(s, k);
    }
  }

  lemma LockAgainKeepsRoot(s: State, k: nat)
    requires Enabled(s, ReaderLocksAgain) && k < |s.roots| && RootInv(s, k) && ReaderInv(s) && CloserInv(s)
    ensures RootInv(Apply(s, ReaderLocksAgain), k)
  {
  }

  /** It finds the root closed and does not re-arm ... */
  lemma LeaveKeepsInv(s: State, ok: bool)
    requires Inv(s) && Enabled(s, ReaderIssues(ok)) && s.roots[s.reader.root].closed
    ensures Inv(Apply(s, ReaderIssues(ok)))
  {
    var s' := Apply(s, ReaderIssues(ok));
    forall k | 0 <= k < |s.roots| ensures RootInv(s', k) {
      assert RootInv(s, k);
    }
  }

  /** ... or it re-arms it, and the kernel may own a read again. */
  lemma IssueKeepsInv(s: State, ok: bool)
    requires Inv(s) && Enabled(s, ReaderIssues(ok)) && !s.roots[s.reader.root].closed
    ensures Inv(Apply(s, ReaderIssues(ok)))
  {
    var s' := Apply(s, ReaderIssues(ok));
    var r := s.reader.root;
    assert RootInv(s, r);
    UndrainedUpdate(s.roots, r, s'.roots[r], Skip(s.closer));
    forall k | 0 <= k < |s.roots| ensures RootInv(s', k) {
      assert RootInv(s, k);
      IssueKeepsRoot(s, ok, k);
    }
  }

  lemma IssueKeepsRoot(s: State, ok: bool, k: nat)
    requires Enabled(s, ReaderIssues(ok)) && k < |s.roots| && RootInv(s, k) && ReaderInv(s) && CloserInv(s)
        && !s.roots[s.reader.root].closed
    ensures RootInv(Apply(s, ReaderIssues(ok)), k)
  {
  }

  /** It records that a read is outstanding. */
  lemma RecordKeepsInv(s: State)
    requires Inv(s) && Enabled(s, ReaderRecords)
    ensures Inv(Apply(s, ReaderRecords))
  {
    var s' := Apply(s, ReaderRecords);
    var r := s.reader.root;
    assert RootInv(s, r);
    UndrainedUpdate(s.roots, r, s'.roots[r], Skip(s.closer));
    forall k | 0 <= k < |s.roots| ensures RootInv(s', k) {
      assert RootInv(s, k);
      RecordKeepsRoot(s, k);
    }
  }

  lemma RecordKeepsRoot(s: State, k: nat)
    requires Enabled(s, ReaderRecords) && k < |s.roots| && RootInv(s, k) && ReaderInv(s) && CloserInv(s)
    ensures RootInv(Apply(s, ReaderRecords), k)
  {
  }

  /** It lets go of the mutex and goes back to the port. */
  lemma UnlockKeepsInv(s: State)
    requires Inv(s) && Enabled(s, ReaderUnlocks)
    ensures Inv(Apply(s, ReaderUnlocks))
  {
    var s' := Apply(s, ReaderUnlocks);
    var r := s.reader.root;
    assert RootInv(s, r);
    UndrainedUpdate(s.roots, r, s'.roots[r], Skip(s.closer));
    forall k | 0 <= k < |s.roots| ensures RootInv(s', k) {
      assert RootInv(s, k);
      UnlockKeepsRoot(s, k);
    }
  }

  lemma UnlockKeepsRoot(s: State, k: nat)
    requires Enabled(s, ReaderUnlocks) && k < |s.roots| && RootInv(s, k) && ReaderInv(s) && CloserInv(s)
    ensures RootInv(Apply(s, ReaderUnlocks), k)
  {
  }

  /** Close's critical section on one root: it takes the mutex ... */
  lemma CloserLockKeepsInv(s: State)
    requires Inv(s) && Enabled(s, CloserLocks)
    ensures Inv(Apply(s, CloserLocks))
  {
    var s' := Apply(s, CloserLocks);
    var i := s.closer.i;
    assert RootInv(s, i);
    UndrainedUpdate(s.roots, i, s'.roots[i], -1);
    forall k | 0 <= k < |s.roots| ensures RootInv(s', k) {
      assert RootInv(s, k);
      CloserLockKeepsRoot(s, k);
    }
  }

  lemma CloserLockKeepsRoot(s: State, k: nat)
    requires Enabled(s, CloserLocks) && k < |s.roots| && RootInv(s, k) && ReaderInv(s) && CloserInv(s)
    ensures RootInv(Apply(s, CloserLocks), k)
  {
  }

  /** ... setting closed, from when on the root is left out of the count ... */
  lemma MarkKeepsInv(s: State)
    requires Inv(s) && Enabled(s, CloserMarks)
    ensures Inv(Apply(s, CloserMarks))
  {
    var s' := Apply(s, CloserMarks);
    var i := s.closer.i;
    assert RootInv(s, i);
    UndrainedUpdate(s.roots, i, s'.roots[i], i);
    UndrainedSkip(s.roots, i);
    forall k | 0 <= k < |s.roots| ensures RootInv(s', k) {
      assert RootInv(s, k);
      MarkKeepsRoot(s, k);
    }
  }

  lemma MarkKeepsRoot(s: State, k: nat)
    requires Enabled(s, CloserMarks) && k < |s.roots| && RootInv(s, k) && ReaderInv(s) && CloserInv(s)
    ensures RootInv(Apply(s, CloserMarks), k)
  {
  }

  /** ... draining.Add, which brings it back in ... */
  lemma CountKeepsInv(s: State)
    requires Inv(s) && Enabled(s, CloserCounts)
    ensures Inv(Apply(s, CloserCounts))
  {
    var s' := Apply(s, CloserCounts);
    assert RootInv(s, s.closer.i);
    UndrainedSkip(s.roots, s.closer.i);
    forall k | 0 <= k < |s.roots| ensures RootInv(s', k) {
      assert RootInv(s, k);
    }
  }

  /** ... closing the handle ... */
  lemma HandleKeepsInv(s: State)
    requires Inv(s) && Enabled(s, CloserClosesHandle)
    ensures Inv(Apply(s, CloserClosesHandle))
  {
    var s' := Apply(s, CloserClosesHandle);
    var i := s.closer.i;
    assert RootInv(s, i);
    UndrainedUpdate(s.roots, i, s'.roots[i], -1);
    forall k | 0 <= k < |s.roots| ensures RootInv(s', k) {
      assert RootInv(s, k);
      HandleKeepsRoot(s, k);
    }
  }

  lemma HandleKeepsRoot(s: State, k: nat)
    requires Enabled(s, CloserClosesHandle) && k < |s.roots| && RootInv(s, k) && ReaderInv(s) && CloserInv(s)
    ensures RootInv(Apply(s, CloserClosesHandle), k)
  {
  }

  /** ... and letting go of the mutex. */
  lemma CloserUnlockKeepsInv(s: State)
    requires Inv(s) && Enabled(s, CloserUnlocks)
    ensures Inv(Apply(s, CloserUnlocks))
  {
    var s' := Apply(s, CloserUnlocks);
    var i := s.closer.i;
    assert RootInv(s, i);
    UndrainedUpdate(s.roots, i, s'.roots[i], -1);
    forall k | 0 <= k < |s.roots| ensures RootInv(s', k) {
      assert RootInv(s, k);
      CloserUnlockKeepsRoot(s, k);
    }
  }

  lemma CloserUnlockKeepsRoot(s: State, k: nat)
    requires Enabled(s, CloserUnlocks) && k < |s.roots| && RootInv(s, k) && ReaderInv(s) && CloserInv(s)
    ensures RootInv(Apply(s, CloserUnlocks), k)
  {
  }

  lemma PostKeepsInv(s: State, ok: bool)
    requires Inv(s) && s.closer.Drained?
    ensures Inv(Apply(s, CloserPosts(ok)))
  {
    var s' := Apply(s, CloserPosts(ok));
    AllDrained(s);
    if s.queue != [] { NothingQueued(s, 0); }
    forall k | 0 <= k < |s.roots| ensures RootInv(s', k) {
      assert RootInv(s, k);
      QueuedAppend(s.queue, Shutdown, k);
    }
  }

  /** Every action of any party keeps the invariant. */
  lemma StepKeepsInv(s: State, a: Action)
    requires Inv(s) && Enabled(s, a)
    ensures Inv(Apply(s, a))
  {
    match a
    case ArmRoot => ArmKeepsInv(s);
    case KernelCompletes(r, failed) => KernelKeepsInv(s, r, failed);
    case Dequeue => DequeueKeepsInv(s);
    case ReaderLocks => LockKeepsInv(s);
    case ReaderNotes => NoteKeepsInv(s);
    case ReaderReleases => ReleaseKeepsInv(s);
    case ReaderDone => DoneKeepsInv(s);
    case ReaderLocksAgain => LockAgainKeepsInv(s);
    case ReaderIssues(ok) => if s.roots[s.reader.root].closed { LeaveKeepsInv(s, ok); } else { IssueKeepsInv(s, ok); }
    case ReaderRecords => RecordKeepsInv(s);
    case ReaderUnlocks => UnlockKeepsInv(s);
    case CloserLocks => CloserLockKeepsInv(s);
    case CloserMarks => MarkKeepsInv(s);
    case CloserCounts => CountKeepsInv(s);
    case CloserClosesHandle => HandleKeepsInv(s);
    case CloserUnlocks => CloserUnlockKeepsInv(s);
    case CloserPosts(ok) => PostKeepsInv(s, ok);
    case PublishRoot => PublishKeepsInv(s);
    case PortFails => PortFailsKeepsInv(s);
    case CloseStarts => StartKeepsInv(s);
    case CloserWaits => WaitsKeepsInv(s);
    case WaitReturns => ReturnKeepsInv(s);
    case CloserJoins => JoinKeepsInv(s);
  }

  /** The actions that touch no root: publishing one ... */
  lemma PublishKeepsInv(s: State)
    requires Inv(s) && Enabled(s, PublishRoot)
    ensures Inv(Apply(s, PublishRoot))
  {
    forall r | 0 <= r < |s.roots| ensures RootInv(Apply(s, PublishRoot), r) {
      assert RootInv(s, r);
    }
  }

  /** ... the port failing ... */
  lemma PortFailsKeepsInv(s: State)
    requires Inv(s) && Enabled(s, PortFails)
    ensures Inv(Apply(s, PortFails))
  {
    forall r | 0 <= r < |s.roots| ensures RootInv(Apply(s, PortFails), r) {
      assert RootInv(s, r);
    }
  }

  /** ... Close starting ... */
  lemma StartKeepsInv(s: State)
    requires Inv(s) && Enabled(s, CloseStarts)
    ensures Inv(Apply(s, CloseStarts))
  {
    forall r | 0 <= r < |s.roots| ensures RootInv(Apply(s, CloseStarts), r) {
      assert RootInv(s, r);
    }
  }

  /** ... going on to wait ... */
  lemma WaitsKeepsInv(s: State)
    requires Inv(s) && Enabled(s, CloserWaits)
    ensures Inv(Apply(s, CloserWaits))
  {
    forall r | 0 <= r < |s.roots| ensures RootInv(Apply(s, CloserWaits), r) {
      assert RootInv(s, r);
    }
  }

  /** ... waiting over ... */
  lemma ReturnKeepsInv(s: State)
    requires Inv(s) && Enabled(s, WaitReturns)
    ensures Inv(Apply(s, WaitReturns))
  {
    forall r | 0 <= r < |s.roots| ensures RootInv(Apply(s, WaitReturns), r) {
      assert RootInv(s, r);
    }
  }

  /** ... and Close joining the reader. */
  lemma JoinKeepsInv(s: State)
    requires Inv(s) && Enabled(s, CloserJoins)
    ensures Inv(Apply(s, CloserJoins))
  {
    forall r | 0 <= r < |s.roots| ensures RootInv(Apply(s, CloserJoins), r) {
      assert RootInv(s, r);
    }
  }
}
