/** While the watcher is open, every root is watched: a root without a read is
    one whose last re-arm was refused. */
module WatchArmed {
  import opened WatchProtocol
  import opened WatchShutdown

  /** The port did not fail and Close was not called. */
  predicate StaysOpen(actions: seq<Action>) {
    forall i :: 0 <= i < |actions| ==> !actions[i].PortFails? && !actions[i].CloseStarts?
  }

  /** The roots whose last ReadDirectoryChanges was refused, starting from some. */
  function Refused(s: State, actions: seq<Action>, before: set<nat>): set<nat>
    requires IsRun(s, actions)
    decreases |actions|
  {
    if actions == [] then before
    else Refused(Apply(s, actions[0]), actions[1..], AfterStep(s, actions[0], before))
  }

  function AfterStep(s: State, a: Action, before: set<nat>): set<nat> {
    if a.ReaderIssues? && s.reader.Rearming? then
      if a.ok then before - {s.reader.root} else before + {s.reader.root}
    else before
  }

  /** run is between taking note of r's completion and issuing its next read. */
  predicate Serving(rd: Reader, r: nat) { (rd.Noted? || rd.Working? || rd.Rearming?) && rd.root == r }

  /** An open watcher watches exactly the roots that are not refused. */
  ghost predicate Watches(s: State, refused: set<nat>) {
    && s.closer.NotStarted? && !s.portFailed && !s.reader.Exited?
    && (forall r :: r in refused ==> r < |s.roots|)
    && (forall r :: 0 <= r < |s.roots| ==> WatchedIff(s, r, refused))
  }

  ghost predicate WatchedIff(s: State, r: nat, refused: set<nat>)
    requires r < |s.roots|
  {
    if r in refused then Outstanding(s, r) == 0 && !Serving(s.reader, r)
    else Outstanding(s, r) == 1 || Serving(s.reader, r)
  }

  lemma {:induction false} RootWatched(s: State, a: Action, r: nat, refused: set<nat>)
    requires Inv(s) && Watches(s, refused) && Enabled(s, a) && !a.PortFails? && !a.CloseStarts?
    requires r < |s.roots|
    ensures r < |Apply(s, a).roots| && WatchedIff(Apply(s, a), r, AfterStep(s, a, refused))
  {
    assert RootInv(s, r) && WatchedIff(s, r, refused);
    match a
    case KernelCompletes(q, failed) => QueuedAppend(s.queue, Completion(q, failed), r);
    case _ =>
  }

  lemma StepWatches(s: State, a: Action, refused: set<nat>)
    requires Inv(s) && Watches(s, refused) && Enabled(s, a) && !a.PortFails? && !a.CloseStarts?
    ensures Watches(Apply(s, a), AfterStep(s, a, refused))
  {
    var s' := Apply(s, a);
    forall r | 0 <= r < |s'.roots| ensures WatchedIff(s', r, AfterStep(s, a, refused)) {
      if r < |s.roots| { RootWatched(s, a, r, refused); } else { NewRootWatched(s, a, refused); }
    }
  }

  lemma NewRootWatched(s: State, a: Action, refused: set<nat>)
    requires Inv(s) && Watches(s, refused) && Enabled(s, a) && a.ArmRoot?
    ensures WatchedIff(Apply(s, a), |s.roots|, refused)
  {
    QueuedNone(s.queue, |s.roots|);
  }

  lemma {:induction false} RunWatches(s: State, actions: seq<Action>, refused: set<nat>)
    requires Inv(s) && Watches(s, refused) && IsRun(s, actions) && StaysOpen(actions)
    ensures Watches(After(s, actions), Refused(s, actions, refused))
    decreases |actions|
  {
    if actions != [] {
      StepKeepsInv(s, actions[0]);
      StepWatches(s, actions[0], refused);
      RunWatches(Apply(s, actions[0]), actions[1..], AfterStep(s, actions[0], refused));
    }
  }

  /** In every run of an open watcher: a root has no read outstanding, with run
      not about to issue its next one, if and only if its last re-arm was
      refused; every other root has exactly one, or is about to. */
  lemma {:induction false} DeafIffRefused(actions: seq<Action>, r: nat)
    requires IsRun(Init, actions) && StaysOpen(actions) && r < |After(Init, actions).roots|
    ensures var s := After(Init, actions);
            && (r in Refused(Init, actions, {}) <==> Outstanding(s, r) == 0 && !Serving(s.reader, r))
            && (r !in Refused(Init, actions, {}) ==> Outstanding(s, r) == 1 || Serving(s.reader, r))
  {
    RunWatches(Init, actions, {});
    assert WatchedIff(After(Init, actions), r, Refused(Init, actions, {}));
  }

  lemma {:induction false} NoneRefused(s: State, actions: seq<Action>)
    requires IsRun(s, actions) && forall i :: 0 <= i < |actions| ==> actions[i] != ReaderIssues(false)
    ensures Refused(s, actions, {}) == {}
    decreases |actions|
  {
    if actions != [] {
      assert actions[0] != ReaderIssues(false);
      assert AfterStep(s, actions[0], {}) == {};
      NoneRefused(Apply(s, actions[0]), actions[1..]);
    }
  }

  /** When no re-arm is refused, every root has exactly one read outstanding
      whenever run waits for the port. */
  lemma {:induction false} EveryRootIsWatched(actions: seq<Action>, r: nat)
    requires IsRun(Init, actions) && StaysOpen(actions) && After(Init, actions).reader.Waiting?
    requires forall i :: 0 <= i < |actions| ==> actions[i] != ReaderIssues(false)
    requires r < |After(Init, actions).roots|
    ensures Outstanding(After(Init, actions), r) == 1
  {
    DeafIffRefused(actions, r);
    NoneRefused(Init, actions);
  }

  // ----- run comes back to the port -----

  /** A step of run between two calls of GetQueuedCompletionStatus. */
  predicate OwnStep(a: Action) {
    a.ReaderLocks? || a.ReaderNotes? || a.ReaderReleases? || a.ReaderDone?
    || a.ReaderLocksAgain? || a.ReaderIssues? || a.ReaderRecords? || a.ReaderUnlocks?
  }

  /** How many more of them there can be. */
  function StepsLeft(rd: Reader): nat {
    match rd
    case Dequeued(_, _) => 7
    case Noting(_, _) => 6
    case Noted(_, _, _) => 5
    case Working(_, _) => 4
    case Rearming(_) => 3
    case Issued(_, _) => 2
    case Releasing(_) => 1
    case Owing(_) => 1
    case Waiting => 0
    case Exited => 0
  }

  lemma StepDescends(s: State, a: Action)
    requires Enabled(s, a)
    ensures (if OwnStep(a) then 1 else 0) + StepsLeft(Apply(s, a).reader)
         <= StepsLeft(s.reader) + (if a.Dequeue? then 7 else 0)
  {
  }

  function OwnSteps(actions: seq<Action>): nat {
    if actions == [] then 0 else (if OwnStep(actions[0]) then 1 else 0) + OwnSteps(actions[1..])
  }

  function Dequeues(actions: seq<Action>): nat {
    if actions == [] then 0 else (if actions[0].Dequeue? then 1 else 0) + Dequeues(actions[1..])
  }

  /** run takes at most seven steps for each packet it takes from the port, whatever
      the others do meanwhile. */
  lemma {:induction false} RunComesBack(s: State, actions: seq<Action>)
    requires IsRun(s, actions)
    ensures OwnSteps(actions) + StepsLeft(After(s, actions).reader) <= StepsLeft(s.reader) + 7 * Dequeues(actions)
    decreases |actions|
  {
    if actions != [] {
      StepDescends(s, actions[0]);
      RunComesBack(Apply(s, actions[0]), actions[1..]);
    }
  }

  /** And before Close nothing can hold it up: away from the port it can always
      take its next step. */
  lemma RunMovesOn(actions: seq<Action>) returns (a: Action)
    requires IsRun(Init, actions) && StaysOpen(actions) && !After(Init, actions).reader.Waiting?
    ensures OwnStep(a) && Enabled(After(Init, actions), a)
  {
    var s := After(Init, actions);
    RunWatches(Init, actions, {});
    RunKeepsInv(Init, actions);
    assert RootInv(s, s.reader.root);
    match s.reader
    case Dequeued(_, _) => a := ReaderLocks;
    case Noting(_, _) => a := ReaderNotes;
    case Noted(_, _, _) => a := ReaderReleases;
    case Working(_, _) => a := ReaderLocksAgain;
    case Rearming(_) => a := ReaderIssues(true);
    case Issued(_, _) => a := ReaderRecords;
    case Releasing(_) => a := ReaderUnlocks;
    case Owing(_) => a := ReaderDone;
  }
}
