/** Dropping the sessions that recorded the same conversation twice. */
module Duplicates {

  /** The six fields that make two sessions the same conversation. */
  datatype Key = Key(vendor: string, start: string, end: string, calls: int, output: int, cacheRead: int)

  /** id is the session id's place in the order of ids; body is the rest. */
  datatype Session = Session(key: Key, id: int, body: int)

  /** The session kept for each conversation among the first n. */
  function Best(sessions: seq<Session>, n: nat): map<Key, Session>
    requires n <= |sessions|
  {
    if n == 0 then map[]
    else
      var best, s := Best(sessions, n - 1), sessions[n - 1];
      if s.key !in best || s.id < best[s.key].id then best[s.key := s] else best
  }

  method DedupSessions(sessions: seq<Session>) returns (best: map<Key, Session>, dropped: int)
    ensures best == Best(sessions, |sessions|) && dropped == |sessions| - |best|
  {
    best := map[];
    for n := 0 to |sessions|
      invariant best == Best(sessions, n)
    {
      var s := sessions[n];
      if s.key !in best || s.id < best[s.key].id {
        best := best[s.key := s];
      }
    }
    dropped := |sessions| - |best|;
  }

  /** Every session's conversation keeps a session of no larger id. */
  lemma {:induction false} KeptIsSmallest(sessions: seq<Session>, n: nat, i: nat)
    requires i < n <= |sessions|
    ensures sessions[i].key in Best(sessions, n) && Best(sessions, n)[sessions[i].key].id <= sessions[i].id
  {
    if i < n - 1 { KeptIsSmallest(sessions, n - 1, i); }
  }

  /** What a conversation keeps is one of its own sessions. */
  lemma {:induction false} KeptIsOwn(sessions: seq<Session>, n: nat, k: Key)
    requires n <= |sessions| && k in Best(sessions, n)
    ensures Best(sessions, n)[k].key == k && Best(sessions, n)[k] in sessions
  {
    if n > 0 && k in Best(sessions, n - 1) { KeptIsOwn(sessions, n - 1, k); }
  }

  lemma {:induction false} KeptFor(sessions: seq<Session>, s: Session)
    requires s in sessions
    ensures s.key in Best(sessions, |sessions|) && Best(sessions, |sessions|)[s.key].id <= s.id
  {
    var i :| 0 <= i < |sessions| && sessions[i] == s;
    KeptIsSmallest(sessions, |sessions|, i);
  }

  function Members(sessions: seq<Session>): set<Session> { set s | s in sessions }

  predicate Least(sessions: set<Session>, s: Session) {
    s in sessions && forall t :: t in sessions && t.key == s.key ==> s.id <= t.id
  }

  /** Each conversation's smallest id names one session. */
  predicate SmallestNames(sessions: set<Session>) {
    forall s, t :: s in sessions && t in sessions && Least(sessions, s) && Least(sessions, t) && s.key == t.key
      ==> s == t
  }

  lemma {:induction false} KeptIsLeast(sessions: seq<Session>, k: Key)
    requires k in Best(sessions, |sessions|)
    ensures Least(Members(sessions), Best(sessions, |sessions|)[k]) && Best(sessions, |sessions|)[k].key == k
  {
    KeptIsOwn(sessions, |sessions|, k);
    forall t | t in Members(sessions) && t.key == k ensures Best(sessions, |sessions|)[k].id <= t.id {
      KeptFor(sessions, t);
    }
  }

  lemma {:induction false} KeptAlike(a: seq<Session>, b: seq<Session>, k: Key)
    requires SmallestNames(Members(a)) && Members(a) == Members(b) && k in Best(a, |a|)
    ensures k in Best(b, |b|) && Best(b, |b|)[k] == Best(a, |a|)[k]
  {
    KeptIsLeast(a, k);
    assert Best(a, |a|)[k] in Members(b);
    KeptFor(b, Best(a, |a|)[k]);
    KeptIsLeast(b, k);
  }

  lemma {:induction false} FirstLeastIsKept(sessions: seq<Session>, n: nat)
    requires 0 < n <= |sessions| && Least(Members(sessions), sessions[0])
    ensures sessions[0].key in Best(sessions, n) && Best(sessions, n)[sessions[0].key] == sessions[0]
  {
    if n > 1 {
      FirstLeastIsKept(sessions, n - 1);
      assert sessions[n - 1] in Members(sessions);
    }
  }

  ghost predicate OrderFree(sessions: set<Session>) {
    forall a, b :: Members(a) == sessions && Members(b) == sessions ==> Best(a, |a|) == Best(b, |b|)
  }

  lemma {:induction false} SameKept(a: seq<Session>, b: seq<Session>)
    requires SmallestNames(Members(a)) && Members(a) == Members(b)
    ensures Best(a, |a|) == Best(b, |b|)
  {
    forall k | k in Best(a, |a|) ensures k in Best(b, |b|) && Best(b, |b|)[k] == Best(a, |a|)[k] { KeptAlike(a, b, k); }
    forall k | k in Best(b, |b|) ensures k in Best(a, |a|) { KeptAlike(b, a, k); }
  }

  lemma {:induction false} Listing(sessions: set<Session>) returns (list: seq<Session>)
    ensures Members(list) == sessions
    decreases |sessions|
  {
    list := [];
    if s :| s in sessions {
      var rest := Listing(sessions - {s});
      list := [s] + rest;
      assert Members(list) == {s} + Members(rest);
    }
  }

  lemma LeastIsNamed(sessions: set<Session>, s: Session, t: Session)
    requires OrderFree(sessions) && Least(sessions, s) && Least(sessions, t) && s.key == t.key
    ensures s == t
  {
    var list := Listing(sessions);
    var a, b := [s] + list, [t] + list;
    assert Members(a) == sessions && Members(b) == sessions;
    FirstLeastIsKept(a, |a|);
    FirstLeastIsKept(b, |b|);
  }

  /** What is kept does not depend on the order the sessions come in, if and only
      if no two different sessions of a conversation share its smallest id. */
  lemma OrderFreeIff(sessions: set<Session>)
    ensures OrderFree(sessions) <==> SmallestNames(sessions)
  {
    if SmallestNames(sessions) {
      forall a, b | Members(a) == sessions && Members(b) == sessions ensures Best(a, |a|) == Best(b, |b|) {
        SameKept(a, b);
      }
    }
    if OrderFree(sessions) {
      forall s, t | s in sessions && t in sessions && Least(sessions, s) && Least(sessions, t) && s.key == t.key
        ensures s == t
      {
        LeastIsNamed(sessions, s, t);
      }
    }
  }
}
