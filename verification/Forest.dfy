/** Nesting running subagents under their parents, and the walk that lists
    every session of the forest. */
module SessionForest {

  datatype Id = Id(text: string)

  /** The running sessions in the order they were built, and their parent ids. */
  datatype Running = Running(order: seq<Id>, parentOf: map<Id, Id>) {

    /** The parent is running too, and is not the session itself. */
    predicate Nested(id: Id) { id in parentOf && parentOf[id] in order && parentOf[id] != id }

    /** The sessions among the first n that stay on top. */
    function Tops(n: nat): seq<Id>
      requires n <= |order|
    {
      if n == 0 then [] else Tops(n - 1) + (if Nested(order[n - 1]) then [] else [order[n - 1]])
    }

    /** The sessions among the first n that go under id. */
    function Under(id: Id, n: nat): seq<Id>
      requires n <= |order|
    {
      if n == 0 then []
      else Under(id, n - 1) + (if Nested(order[n - 1]) && parentOf[order[n - 1]] == id then [order[n - 1]] else [])
    }

    function Kids(id: Id): seq<Id> { Under(id, |order|) }

    /** The parent chain of id ends at a top session after d steps. */
    predicate Rooted(id: Id, d: nat)
      decreases d
    {
      if d == 0 then !Nested(id) else Nested(id) && Rooted(parentOf[id], d - 1)
    }

    ghost predicate Anchored(id: Id) { exists d: nat :: Rooted(id, d) }

    /** The ancestor k steps up, or the top session if the chain is shorter. */
    function Climb(id: Id, k: nat): Id
      decreases k
    {
      if k == 0 || !Nested(id) then id else Climb(parentOf[id], k - 1)
    }
  }

  // ----- termination of the walk -----

  lemma {:induction false} DepthUnique(r: Running, id: Id, d: nat, e: nat)
    requires r.Rooted(id, d) && r.Rooted(id, e)
    ensures d == e
    decreases d
  {
    if d > 0 && e > 0 { DepthUnique(r, r.parentOf[id], d - 1, e - 1); }
  }

  function Ancestors(r: Running, id: Id, d: nat): set<Id>
    requires r.Rooted(id, d)
    decreases d
  {
    if d == 0 then {id} else Ancestors(r, r.parentOf[id], d - 1) + {id}
  }

  lemma {:induction false} AncestorsShallower(r: Running, id: Id, d: nat, a: Id)
    requires r.Rooted(id, d) && a in Ancestors(r, id, d)
    ensures exists e: nat :: e <= d && r.Rooted(a, e)
    decreases d
  {
    if d > 0 && a != id { AncestorsShallower(r, r.parentOf[id], d - 1, a); }
  }

  lemma {:induction false} AncestorsDistinct(r: Running, id: Id, d: nat)
    requires r.Rooted(id, d) && id in r.order
    ensures |Ancestors(r, id, d)| == d + 1
    ensures forall a :: a in Ancestors(r, id, d) ==> a in r.order
    decreases d
  {
    if d > 0 {
      AncestorsDistinct(r, r.parentOf[id], d - 1);
      if id in Ancestors(r, r.parentOf[id], d - 1) {
        AncestorsShallower(r, r.parentOf[id], d - 1, id);
        var e: nat :| e <= d - 1 && r.Rooted(id, e);
        DepthUnique(r, id, d, e);
      }
    }
  }

  lemma {:induction false} SetFitsSeq(ids: set<Id>, s: seq<Id>, n: nat)
    requires n <= |s| && forall a :: a in ids ==> a in s[..n]
    ensures |ids| <= n
  {
    if n == 0 {
      assert ids == {};
    } else {
      var rest := ids - {s[n - 1]};
      forall a | a in rest ensures a in s[..n - 1] {
        var k :| 0 <= k < n && s[k] == a;
        assert s[..n - 1][k] == a;
      }
      SetFitsSeq(rest, s, n - 1);
    }
  }

  /** No parent chain is longer than the number of running sessions. */
  lemma {:induction false} DepthBounded(r: Running, id: Id, d: nat)
    requires r.Rooted(id, d) && id in r.order
    ensures d < |r.order|
  {
    AncestorsDistinct(r, id, d);
    assert r.order[..|r.order|] == r.order;
    SetFitsSeq(Ancestors(r, id, d), r.order, |r.order|);
  }

  lemma {:induction false} UnderAre(r: Running, id: Id, n: nat)
    requires n <= |r.order|
    ensures forall k :: 0 <= k < |r.Under(id, n)| ==>
              r.Under(id, n)[k] in r.order && r.Nested(r.Under(id, n)[k]) && r.parentOf[r.Under(id, n)[k]] == id
  {
    if n > 0 { UnderAre(r, id, n - 1); }
  }

  lemma {:induction false} TopsAre(r: Running, n: nat)
    requires n <= |r.order|
    ensures forall k :: 0 <= k < |r.Tops(n)| ==> r.Tops(n)[k] in r.order && !r.Nested(r.Tops(n)[k])
  {
    if n > 0 { TopsAre(r, n - 1); }
  }

  // ----- the walk -----

  /** The session, then its subagents in turn; d is how deep it sits. */
  function Walk(r: Running, id: Id, d: nat): seq<Id>
    requires id in r.order && r.Rooted(id, d)
    decreases |r.order| - d, |r.Kids(id)| + 1
  {
    DepthBounded(r, id, d);
    [id] + WalkKids(r, id, d, |r.Kids(id)|)
  }

  function WalkKids(r: Running, id: Id, d: nat, n: nat): seq<Id>
    requires id in r.order && r.Rooted(id, d) && n <= |r.Kids(id)|
    decreases |r.order| - d, n
  {
    if n == 0 then []
    else
      UnderAre(r, id, |r.order|);
      DepthBounded(r, id, d);
      WalkKids(r, id, d, n - 1) + Walk(r, r.Kids(id)[n - 1], d + 1)
  }

  function WalkTops(r: Running, n: nat): seq<Id>
    requires n <= |r.Tops(|r.order|)|
  {
    if n == 0 then []
    else
      TopsAre(r, |r.order|);
      WalkTops(r, n - 1) + Walk(r, r.Tops(|r.order|)[n - 1], 0)
  }

  function Keys(r: Running): seq<Id> { WalkTops(r, |r.Tops(|r.order|)|) }

  /** Nests the running sessions the way the snapshot does. */
  method Nest(r: Running) returns (top: seq<Id>, subagents: map<Id, seq<Id>>)
    ensures top == r.Tops(|r.order|)
    ensures forall id :: id in r.order ==> id in subagents && subagents[id] == r.Kids(id)
  {
    top := [];
    subagents := map id | id in r.order :: [];
    var n := 0;
    while n < |r.order|
      invariant 0 <= n <= |r.order| && top == r.Tops(n)
      invariant forall id :: id in r.order ==> id in subagents && subagents[id] == r.Under(id, n)
    {
      var id := r.order[n];
      n := n + 1;
      if id in r.parentOf && r.parentOf[id] in r.order && r.parentOf[id] != id {
        var p := r.parentOf[id];
        subagents := subagents[p := subagents[p] + [id]];
        continue;
      }
      top := top + [id];
    }
  }

  /** sessionKeys, over the forest that Nest built. */
  method SessionKeys(ghost r: Running, top: seq<Id>, subagents: map<Id, seq<Id>>) returns (out: seq<Id>)
    requires top == r.Tops(|r.order|)
    requires forall id :: id in r.order ==> id in subagents && subagents[id] == r.Kids(id)
    ensures out == Keys(r)
  {
    out := [];
    TopsAre(r, |r.order|);
    for n := 0 to |top|
      invariant out == WalkTops(r, n)
    {
      out := WalkFrom(r, subagents, top[n], 0, out);
    }
  }

  method WalkFrom(
      ghost r: Running, subagents: map<Id, seq<Id>>, id: Id, ghost d: nat, before: seq<Id>) returns (out: seq<Id>)
    requires id in r.order && r.Rooted(id, d)
    requires forall id :: id in r.order ==> id in subagents && subagents[id] == r.Kids(id)
    ensures out == before + Walk(r, id, d)
    decreases |r.order| - d
  {
    DepthBounded(r, id, d);
    UnderAre(r, id, |r.order|);
    out := before + [id];
    for n := 0 to |subagents[id]|
      invariant out == before + ([id] + WalkKids(r, id, d, n))
    {
      out := WalkFrom(r, subagents, subagents[id][n], d + 1, out);
    }
  }

  // ----- how often a session is listed -----

  /** How often x is among the first n of s. */
  function Times(s: seq<Id>, x: Id, n: nat): nat
    requires n <= |s|
  {
    if n == 0 then 0 else Times(s, x, n - 1) + (if s[n - 1] == x then 1 else 0)
  }

  function Occurs(s: seq<Id>, x: Id): nat { Times(s, x, |s|) }

  lemma {:induction false} TimesJoin(s: seq<Id>, t: seq<Id>, x: Id, n: nat)
    requires n <= |s + t|
    ensures Times(s + t, x, n) == if n <= |s| then Times(s, x, n) else Occurs(s, x) + Times(t, x, n - |s|)
  {
    if n > 0 {
      TimesJoin(s, t, x, n - 1);
      assert (s + t)[n - 1] == if n <= |s| then s[n - 1] else t[n - 1 - |s|];
    }
  }

  lemma JoinCount(s: seq<Id>, t: seq<Id>, x: Id)
    ensures Occurs(s + t, x) == Occurs(s, x) + Occurs(t, x)
  {
    TimesJoin(s, t, x, |s + t|);
  }

  lemma OneOccurs(y: Id, x: Id)
    ensures Occurs([y], x) == if y == x then 1 else 0
  {
    assert Times([y], x, 0) == 0;
  }

  lemma OneMoreOccurs(s: seq<Id>, y: Id, x: Id)
    ensures Occurs(s + [y], x) == Occurs(s, x) + if y == x then 1 else 0
  {
    JoinCount(s, [y], x);
    OneOccurs(y, x);
  }

  predicate NamesNoOther(r: Running, id: Id) {
    id !in r.parentOf || r.parentOf[id] == id || r.parentOf[id] !in r.order
  }

  /** A session stays on top exactly when it names no parent, itself, or one that
      is not running ... */
  lemma {:induction false} PlacedOnTop(r: Running, id: Id, n: nat)
    requires n <= |r.order|
    ensures Occurs(r.Tops(n), id) == if NamesNoOther(r, id) then Times(r.order, id, n) else 0
  {
    if n > 0 {
      PlacedOnTop(r, id, n - 1);
      OneMoreOccurs(r.Tops(n - 1), r.order[n - 1], id);
      assert r.Tops(n - 1) + [] == r.Tops(n - 1);
    }
  }

  /** ... and goes under the one it names otherwise. */
  lemma {:induction false} PlacedUnder(r: Running, id: Id, p: Id, n: nat)
    requires n <= |r.order|
    ensures Occurs(r.Under(p, n), id)
         == if !NamesNoOther(r, id) && r.parentOf[id] == p then Times(r.order, id, n) else 0
  {
    if n > 0 {
      PlacedUnder(r, id, p, n - 1);
      OneMoreOccurs(r.Under(p, n - 1), r.order[n - 1], id);
      assert r.Under(p, n - 1) + [] == r.Under(p, n - 1);
    }
  }

  lemma {:induction false} TimesPositive(s: seq<Id>, x: Id, n: nat)
    requires n <= |s|
    ensures Times(s, x, n) > 0 <==> exists k :: 0 <= k < n && s[k] == x
  {
    if n > 0 { TimesPositive(s, x, n - 1); }
  }

  /** An id occurs if and only if it is a member. */
  lemma OccursIff(s: seq<Id>, x: Id)
    ensures Occurs(s, x) > 0 <==> x in s
  {
    TimesPositive(s, x, |s|);
  }

  /** The product of how often the first k sessions of x's chain were built. */
  function Copies(r: Running, x: Id, k: nat): nat {
    if k == 0 then 1 else Copies(r, x, k - 1) * Occurs(r.order, r.Climb(x, k - 1))
  }

  lemma {:induction false} ClimbRooted(r: Running, x: Id, e: nat, k: nat)
    requires r.Rooted(x, e) && k <= e
    ensures r.Rooted(r.Climb(x, k), e - k)
    ensures k < e ==> r.Climb(x, k + 1) == r.parentOf[r.Climb(x, k)]
    decreases k
  {
    if k > 0 { ClimbRooted(r, r.parentOf[x], e - 1, k - 1); }
  }

  lemma {:induction false} UnderCount(r: Running, id: Id, n: nat, a: Id)
    requires n <= |r.order|
    ensures Occurs(r.Under(id, n), a)
      == if r.Nested(a) && r.parentOf[a] == id then Times(r.order, a, n) else 0
  {
    if n > 0 {
      UnderCount(r, id, n - 1, a);
      var last := r.order[n - 1];
      JoinCount(r.Under(id, n - 1), if r.Nested(last) && r.parentOf[last] == id then [last] else [], a);
      OneOccurs(last, a);
    }
  }

  lemma {:induction false} TopsCount(r: Running, n: nat, a: Id)
    requires n <= |r.order|
    ensures Occurs(r.Tops(n), a) == if r.Nested(a) then 0 else Times(r.order, a, n)
  {
    if n > 0 {
      TopsCount(r, n - 1, a);
      var last := r.order[n - 1];
      JoinCount(r.Tops(n - 1), if r.Nested(last) then [] else [last], a);
      OneOccurs(last, a);
    }
  }

  /** Where x is counted below a session at depth d. */
  function CountBelow(r: Running, id: Id, d: nat, x: Id, e: nat): nat {
    if e >= d && r.Climb(x, e - d) == id then Copies(r, x, e - d) else 0
  }

  lemma {:induction false} WalkCount(r: Running, id: Id, d: nat, x: Id, e: nat)
    requires id in r.order && r.Rooted(id, d) && r.Rooted(x, e)
    ensures Occurs(Walk(r, id, d), x) == CountBelow(r, id, d, x, e)
    decreases |r.order| - d, |r.Kids(id)| + 1
  {
    DepthBounded(r, id, d);
    var n := |r.Kids(id)|;
    WalkKidsCount(r, id, d, n, x, e);
    JoinCount([id], WalkKids(r, id, d, n), x);
    OneOccurs(id, x);
    if x == id { DepthUnique(r, x, d, e); }
    if e > d { KidsCount(r, id, d, x, e); }
  }

  /** How often the child of id on x's chain is among id's kids. */
  lemma {:induction false} KidsCount(r: Running, id: Id, d: nat, x: Id, e: nat)
    requires r.Rooted(id, d) && r.Rooted(x, e) && e > d
    ensures var a := r.Climb(x, e - d - 1);
            Occurs(r.Kids(id), a) == if r.Climb(x, e - d) == id then Occurs(r.order, a) else 0
  {
    var a := r.Climb(x, e - d - 1);
    ClimbRooted(r, x, e, e - d - 1);
    UnderCount(r, id, |r.order|, a);
  }

  lemma {:induction false} WalkKidsCount(r: Running, id: Id, d: nat, n: nat, x: Id, e: nat)
    requires id in r.order && r.Rooted(id, d) && r.Rooted(x, e) && n <= |r.Kids(id)|
    ensures Occurs(WalkKids(r, id, d, n), x)
      == if e > d then Copies(r, x, e - d - 1) * Times(r.Kids(id), r.Climb(x, e - d - 1), n) else 0
    decreases |r.order| - d, n
  {
    if n > 0 {
      UnderAre(r, id, |r.order|);
      DepthBounded(r, id, d);
      var kid := r.Kids(id)[n - 1];
      WalkKidsCount(r, id, d, n - 1, x, e);
      WalkCount(r, kid, d + 1, x, e);
      WalkKidsStep(r, id, d, n, x);
      if e > d { OneMoreKid(r.Kids(id), n, r.Climb(x, e - d - 1), Copies(r, x, e - d - 1)); }
    }
  }

  lemma WalkKidsStep(r: Running, id: Id, d: nat, n: nat, x: Id)
    requires id in r.order && r.Rooted(id, d) && 0 < n <= |r.Kids(id)|
    requires var kid := r.Kids(id)[n - 1]; kid in r.order && r.Rooted(kid, d + 1)
    ensures Occurs(WalkKids(r, id, d, n), x)
      == Occurs(WalkKids(r, id, d, n - 1), x) + Occurs(Walk(r, r.Kids(id)[n - 1], d + 1), x)
  {
    JoinCount(WalkKids(r, id, d, n - 1), Walk(r, r.Kids(id)[n - 1], d + 1), x);
  }

  lemma WalkTopsStep(r: Running, n: nat, x: Id)
    requires 0 < n <= |r.Tops(|r.order|)|
    requires var top := r.Tops(|r.order|)[n - 1]; top in r.order && r.Rooted(top, 0)
    ensures Occurs(WalkTops(r, n), x)
      == Occurs(WalkTops(r, n - 1), x) + Occurs(Walk(r, r.Tops(|r.order|)[n - 1], 0), x)
  {
    JoinCount(WalkTops(r, n - 1), Walk(r, r.Tops(|r.order|)[n - 1], 0), x);
  }

  lemma OneMoreKid(s: seq<Id>, n: nat, a: Id, copies: nat)
    requires 0 < n <= |s|
    ensures copies * Times(s, a, n) == copies * Times(s, a, n - 1) + (if s[n - 1] == a then copies else 0)
  {
  }

  lemma {:induction false} WalkTopsCount(r: Running, n: nat, x: Id, e: nat)
    requires r.Rooted(x, e) && n <= |r.Tops(|r.order|)|
    ensures Occurs(WalkTops(r, n), x) == Copies(r, x, e) * Times(r.Tops(|r.order|), r.Climb(x, e), n)
  {
    if n > 0 {
      TopsAre(r, |r.order|);
      var top := r.Tops(|r.order|)[n - 1];
      WalkTopsCount(r, n - 1, x, e);
      WalkCount(r, top, 0, x, e);
      WalkTopsStep(r, n, x);
      OneMoreKid(r.Tops(|r.order|), n, r.Climb(x, e), Copies(r, x, e));
    }
  }

  /** A session whose chain ends is listed once for every way to pick one copy
      of each session on its chain. */
  lemma {:induction false} AnchoredCount(r: Running, x: Id, e: nat)
    requires r.Rooted(x, e)
    ensures Occurs(Keys(r), x) == Copies(r, x, e + 1)
  {
    var tops := r.Tops(|r.order|);
    WalkTopsCount(r, |tops|, x, e);
    ClimbRooted(r, x, e, e);
    TopsCount(r, |r.order|, r.Climb(x, e));
  }

  lemma {:induction false} WalkAnchored(r: Running, id: Id, d: nat)
    requires id in r.order && r.Rooted(id, d)
    ensures forall x :: x in Walk(r, id, d) ==> r.Anchored(x)
    decreases |r.order| - d, |r.Kids(id)| + 1
  {
    DepthBounded(r, id, d);
    WalkKidsAnchored(r, id, d, |r.Kids(id)|);
  }

  lemma {:induction false} WalkKidsAnchored(r: Running, id: Id, d: nat, n: nat)
    requires id in r.order && r.Rooted(id, d) && n <= |r.Kids(id)|
    ensures forall x :: x in WalkKids(r, id, d, n) ==> r.Anchored(x)
    decreases |r.order| - d, n
  {
    if n > 0 {
      UnderAre(r, id, |r.order|);
      DepthBounded(r, id, d);
      WalkKidsAnchored(r, id, d, n - 1);
      WalkAnchored(r, r.Kids(id)[n - 1], d + 1);
    }
  }

  lemma {:induction false} WalkTopsAnchored(r: Running, n: nat)
    requires n <= |r.Tops(|r.order|)|
    ensures forall x :: x in WalkTops(r, n) ==> r.Anchored(x)
  {
    if n > 0 {
      TopsAre(r, |r.order|);
      WalkTopsAnchored(r, n - 1);
      WalkAnchored(r, r.Tops(|r.order|)[n - 1], 0);
    }
  }

  /** A session on a parent cycle, or below one, is in no part of the forest. */
  lemma CyclesVanish(r: Running, x: Id)
    requires !r.Anchored(x)
    ensures x !in Keys(r)
  {
    WalkTopsAnchored(r, |r.Tops(|r.order|)|);
  }

  lemma {:induction false} CopiesGrow(r: Running, x: Id, e: nat, k: nat)
    requires r.Rooted(x, e) && x in r.order && 1 <= k <= e + 1
    ensures Occurs(r.order, x) <= Copies(r, x, k)
    ensures (forall a :: a in r.order ==> Occurs(r.order, a) == 1) ==> Copies(r, x, k) == 1
  {
    ClimbInOrder(r, x, k - 1);
    if k == 1 {
      assert Copies(r, x, 0) == 1;
    } else {
      CopiesGrow(r, x, e, k - 1);
      var m := Occurs(r.order, r.Climb(x, k - 1));
      OccursIff(r.order, r.Climb(x, k - 1));
      assert Copies(r, x, k - 1) * m >= Copies(r, x, k - 1);
    }
  }

  lemma {:induction false} ClimbInOrder(r: Running, x: Id, k: nat)
    requires x in r.order
    ensures r.Climb(x, k) in r.order
    decreases k
  {
    if k > 0 && r.Nested(x) { ClimbInOrder(r, r.parentOf[x], k - 1); }
  }

  /** When every id is built once, the walk lists a running session exactly once
      if its parent chain ends, and never otherwise. */
  lemma ListedOnceIff(r: Running, x: Id)
    requires x in r.order && forall a :: a in r.order ==> Occurs(r.order, a) == 1
    ensures Occurs(Keys(r), x) == if r.Anchored(x) then 1 else 0
  {
    if r.Anchored(x) {
      var e: nat :| r.Rooted(x, e);
      AnchoredCount(r, x, e);
      CopiesGrow(r, x, e, e + 1);
    } else {
      CyclesVanish(r, x);
      OccursIff(Keys(r), x);
    }
  }

  /** Every running session is listed exactly once if and only if no id is built
      twice and every parent chain ends. */
  lemma AllListedOnceIff(r: Running)
    ensures (forall x :: x in r.order ==> Occurs(Keys(r), x) == 1)
      <==> (forall x :: x in r.order ==> Occurs(r.order, x) == 1 && r.Anchored(x))
  {
    if forall x :: x in r.order ==> Occurs(r.order, x) == 1 && r.Anchored(x) {
      forall x | x in r.order ensures Occurs(Keys(r), x) == 1 { ListedOnceIff(r, x);
    }
    }
    if forall x :: x in r.order ==> Occurs(Keys(r), x) == 1 {
      forall x | x in r.order ensures Occurs(r.order, x) == 1 && r.Anchored(x) {
        OccursIff(Keys(r), x);
        OccursIff(r.order, x);
        if !r.Anchored(x) { CyclesVanish(r, x); }
        var e: nat :| r.Rooted(x, e);
        AnchoredCount(r, x, e);
        CopiesGrow(r, x, e, e + 1);
      }
    }
  }

  // ----- one id, two vendors -----

  /** A running session; the table of sessions is keyed by its id alone. */
  datatype Session = Session(vendor: string, id: Id)

  function Ids(built: seq<Session>): seq<Id> {
    if built == [] then [] else Ids(built[..|built| - 1]) + [built[|built| - 1].id]
  }

  /** What the table holds under id: the session built last. */
  function Kept(built: seq<Session>, id: Id): Session
    requires exists s :: s in built && s.id == id
  {
    var last := built[|built| - 1];
    if last.id == id then last
    else
      assert forall s :: s in built ==> s == last || s in built[..|built| - 1];
      Kept(built[..|built| - 1], id)
  }

  /** s is somewhere in the forest. */
  ghost predicate Shown(built: seq<Session>, parentOf: map<Id, Id>, s: Session) {
    s in built && s.id in Keys(Running(Ids(built), parentOf)) && Kept(built, s.id) == s
  }

  lemma {:induction false} IdsAre(built: seq<Session>, s: Session)
    requires s in built
    ensures s.id in Ids(built)
  {
    var init, last := built[..|built| - 1], built[|built| - 1];
    if s != last {
      assert s in init;
      IdsAre(init, s);
    }
  }

  lemma {:induction false} KeptIsIn(built: seq<Session>, id: Id)
    requires exists s :: s in built && s.id == id
    ensures Kept(built, id) in built && Kept(built, id).id == id
  {
    var init, last := built[..|built| - 1], built[|built| - 1];
    if last.id != id {
      assert forall s :: s in built ==> s == last || s in init;
      KeptIsIn(init, id);
    }
  }

  /** A session is shown if and only if its chain ends and no session of its id
      was built after it. */
  lemma {:induction false} ShownIff(built: seq<Session>, parentOf: map<Id, Id>, s: Session)
    requires s in built
    ensures Shown(built, parentOf, s) <==> Running(Ids(built), parentOf).Anchored(s.id) && Kept(built, s.id) == s
  {
    var r := Running(Ids(built), parentOf);
    IdsAre(built, s);
    if r.Anchored(s.id) {
      var e: nat :| r.Rooted(s.id, e);
      AnchoredCount(r, s.id, e);
      CopiesGrow(r, s.id, e, e + 1);
      OccursIff(r.order, s.id);
      OccursIff(Keys(r), s.id);
    } else {
      CyclesVanish(r, s.id);
    }
  }

  /** Two sessions of one id are never both shown. */
  lemma {:induction false} OneOfTwoShown(built: seq<Session>, parentOf: map<Id, Id>, s: Session, t: Session)
    requires s in built && t in built && s.id == t.id && s != t
    ensures !Shown(built, parentOf, s) || !Shown(built, parentOf, t)
    ensures Running(Ids(built), parentOf).Anchored(s.id) ==>
      Kept(built, s.id) in built && Kept(built, s.id).id == s.id && Shown(built, parentOf, Kept(built, s.id))
  {
    KeptIsIn(built, s.id);
    ShownIff(built, parentOf, Kept(built, s.id));
  }

  /** Acyclic parent links, given by any rank that falls from child to parent. */
  lemma {:induction false} AcyclicIsAnchored(r: Running, rank: Id -> nat, x: Id)
    requires forall a :: r.Nested(a) ==> rank(r.parentOf[a]) < rank(a)
    ensures r.Anchored(x)
    decreases rank(x)
  {
    if r.Nested(x) {
      AcyclicIsAnchored(r, rank, r.parentOf[x]);
      var e: nat :| r.Rooted(r.parentOf[x], e);
      assert r.Rooted(x, e + 1);
    } else {
      assert r.Rooted(x, 0);
    }
  }
}
