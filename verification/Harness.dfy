/** Which AI harness each process belongs to: the rule table, and the memoised
    walk up the parent chain. */
module Harnesses {
  import opened Schema
  import opened Strings

  datatype Harness =
    | Claude | ClaudeDesktop | Codex | CopilotCLI | CopilotVSCode | Hermes
    | WSL | Self | SelfWebview | NodeUnclassified | Other

  datatype Proc = Proc(ppid: int, name: string, cmdline: string)

  type Procs = map<int, Proc>

  predicate IsVSCodeName(name: string) {
    name == "code.exe" || name == "code - insiders.exe" || name == "code"
  }

  /** The rules on the command line. */
  function ByCommand(p: Proc, vscode: bool): Option<Harness> {
    var cmd, name := ReplaceAll(Lower(p.cmdline), '\\', '/'), Lower(p.name);
    if Contains(cmd, "@anthropic-ai/claude-code") then Some(Claude)
    else if Contains(cmd, "@openai/codex") then Some(Codex)
    else if Contains(cmd, "github-copilot-cli") then Some(CopilotCLI)
    else if vscode && IsVSCodeName(name) && Contains(cmd, "copilot") then Some(CopilotVSCode)
    else if Contains(cmd, "hermes") then Some(Hermes)
    else if Contains(cmd, "claude desktop") || Contains(cmd, "anthropic-cowork") then Some(ClaudeDesktop)
    else None
  }

  /** The rules on the process name; the capitalised Electron shell comes first. */
  function ByName(p: Proc): Option<Harness> {
    var name := Lower(p.name);
    if p.name == "Claude.exe" || p.name == "Claude" then Some(ClaudeDesktop)
    else if name == "claude.exe" || name == "claude" then Some(Claude)
    else if name == "codex.exe" || name == "codex" then Some(Codex)
    else if name == "copilot.exe" || name == "copilot" || name == "gh-copilot" then Some(CopilotCLI)
    else if name == "hermes" || name == "hermes.exe" then Some(Hermes)
    else if name == "vmmem" || name == "vmmemwsl" then Some(WSL)
    else if name == "burnmon-dev.exe" || name == "burnmon-dev" then Some(Self)
    else None
  }

  /** What a process is by itself, without its parents. */
  function Direct(p: Proc, vscode: bool): Option<Harness> {
    if ByCommand(p, vscode).Some? then ByCommand(p, vscode) else ByName(p)
  }

  predicate IsWebview(p: Proc) {
    Lower(p.name) == "msedgewebview2.exe" || Lower(p.name) == "msedgewebview2"
  }

  predicate IsNode(p: Proc) {
    Lower(p.name) == "node.exe" || Lower(p.name) == "node"
  }

  /** Classify, given what the lookup of the parent returns. */
  function Classify(p: Proc, vscode: bool, parent: Option<Harness>): Harness {
    if Direct(p, vscode).Some? then Direct(p, vscode).value
    else if IsWebview(p) && (parent == Some(Self) || parent == Some(SelfWebview)) then SelfWebview
    else if parent.Some? then parent.value
    else if IsNode(p) then NodeUnclassified
    else Other
  }

  /** A rule table, as the walk uses it. */
  datatype Rules = Rules(direct: Proc -> Option<Harness>, classify: (Proc, Option<Harness>) -> Harness)

  function RulesOf(vscode: bool): Rules {
    Rules((p: Proc) => Direct(p, vscode), (p: Proc, parent: Option<Harness>) => Classify(p, vscode, parent))
  }

  /** A parent that is Other itself counts as not found. */
  function Inherited(h: Harness): Option<Harness> { if h != Other then Some(h) else None }

  /** The walk goes on to the parent exactly for these processes. */
  predicate Asks(procs: Procs, rules: Rules, pid: int) {
    pid in procs && rules.direct(procs[pid]).None? && procs[pid].ppid in procs
  }

  const MAX_DEPTH: int := 32

  type Memo = map<int, Harness>

  datatype Outcome = Outcome(memo: Memo, h: Harness)

  /** What the recursive closure returns and leaves in the memo. */
  function Resolved(procs: Procs, rules: Rules, memo: Memo, pid: int, depth: nat): Outcome
    decreases MAX_DEPTH + 1 - depth
  {
    if pid in memo then Outcome(memo, memo[pid])
    else if depth > MAX_DEPTH || pid !in procs then Outcome(memo, Other)
    else if Asks(procs, rules, pid) then
      var up := Resolved(procs, rules, memo, procs[pid].ppid, depth + 1);
      var h := rules.classify(procs[pid], Inherited(up.h));
      Outcome(up.memo[pid := h], h)
    else
      var h := rules.classify(procs[pid], None);
      Outcome(memo[pid := h], h)
  }

  /** What resolving the given processes one after the other leaves in the
      memo, and what it returns for each. */
  datatype Run = Run(memo: Memo, out: Memo)

  function ResolvedAll(procs: Procs, rules: Rules, run: Run, order: seq<int>): Run
    decreases |order|
  {
    if order == [] then run
    else
      var r := Resolved(procs, rules, run.memo, order[0], 0);
      ResolvedAll(procs, rules, Run(r.memo, run.out[order[0] := r.h]), order[1..])
  }

  /** resolveHarnesses over one order of the map. */
  function Harnesses(procs: Procs, rules: Rules, order: seq<int>): Memo {
    ResolvedAll(procs, rules, Run(map[], map[]), order).out
  }

  class Resolver {
    const procs: Procs
    const rules: Rules
    var resolved: Memo

    constructor (procs: Procs, vscode: bool)
      ensures this.procs == procs && rules == RulesOf(vscode) && resolved == map[]
    {
      this.procs, this.rules := procs, RulesOf(vscode);
      resolved := map[];
    }

    method Resolve(pid: int, depth: nat) returns (h: Harness)
      modifies this
      ensures Outcome(resolved, h) == Resolved(procs, rules, old(resolved), pid, depth)
      decreases MAX_DEPTH + 1 - depth
    {
      if pid in resolved {
        return resolved[pid];
      }
      if depth > MAX_DEPTH {
        return Other;
      }
      if pid !in procs {
        return Other;
      }
      var info := procs[pid];
      if rules.direct(info).Some? || info.ppid !in procs {
        h := rules.classify(info, None);
      } else {
        var parentH := Resolve(info.ppid, depth + 1);
        h := rules.classify(info, Inherited(parentH));
      }
      resolved := resolved[pid := h];
    }

    /** resolveHarnesses, for whatever order the map iteration takes. */
    method ResolveAll(order: seq<int>) returns (out: Memo)
      requires resolved == map[]
      modifies this
      ensures out == Harnesses(procs, rules, order)
    {
      out := map[];
      var i := 0;
      while i < |order|
        invariant 0 <= i <= |order|
        invariant ResolvedAll(procs, rules, Run(resolved, out), order[i..])
               == ResolvedAll(procs, rules, Run(map[], map[]), order)
      {
        assert order[i..][1..] == order[i + 1..];
        var h := Resolve(order[i], 0);
        out := out[order[i] := h];
        i := i + 1;
      }
    }
  }

  /** The memo never loses a process, and it holds the one just resolved. */
  lemma {:induction false} ResolvedGrows(procs: Procs, rules: Rules, memo: Memo, pid: int, depth: nat)
    ensures var r := Resolved(procs, rules, memo, pid, depth);
            && memo.Keys <= r.memo.Keys
            && (pid in procs && depth <= MAX_DEPTH ==> pid in r.memo && r.memo[pid] == r.h)
    decreases MAX_DEPTH + 1 - depth
  {
    if pid !in memo && depth <= MAX_DEPTH && Asks(procs, rules, pid) {
      ResolvedGrows(procs, rules, memo, procs[pid].ppid, depth + 1);
    }
  }

  // ----- against plain recursion -----

  /** The chain of parents asked from pid on ends within k steps. */
  predicate Fits(procs: Procs, rules: Rules, pid: int, k: nat)
    decreases k
  {
    !Asks(procs, rules, pid) || (k > 0 && Fits(procs, rules, procs[pid].ppid, k - 1))
  }

  /** Classify by plain recursion: no memo, no depth. */
  function Plain(procs: Procs, rules: Rules, pid: int, k: nat): Harness
    requires pid in procs && Fits(procs, rules, pid, k)
    decreases k
  {
    rules.classify(procs[pid],
             if Asks(procs, rules, pid) then Inherited(Plain(procs, rules, procs[pid].ppid, k - 1)) else None)
  }

  lemma {:induction false} FitsMonotone(procs: Procs, rules: Rules, pid: int, k: nat, k': nat)
    requires Fits(procs, rules, pid, k) && k <= k'
    ensures Fits(procs, rules, pid, k')
    decreases k
  {
    if Asks(procs, rules, pid) { FitsMonotone(procs, rules, procs[pid].ppid, k - 1, k' - 1); }
  }

  /** The bound only serves termination. */
  lemma {:induction false} PlainBound(procs: Procs, rules: Rules, pid: int, k: nat, k': nat)
    requires pid in procs && Fits(procs, rules, pid, k) && Fits(procs, rules, pid, k')
    ensures Plain(procs, rules, pid, k) == Plain(procs, rules, pid, k')
    decreases k
  {
    if Asks(procs, rules, pid) { PlainBound(procs, rules, procs[pid].ppid, k - 1, k' - 1); }
  }

  /** No cycle of processes that ask: every chain ends within n steps. */
  predicate Ends(procs: Procs, rules: Rules, n: nat) {
    forall pid :: pid in procs ==> Fits(procs, rules, pid, n)
  }

  lemma {:induction false} PlainOfAsker(procs: Procs, rules: Rules, n: nat, pid: int)
    requires Ends(procs, rules, n) && Asks(procs, rules, pid)
    ensures Plain(procs, rules, pid, n)
        == rules.classify(procs[pid], Inherited(Plain(procs, rules, procs[pid].ppid, n)))
  {
    assert Fits(procs, rules, pid, n);
    PlainBound(procs, rules, procs[pid].ppid, n, n - 1);
  }

  /** Every entry is what plain recursion gives. */
  ghost predicate Correct(procs: Procs, rules: Rules, n: nat, memo: Memo)
    requires Ends(procs, rules, n)
  {
    forall pid :: pid in memo ==> pid in procs && memo[pid] == Plain(procs, rules, pid, n)
  }

  /** Asking k times, one parent after the other, leads from a to q. */
  predicate AskedFrom(procs: Procs, rules: Rules, a: int, q: int, k: nat)
    decreases k
  {
    if k == 0 then a == q else Asks(procs, rules, a) && AskedFrom(procs, rules, procs[a].ppid, q, k - 1)
  }

  lemma {:induction false} AskedOn(procs: Procs, rules: Rules, a: int, q: int, k: nat)
    requires AskedFrom(procs, rules, a, q, k) && Asks(procs, rules, q)
    ensures AskedFrom(procs, rules, a, procs[q].ppid, k + 1)
    decreases k
  {
    if k > 0 { AskedOn(procs, rules, procs[a].ppid, q, k - 1); }
  }

  /** A process at the cap is classed as if it had no parent: q is one when some
      process reaches it by asking 32 times. */
  predicate CutAt(procs: Procs, rules: Rules, a: int, q: int) {
    AskedFrom(procs, rules, a, q, MAX_DEPTH) && Asks(procs, rules, q)
  }

  /** Wherever the cap can cut, the parent makes no difference. */
  ghost predicate CutsDoNoHarm(procs: Procs, rules: Rules, n: nat)
    requires Ends(procs, rules, n)
  {
    forall a, q :: CutAt(procs, rules, a, q) ==> rules.classify(procs[q], None) == Plain(procs, rules, q, n)
  }

  lemma {:induction false} ResolvedCorrect(procs: Procs, rules: Rules, n: nat, memo: Memo, a: int, pid: int, depth: nat)
    requires Ends(procs, rules, n) && Correct(procs, rules, n, memo) && CutsDoNoHarm(procs, rules, n)
    requires pid in procs && depth <= MAX_DEPTH && AskedFrom(procs, rules, a, pid, depth)
    ensures var r := Resolved(procs, rules, memo, pid, depth);
            Correct(procs, rules, n, r.memo) && r.h == Plain(procs, rules, pid, n)
    decreases MAX_DEPTH + 1 - depth
  {
    if pid !in memo && Asks(procs, rules, pid) {
      var ppid := procs[pid].ppid;
      PlainOfAsker(procs, rules, n, pid);
      if depth < MAX_DEPTH {
        AskedOn(procs, rules, a, pid, depth);
        ResolvedCorrect(procs, rules, n, memo, a, ppid, depth + 1);
      } else {
        assert CutAt(procs, rules, a, pid);
      }
    }
  }

  lemma {:induction false} ResolvedAllCorrect(procs: Procs, rules: Rules, n: nat, run: Run, order: seq<int>)
    requires Ends(procs, rules, n) && CutsDoNoHarm(procs, rules, n)
    requires Correct(procs, rules, n, run.memo) && Correct(procs, rules, n, run.out)
    requires forall pid :: pid in order ==> pid in procs
    ensures Correct(procs, rules, n, ResolvedAll(procs, rules, run, order).out)
    decreases |order|
  {
    if order != [] {
      assert order[0] in order;
      ResolvedCorrect(procs, rules, n, run.memo, order[0], order[0], 0);
      var r := Resolved(procs, rules, run.memo, order[0], 0);
      assert forall pid :: pid in order[1..] ==> pid in order;
      ResolvedAllCorrect(procs, rules, n, Run(r.memo, run.out[order[0] := r.h]), order[1..]);
    }
  }

  lemma {:induction false} ResolvedAllKeys(procs: Procs, rules: Rules, run: Run, order: seq<int>)
    ensures ResolvedAll(procs, rules, run, order).out.Keys == run.out.Keys + (set pid | pid in order)
    decreases |order|
  {
    if order != [] {
      var r := Resolved(procs, rules, run.memo, order[0], 0);
      ResolvedAllKeys(procs, rules, Run(r.memo, run.out[order[0] := r.h]), order[1..]);
      assert (set pid | pid in order) == {order[0]} + (set pid | pid in order[1..]);
    }
  }

  /** order is one order in which the map may be walked. */
  ghost predicate Lists(order: seq<int>, procs: Procs) {
    && (forall p :: p in order <==> p in procs)
    && Distinct(order)
  }

  predicate Distinct(s: seq<int>) {
    forall i, j :: 0 <= i < j < |s| ==> s[i] != s[j]
  }

  lemma {:induction false} HarmlessIsPlain(procs: Procs, rules: Rules, n: nat, order: seq<int>)
    requires Ends(procs, rules, n) && CutsDoNoHarm(procs, rules, n) && Lists(order, procs)
    ensures Harnesses(procs, rules, order) == map p | p in procs :: Plain(procs, rules, p, n)
  {
    var start := Run(map[], map[]);
    ResolvedAllCorrect(procs, rules, n, start, order);
    ResolvedAllKeys(procs, rules, start, order);
    var out := Harnesses(procs, rules, order);
    forall p ensures p in out <==> p in procs {
      assert p in out.Keys <==> p in order;
    }
  }

  lemma {:induction false} FitsIsNotCut(procs: Procs, rules: Rules, a: int, q: int, k: nat)
    requires Fits(procs, rules, a, k) && AskedFrom(procs, rules, a, q, k)
    ensures !Asks(procs, rules, q)
    decreases k
  {
    if k > 0 { FitsIsNotCut(procs, rules, procs[a].ppid, q, k - 1); }
  }

  /** When every chain fits the depth cap, which also rules out cycles of
      processes that ask, the memoised result is plain recursion on Classify,
      so it does not depend on the order of the map. */
  lemma {:induction false} MemoIsPlainRecursion(procs: Procs, rules: Rules, order: seq<int>)
    requires Lists(order, procs) && Ends(procs, rules, MAX_DEPTH)
    ensures Harnesses(procs, rules, order) == map p | p in procs :: Plain(procs, rules, p, MAX_DEPTH)
  {
    forall a, q ensures !CutAt(procs, rules, a, q) {
      if AskedFrom(procs, rules, a, q, MAX_DEPTH) {
        assert Fits(procs, rules, a, MAX_DEPTH);
        FitsIsNotCut(procs, rules, a, q, MAX_DEPTH);
      }
    }
    HarmlessIsPlain(procs, rules, MAX_DEPTH, order);
  }

  // ----- chains over the cap: two orders, two results -----

  lemma {:induction false} ResolvedKeeps(procs: Procs, rules: Rules, memo: Memo, pid: int, depth: nat, q: int)
    requires q in memo
    ensures var r := Resolved(procs, rules, memo, pid, depth); q in r.memo && r.memo[q] == memo[q]
    decreases MAX_DEPTH + 1 - depth
  {
    if pid !in memo && depth <= MAX_DEPTH && Asks(procs, rules, pid) {
      ResolvedKeeps(procs, rules, memo, procs[pid].ppid, depth + 1, q);
    }
  }

  /** What the memo once says of q is what is returned for q. */
  lemma {:induction false} ResolvedAllKeeps(procs: Procs, rules: Rules, run: Run, order: seq<int>, q: int)
    requires q in run.memo && (q in run.out ==> run.out[q] == run.memo[q])
    ensures var out := ResolvedAll(procs, rules, run, order).out; q in out ==> out[q] == run.memo[q]
    decreases |order|
  {
    if order != [] {
      var r := Resolved(procs, rules, run.memo, order[0], 0);
      ResolvedKeeps(procs, rules, run.memo, order[0], 0, q);
      ResolvedAllKeeps(procs, rules, Run(r.memo, run.out[order[0] := r.h]), order[1..], q);
    }
  }

  lemma {:induction false} NoCycle(procs: Procs, rules: Rules, a: int, k: nat, n: nat)
    requires Fits(procs, rules, a, n) && k > 0
    ensures !AskedFrom(procs, rules, a, a, k)
    decreases n
  {
    if AskedFrom(procs, rules, a, a, k) {
      AskedOn(procs, rules, procs[a].ppid, a, k - 1);
      NoCycle(procs, rules, procs[a].ppid, k, n - 1);
    }
  }

  /** From a cold memo the walk is cut behind q. */
  lemma {:induction false} ColdCut(procs: Procs, rules: Rules, n: nat, pid: int, q: int, depth: nat)
    requires Ends(procs, rules, n) && depth <= MAX_DEPTH
    requires AskedFrom(procs, rules, pid, q, MAX_DEPTH - depth) && Asks(procs, rules, q)
    ensures var r := Resolved(procs, rules, map[], pid, depth);
            q in r.memo && r.memo[q] == rules.classify(procs[q], None)
    decreases MAX_DEPTH + 1 - depth
  {
    if depth < MAX_DEPTH {
      assert Fits(procs, rules, pid, n);
      NoCycle(procs, rules, pid, MAX_DEPTH - depth, n);
      ColdCut(procs, rules, n, procs[pid].ppid, q, depth + 1);
    } else {
      assert Resolved(procs, rules, map[], procs[pid].ppid, depth + 1) == Outcome(map[], Other);
    }
  }

  /** pid's chain, its far end first. */
  function RootFirst(procs: Procs, rules: Rules, pid: int, k: nat): seq<int>
    requires Fits(procs, rules, pid, k)
    decreases k
  {
    if Asks(procs, rules, pid) then RootFirst(procs, rules, procs[pid].ppid, k - 1) + [pid] else [pid]
  }

  lemma {:induction false} RootFirstIsChain(procs: Procs, rules: Rules, pid: int, k: nat, i: nat)
    requires Fits(procs, rules, pid, k) && pid in procs && i < |RootFirst(procs, rules, pid, k)|
    ensures var chain := RootFirst(procs, rules, pid, k);
            chain[i] in procs && AskedFrom(procs, rules, pid, chain[i], |chain| - 1 - i)
    decreases k
  {
    if Asks(procs, rules, pid) {
      var rest := RootFirst(procs, rules, procs[pid].ppid, k - 1);
      if i < |rest| { RootFirstIsChain(procs, rules, procs[pid].ppid, k - 1, i); }
    }
  }

  lemma {:induction false} RootFirstDistinct(procs: Procs, rules: Rules, pid: int, k: nat)
    requires Fits(procs, rules, pid, k) && pid in procs
    ensures Distinct(RootFirst(procs, rules, pid, k))
    decreases k
  {
    if Asks(procs, rules, pid) {
      var rest := RootFirst(procs, rules, procs[pid].ppid, k - 1);
      RootFirstDistinct(procs, rules, procs[pid].ppid, k - 1);
      forall i | 0 <= i < |rest| ensures rest[i] != pid {
        RootFirstIsChain(procs, rules, pid, k, i);
        NoCycle(procs, rules, pid, |rest| - i, k);
      }
      DistinctJoin(rest, [pid]);
    }
  }

  lemma DistinctJoin(a: seq<int>, b: seq<int>)
    requires Distinct(a) && Distinct(b) && forall p :: p in a ==> p !in b
    ensures Distinct(a + b)
  {
    forall i, j | 0 <= i < j < |a + b| ensures (a + b)[i] != (a + b)[j] {
      if i < |a| <= j { assert (a + b)[i] in a && (a + b)[j] in b;
    }
    }
  }

  lemma {:induction false} ResolvedAllAppend(procs: Procs, rules: Rules, run: Run, a: seq<int>, b: seq<int>)
    ensures ResolvedAll(procs, rules, run, a + b) == ResolvedAll(procs, rules, ResolvedAll(procs, rules, run, a), b)
    decreases |a|
  {
    if a == [] {
      assert a + b == b;
    } else {
      assert (a + b)[1..] == a[1..] + b;
      var r := Resolved(procs, rules, run.memo, a[0], 0);
      ResolvedAllAppend(procs, rules, Run(r.memo, run.out[a[0] := r.h]), a[1..], b);
    }
  }

  /** With its parent in the memo, a process is classed as it should be. */
  lemma {:induction false} WarmIsPlain(procs: Procs, rules: Rules, n: nat, memo: Memo, pid: int)
    requires Ends(procs, rules, n) && Correct(procs, rules, n, memo) && pid in procs
    requires Asks(procs, rules, pid) ==> procs[pid].ppid in memo
    ensures var r := Resolved(procs, rules, memo, pid, 0);
            Correct(procs, rules, n, r.memo) && pid in r.memo && r.h == Plain(procs, rules, pid, n)
  {
    if Asks(procs, rules, pid) { PlainOfAsker(procs, rules, n, pid); }
  }

  lemma {:induction false} RootFirstIsPlain(procs: Procs, rules: Rules, n: nat, pid: int, k: nat)
    requires Ends(procs, rules, n) && pid in procs && Fits(procs, rules, pid, k)
    ensures var run := ResolvedAll(procs, rules, Run(map[], map[]), RootFirst(procs, rules, pid, k));
            Correct(procs, rules, n, run.memo) && Correct(procs, rules, n, run.out) && pid in run.memo
    decreases k
  {
    var start, before := Run(map[], map[]), [];
    if Asks(procs, rules, pid) {
      before := RootFirst(procs, rules, procs[pid].ppid, k - 1);
      RootFirstIsPlain(procs, rules, n, procs[pid].ppid, k - 1);
    }
    var run := ResolvedAll(procs, rules, start, before);
    assert RootFirst(procs, rules, pid, k) == before + [pid];
    ResolvedAllAppend(procs, rules, start, before, [pid]);
    WarmIsPlain(procs, rules, n, run.memo, pid);
    OneMore(procs, rules, run, pid);
  }

  lemma {:induction false} OneMore(procs: Procs, rules: Rules, run: Run, pid: int)
    ensures var r := Resolved(procs, rules, run.memo, pid, 0);
            ResolvedAll(procs, rules, run, [pid]) == Run(r.memo, run.out[pid := r.h])
  {
    var r := Resolved(procs, rules, run.memo, pid, 0);
    assert [pid][1..] == [];
    assert ResolvedAll(procs, rules, Run(r.memo, run.out[pid := r.h]), []) == Run(r.memo, run.out[pid := r.h]);
  }

  lemma {:induction false} SetListed(s: set<int>) returns (order: seq<int>)
    ensures forall p :: p in order <==> p in s
    ensures Distinct(order)
    decreases s
  {
    order := [];
    if s != {} {
      assert (forall p :: p !in s) ==> s <= {};
      var p :| p in s;
      var rest := SetListed(s - {p});
      order := [p] + rest;
      DistinctJoin([p], rest);
    }
  }

  /** Any start without repetition goes on to a whole order. */
  lemma OrderFrom(procs: Procs, first: seq<int>) returns (order: seq<int>, rest: seq<int>)
    requires forall i :: 0 <= i < |first| ==> first[i] in procs
    requires Distinct(first)
    ensures order == first + rest && Lists(order, procs)
  {
    rest := SetListed(procs.Keys - set p | p in first);
    order := first + rest;
    DistinctJoin(first, rest);
    forall p ensures p in order <==> p in procs {
      assert p in order <==> p in first || p in rest;
    }
  }

  lemma {:induction false} ColdStart(procs: Procs, rules: Rules, n: nat, a: int, q: int)
    requires Ends(procs, rules, n) && CutAt(procs, rules, a, q)
    ensures var run := ResolvedAll(procs, rules, Run(map[], map[]), [a]);
            q in run.memo && run.memo[q] == rules.classify(procs[q], None) && q !in run.out
  {
    ColdCut(procs, rules, n, a, q, 0);
    OneMore(procs, rules, Run(map[], map[]), a);
    assert Fits(procs, rules, a, n);
    NoCycle(procs, rules, a, MAX_DEPTH, n);
  }

  /** What the memo says of q after a first stretch is what the whole walk returns. */
  lemma {:induction false} StretchDecides(
      procs: Procs, rules: Rules, first: seq<int>, rest: seq<int>, q: int, h: Harness)
    requires Lists(first + rest, procs) && q in procs
    requires var run := ResolvedAll(procs, rules, Run(map[], map[]), first);
             q in run.memo && run.memo[q] == h && (q in run.out ==> run.out[q] == h)
    ensures q in Harnesses(procs, rules, first + rest) && Harnesses(procs, rules, first + rest)[q] == h
  {
    var start := Run(map[], map[]);
    ResolvedAllAppend(procs, rules, start, first, rest);
    ResolvedAllKeeps(procs, rules, ResolvedAll(procs, rules, start, first), rest, q);
    ResolvedAllKeys(procs, rules, start, first + rest);
    assert q in first + rest;
  }

  /** Started at a, the walk classes q as if it had no parent ... */
  lemma ColdOrder(procs: Procs, rules: Rules, n: nat, a: int, q: int) returns (order: seq<int>)
    requires Ends(procs, rules, n) && CutAt(procs, rules, a, q)
    ensures Lists(order, procs) && q in Harnesses(procs, rules, order)
    ensures Harnesses(procs, rules, order)[q] == rules.classify(procs[q], None)
  {
    var rest;
    order, rest := OrderFrom(procs, [a]);
    ColdStart(procs, rules, n, a, q);
    StretchDecides(procs, rules, [a], rest, q, rules.classify(procs[q], None));
  }

  /** ... and started at the far end of q's chain, as it should be. */
  lemma WarmOrder(procs: Procs, rules: Rules, n: nat, q: int) returns (order: seq<int>)
    requires Ends(procs, rules, n) && q in procs
    ensures Lists(order, procs) && q in Harnesses(procs, rules, order)
    ensures Harnesses(procs, rules, order)[q] == Plain(procs, rules, q, n)
  {
    assert Fits(procs, rules, q, n);
    var chain, rest := RootFirst(procs, rules, q, n), [];
    forall i | 0 <= i < |chain| ensures chain[i] in procs { RootFirstIsChain(procs, rules, q, n, i); }
    RootFirstDistinct(procs, rules, q, n);
    order, rest := OrderFrom(procs, chain);
    RootFirstIsPlain(procs, rules, n, q, n);
    StretchDecides(procs, rules, chain, rest, q, Plain(procs, rules, q, n));
  }

  /** Without cycles of processes that ask: the result is the same in every order
      of the map if and only if, for every process that some other reaches by
      asking 32 times, its parent makes no difference; and then it is plain
      recursion. */
  lemma OrderFreeIff(procs: Procs, rules: Rules, n: nat)
    requires Ends(procs, rules, n)
    ensures (forall order, order' :: Lists(order, procs) && Lists(order', procs) ==>
               Harnesses(procs, rules, order) == Harnesses(procs, rules, order'))
      <==> CutsDoNoHarm(procs, rules, n)
  {
    if CutsDoNoHarm(procs, rules, n) {
      forall order, order' | Lists(order, procs) && Lists(order', procs)
        ensures Harnesses(procs, rules, order) == Harnesses(procs, rules, order')
      {
        HarmlessIsPlain(procs, rules, n, order);
        HarmlessIsPlain(procs, rules, n, order');
      }
    } else {
      var a, q :| CutAt(procs, rules, a, q) && rules.classify(procs[q], None) != Plain(procs, rules, q, n);
      var cold := ColdOrder(procs, rules, n, a, q);
      var warm := WarmOrder(procs, rules, n, q);
      assert Harnesses(procs, rules, cold) != Harnesses(procs, rules, warm);
    }
  }

  /** In the rule table the parent makes no difference to a process that asks
      exactly when it comes out as Other, or as an unclassified node while the
      process is called node itself. */
  lemma {:induction false} NoHarmIff(procs: Procs, vscode: bool, n: nat, q: int)
    requires Ends(procs, RulesOf(vscode), n) && Asks(procs, RulesOf(vscode), q)
    ensures var rules := RulesOf(vscode); var up := Plain(procs, rules, procs[q].ppid, n);
            (rules.classify(procs[q], None) == Plain(procs, rules, q, n))
              <==> (up == Other || (up == NodeUnclassified && IsNode(procs[q])))
  {
    PlainOfAsker(procs, RulesOf(vscode), n, q);
  }

  /** 33 shells, each below the next, the last below claude. */
  const SHELLS: Procs := map i | 0 <= i <= 33 :: Proc(i + 1, if i == 33 then "claude" else "sh", "")

  lemma ShellAsks(vscode: bool, i: int)
    ensures Asks(SHELLS, RulesOf(vscode), i) <==> 0 <= i < 33
    ensures Direct(SHELLS[33], vscode) == Some(Claude)
  {
    assert Lower("sh") == "sh" && Lower("claude") == "claude";
    assert ReplaceAll(Lower(""), '\\', '/') == "";
  }

  lemma {:induction false} ShellsAskUp(vscode: bool, i: nat, k: nat)
    requires i + k <= 33
    ensures AskedFrom(SHELLS, RulesOf(vscode), i, i + k, k)
    decreases k
  {
    ShellAsks(vscode, i);
    if k > 0 { ShellsAskUp(vscode, i + 1, k - 1); }
  }

  lemma {:induction false} ShellsEnd(vscode: bool, i: nat)
    requires i <= 33
    ensures Fits(SHELLS, RulesOf(vscode), i, 33 - i)
    ensures Plain(SHELLS, RulesOf(vscode), i, 33 - i) == Claude
    decreases 33 - i
  {
    ShellAsks(vscode, i);
    if i < 33 { ShellsEnd(vscode, i + 1); }
  }

  lemma ShellsFit(vscode: bool)
    ensures Ends(SHELLS, RulesOf(vscode), 33) && Plain(SHELLS, RulesOf(vscode), 32, 33) == Claude
  {
    var rules := RulesOf(vscode);
    forall i | i in SHELLS ensures Fits(SHELLS, rules, i, 33) {
      ShellsEnd(vscode, i);
      FitsMonotone(SHELLS, rules, i, 33 - i, 33);
    }
    ShellsEnd(vscode, 32);
    PlainBound(SHELLS, rules, 32, 1, 33);
  }

  lemma ShellsAreCut(vscode: bool)
    ensures CutAt(SHELLS, RulesOf(vscode), 0, 32)
  {
    ShellAsks(vscode, 32);
    ShellsAskUp(vscode, 0, 32);
  }

  /** Two orders class them differently. */
  lemma ShellsDependOnOrder(vscode: bool) returns (order: seq<int>, order': seq<int>)
    ensures Lists(order, SHELLS) && Lists(order', SHELLS)
    ensures Harnesses(SHELLS, RulesOf(vscode), order) != Harnesses(SHELLS, RulesOf(vscode), order')
  {
    ShellsFit(vscode);
    ShellsAreCut(vscode);
    order := ColdOrder(SHELLS, RulesOf(vscode), 33, 0, 32);
    order' := WarmOrder(SHELLS, RulesOf(vscode), 33, 32);
    ShellIsOther(vscode);
  }

  lemma ShellIsOther(vscode: bool)
    ensures RulesOf(vscode).classify(SHELLS[32], None) == Other
  {
    ShellAsks(vscode, 32);
    assert Lower("sh") == "sh";
  }

  // ----- where a classification comes from, cycles or not -----

  /** q is pid itself or an ancestor, k parents up. */
  predicate Above(procs: Procs, pid: int, q: int, k: nat)
    decreases k
  {
    pid in procs && (if k == 0 then pid == q else Above(procs, procs[pid].ppid, q, k - 1))
  }

  /** q is what makes a process be h. */
  predicate Origin(procs: Procs, vscode: bool, q: int, h: Harness) {
    && q in procs
    && (|| Direct(procs[q], vscode) == Some(h)
        || (h == SelfWebview && Direct(procs[q], vscode) == Some(Self))
        || (h == NodeUnclassified && IsNode(procs[q])))
  }

  ghost predicate Justified(procs: Procs, vscode: bool, pid: int, h: Harness) {
    h == Other || exists q, k: nat :: Above(procs, pid, q, k) && Origin(procs, vscode, q, h)
  }

  ghost predicate Sound(procs: Procs, vscode: bool, memo: Memo) {
    forall pid :: pid in memo ==> pid in procs && Justified(procs, vscode, pid, memo[pid])
  }

  lemma JustifiedBySelf(procs: Procs, vscode: bool, pid: int, h: Harness)
    requires pid in procs && Origin(procs, vscode, pid, h)
    ensures Justified(procs, vscode, pid, h)
  {
    assert Above(procs, pid, pid, 0);
  }

  lemma JustifiedByParent(procs: Procs, vscode: bool, pid: int, h: Harness)
    requires pid in procs && h != Other && Justified(procs, vscode, procs[pid].ppid, h)
    ensures Justified(procs, vscode, pid, h)
    ensures h == Self ==> Justified(procs, vscode, pid, SelfWebview)
  {
    var q, k: nat :| Above(procs, procs[pid].ppid, q, k) && Origin(procs, vscode, q, h);
    assert Above(procs, pid, q, k + 1);
    if h == Self { assert Origin(procs, vscode, q, SelfWebview); }
  }

  lemma ClassifyJustified(procs: Procs, vscode: bool, pid: int, up: Harness)
    requires pid in procs && (up != Other ==> Justified(procs, vscode, procs[pid].ppid, up))
    ensures Justified(procs, vscode, pid, Classify(procs[pid], vscode, Inherited(up)))
  {
    var h := Classify(procs[pid], vscode, Inherited(up));
    if Direct(procs[pid], vscode).Some? {
      JustifiedBySelf(procs, vscode, pid, h);
    } else if up != Other {
      JustifiedByParent(procs, vscode, pid, up);
    } else if h == NodeUnclassified {
      JustifiedBySelf(procs, vscode, pid, h);
    }
  }

  /** A rule table that classes a process only by what stands above it. */
  ghost predicate Explains(procs: Procs, vscode: bool, rules: Rules) {
    forall pid, up :: pid in procs && (up != Other ==> Justified(procs, vscode, procs[pid].ppid, up)) ==>
      Justified(procs, vscode, pid, rules.classify(procs[pid], Inherited(up)))
  }

  lemma RulesExplain(procs: Procs, vscode: bool)
    ensures Explains(procs, vscode, RulesOf(vscode))
  {
    forall pid, up | pid in procs && (up != Other ==> Justified(procs, vscode, procs[pid].ppid, up))
      ensures Justified(procs, vscode, pid, RulesOf(vscode).classify(procs[pid], Inherited(up)))
    {
      ClassifyJustified(procs, vscode, pid, up);
    }
  }

  lemma {:induction false} ResolvedSound(procs: Procs, vscode: bool, rules: Rules, memo: Memo, pid: int, depth: nat)
    requires Sound(procs, vscode, memo) && Explains(procs, vscode, rules)
    ensures var r := Resolved(procs, rules, memo, pid, depth);
            Sound(procs, vscode, r.memo) && Justified(procs, vscode, pid, r.h)
    decreases MAX_DEPTH + 1 - depth
  {
    if pid !in memo && depth <= MAX_DEPTH && pid in procs {
      if Asks(procs, rules, pid) {
        ResolvedSound(procs, vscode, rules, memo, procs[pid].ppid, depth + 1);
        var up := Resolved(procs, rules, memo, procs[pid].ppid, depth + 1);
      } else {
        assert Inherited(Other) == None;
      }
    }
  }

  lemma {:induction false} ResolvedAllSound(procs: Procs, vscode: bool, rules: Rules, run: Run, order: seq<int>)
    requires Sound(procs, vscode, run.memo) && Sound(procs, vscode, run.out) && Explains(procs, vscode, rules)
    requires forall pid :: pid in order ==> pid in procs
    ensures Sound(procs, vscode, ResolvedAll(procs, rules, run, order).out)
    decreases |order|
  {
    if order != [] {
      assert order[0] in order;
      ResolvedSound(procs, vscode, rules, run.memo, order[0], 0);
      var r := Resolved(procs, rules, run.memo, order[0], 0);
      assert forall pid :: pid in order[1..] ==> pid in order;
      ResolvedAllSound(procs, vscode, rules, Run(r.memo, run.out[order[0] := r.h]), order[1..]);
    }
  }

  /** An ancestor-or-self of pid that is h by itself. */
  predicate Is(procs: Procs, vscode: bool, q: int, h: Harness) {
    q in procs && Direct(procs[q], vscode) == Some(h)
  }

  /** For every parent map, cyclic ones included, and every order: a process is
      classed as something only if it or an ancestor is that by itself; as the
      app's own WebView only below the app's own process; as an unclassified
      node only if it or an ancestor is called node. */
  lemma {:induction false} ClassComesFromAnAncestor(procs: Procs, vscode: bool, order: seq<int>, pid: int)
    requires forall p :: p in order <==> p in procs
    requires pid in procs
    ensures pid in Harnesses(procs, RulesOf(vscode), order)
    ensures var h := Harnesses(procs, RulesOf(vscode), order)[pid];
            && (h == SelfWebview ==> exists q, k: nat :: Above(procs, pid, q, k) && Is(procs, vscode, q, Self))
            && (h == NodeUnclassified ==> exists q, k: nat :: Above(procs, pid, q, k) && q in procs && IsNode(procs[q]))
            && (h != SelfWebview && h != NodeUnclassified && h != Other ==>
                  exists q, k: nat :: Above(procs, pid, q, k) && Is(procs, vscode, q, h))
  {
    RulesExplain(procs, vscode);
    ResolvedAllSound(procs, vscode, RulesOf(vscode), Run(map[], map[]), order);
    ResolvedAllKeys(procs, RulesOf(vscode), Run(map[], map[]), order);
    assert pid in order;
    var h := Harnesses(procs, RulesOf(vscode), order)[pid];
    if h != Other {
      var q, k: nat :| Above(procs, pid, q, k) && Origin(procs, vscode, q, h);
      DirectIsPlainClass(procs[q], vscode);
      assert h != NodeUnclassified ==> Is(procs, vscode, q, if h == SelfWebview then Self else h);
    }
  }

  lemma DirectIsPlainClass(p: Proc, vscode: bool)
    ensures Direct(p, vscode).Some? ==>
      Direct(p, vscode).value != SelfWebview && Direct(p, vscode).value != NodeUnclassified
        && Direct(p, vscode).value != Other
  {
  }

  /** The parent is ignored if and only if a rule on the process itself applies. */
  lemma ParentIgnoredIff(p: Proc, vscode: bool)
    ensures Direct(p, vscode).Some? <==> forall a, b :: Classify(p, vscode, a) == Classify(p, vscode, b)
  {
    assert Direct(p, vscode).None? ==> Classify(p, vscode, Some(Claude)) != Classify(p, vscode, Some(Codex));
  }
}
