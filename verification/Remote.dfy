/** Matching a project's git remote against a client's pattern. */
module Remotes {
  import opened Strings

  function NormalizeRemote(url: string): string {
    var u := TrimPrefix(url, "git@");
    if Contains(u, "://") then u else ReplaceFirst(u, ':', '/')
  }

  function CanonicalRemote(s: string): string {
    TrimSuffix(TrimSuffix(Lower(s), ".git"), "/")
  }

  predicate RemoteMatches(remote: string, pattern: string) {
    var r, p := CanonicalRemote(NormalizeRemote(remote)), CanonicalRemote(pattern);
    p != "" && (r == p || Contains("/" + r + "/", "/" + p + "/"))
  }

  // ----- the segments of a path -----

  /** strings.Split(s, "/"). */
  function Segments(s: string): (segs: seq<string>)
    ensures |segs| >= 1
  {
    if s == [] then [""]
    else
      var rest := Segments(s[1..]);
      if s[0] == '/' then [""] + rest else [[s[0]] + rest[0]] + rest[1..]
  }

  /** Every segment with a slash after it. */
  function Slashed(segs: seq<string>): string {
    if segs == [] then "" else segs[0] + "/" + Slashed(segs[1..])
  }

  predicate SlashFree(segs: seq<string>) {
    forall k :: 0 <= k < |segs| ==> '/' !in segs[k]
  }

  predicate StandsAt(part: seq<string>, whole: seq<string>, i: nat) {
    i + |part| <= |whole| && whole[i..i + |part|] == part
  }

  /** part is a contiguous stretch of whole. */
  predicate Sublist(part: seq<string>, whole: seq<string>) {
    exists i :: 0 <= i <= |whole| && StandsAt(part, whole, i)
  }

  lemma {:induction false} SegmentsSpell(s: string)
    ensures Slashed(Segments(s)) == s + "/" && SlashFree(Segments(s))
  {
    if s == [] {
      assert Slashed([""]) == "" + "/" + Slashed([]);
    } else {
      SegmentsSpell(s[1..]);
      var rest := Segments(s[1..]);
      assert s == [s[0]] + s[1..];
      if s[0] == '/' {
        assert ([""] + rest)[1..] == rest;
      } else {
        var segs := [[s[0]] + rest[0]] + rest[1..];
        assert segs[1..] == rest[1..];
        assert Slashed(segs) == [s[0]] + (rest[0] + "/" + Slashed(rest[1..]));
        assert Slashed(segs) == [s[0]] + (s[1..] + "/") == s + "/";
        assert '/' !in rest[0];
      }
    }
  }

  lemma {:induction false} SlashedAppend(a: seq<string>, b: seq<string>)
    ensures Slashed(a + b) == Slashed(a) + Slashed(b)
  {
    if a == [] {
      assert a + b == b;
    } else {
      assert (a + b)[1..] == a[1..] + b;
      SlashedAppend(a[1..], b);
    }
  }

  lemma {:induction false} EndsInSlash(segs: seq<string>)
    ensures ("/" + Slashed(segs))[|Slashed(segs)|] == '/'
  {
    if segs != [] {
      EndsInSlash(segs[1..]);
      var x, rest := segs[0], Slashed(segs[1..]);
      assert "/" + Slashed(segs) == ("/" + x) + ("/" + rest);
    }
  }

  /** The slashes stand exactly where segments begin. */
  lemma {:induction false} SlashPosition(segs: seq<string>, i: nat) returns (k: nat)
    requires SlashFree(segs) && i <= |Slashed(segs)| && ("/" + Slashed(segs))[i] == '/'
    ensures k <= |segs| && i == |Slashed(segs[..k])|
  {
    if i == 0 {
      k := 0;
    } else {
      var x, rest := segs[0], segs[1..];
      assert Slashed(segs) == x + "/" + Slashed(rest);
      assert ("/" + Slashed(segs))[i] == Slashed(segs)[i - 1];
      assert Slashed(segs) == x + ("/" + Slashed(rest));
      assert Slashed(segs)[i - 1] == ("/" + Slashed(rest))[i - 1 - |x|];
      var k' := SlashPosition(rest, i - 1 - |x|);
      k := k' + 1;
      assert segs[..k][1..] == rest[..k'];
    }
  }

  /** A spelled list that starts another starts it segment by segment. */
  lemma {:induction false} SpelledPrefix(part: seq<string>, whole: seq<string>)
    requires SlashFree(part) && SlashFree(whole) && Slashed(part) <= Slashed(whole)
    ensures part <= whole
  {
    if part != [] {
      assert |Slashed(part)| >= 1 && whole != [];
      var x, y := part[0], whole[0];
      var xs, ys := Slashed(part[1..]), Slashed(whole[1..]);
      assert Slashed(part) == x + "/" + xs && Slashed(whole) == y + "/" + ys;
      SameFirst(x, xs, y, ys);
      assert Slashed(part)[|x| + 1..] == xs && Slashed(whole)[|x| + 1..] == ys;
      assert xs <= ys;
      SpelledPrefix(part[1..], whole[1..]);
      assert part == [x] + part[1..] && whole == [y] + whole[1..];
    }
  }

  lemma SameFirst(x: string, xs: string, y: string, ys: string)
    requires '/' !in x && '/' !in y && x + "/" + xs <= y + "/" + ys
    ensures x == y
  {
    var a, b := x + ("/" + xs), y + ("/" + ys);
    assert a == x + "/" + xs && b == y + "/" + ys;
    assert a[|x|] == '/' && b[|y|] == '/';
    assert a[|y|] == b[|y|];
    assert a[..|x|] == x && b[..|y|] == y;
    assert b[..|x|] == a[..|x|];
  }

  lemma OccursBetween(a: string, p: string, z: string)
    requires ("/" + a)[|a|] == '/'
    ensures OccursAt("/" + a + p + z, "/" + p, |a|)
  {
    var s := "/" + a + p + z;
    assert s == ("/" + a) + (p + z);
    assert s[|a|..|a| + |"/" + p|] == "/" + p;
  }

  lemma {:induction false} SlashedParts(before: seq<string>, part: seq<string>, after: seq<string>)
    ensures "/" + Slashed(before + part + after) == "/" + Slashed(before) + Slashed(part) + Slashed(after)
  {
    SlashedAppend(before + part, after);
    SlashedAppend(before, part);
  }

  lemma {:induction false} SublistOccurs(part: seq<string>, whole: seq<string>)
    requires Sublist(part, whole)
    ensures Contains("/" + Slashed(whole), "/" + Slashed(part))
  {
    var i :| 0 <= i <= |whole| && StandsAt(part, whole, i);
    var before, after := whole[..i], whole[i + |part|..];
    assert whole == before + part + after;
    SlashedParts(before, part, after);
    EndsInSlash(before);
    OccursBetween(Slashed(before), Slashed(part), Slashed(after));
    assert OccursAt("/" + Slashed(whole), "/" + Slashed(part), |Slashed(before)|);
  }

  /** What follows a slash is the list of the segments that begin there. */
  lemma SlashSplits(whole: seq<string>, i: nat) returns (k: nat)
    requires SlashFree(whole) && i <= |Slashed(whole)| && ("/" + Slashed(whole))[i] == '/'
    ensures k <= |whole| && ("/" + Slashed(whole))[i + 1..] == Slashed(whole[k..])
  {
    k := SlashPosition(whole, i);
    assert whole == whole[..k] + whole[k..];
    SlashedAppend(whole[..k], whole[k..]);
    assert "/" + Slashed(whole) == ("/" + Slashed(whole[..k])) + Slashed(whole[k..]);
  }

  lemma {:induction false} OccurrenceIsSublist(part: seq<string>, whole: seq<string>)
    requires SlashFree(part) && SlashFree(whole) && Contains("/" + Slashed(whole), "/" + Slashed(part))
    ensures Sublist(part, whole)
  {
    var s := "/" + Slashed(whole);
    var i :| 0 <= i <= |s| && OccursAt(s, "/" + Slashed(part), i);
    var k := SlashSplits(whole, i);
    SpelledPrefix(part, whole[k..]);
    assert StandsAt(part, whole, k);
  }

  /** remoteMatches is a match on whole path segments: true exactly when the
      pattern's segments are a contiguous stretch of the remote's. */
  lemma MatchesIffSublist(remote: string, pattern: string)
    ensures RemoteMatches(remote, pattern) <==>
      CanonicalRemote(pattern) != "" &&
      Sublist(Segments(CanonicalRemote(pattern)), Segments(CanonicalRemote(NormalizeRemote(remote))))
  {
    var r, p := CanonicalRemote(NormalizeRemote(remote)), CanonicalRemote(pattern);
    var rs, ps := Segments(r), Segments(p);
    SegmentsSpell(r);
    SegmentsSpell(p);
    assert "/" + r + "/" == "/" + Slashed(rs) && "/" + p + "/" == "/" + Slashed(ps);
    if r == p { assert rs[0..0 + |ps|] == ps && StandsAt(ps, rs, 0); }
    if Sublist(ps, rs) { SublistOccurs(ps, rs); }
    if Contains("/" + r + "/", "/" + p + "/") { OccurrenceIsSublist(ps, rs); }
  }

  // ----- two spellings of one remote -----

  lemma LowerAppend(a: string, b: string)
    ensures Lower(a + b) == Lower(a) + Lower(b)
  {
  }

  lemma LastChar(s: string, suffix: string)
    requires HasSuffix(s, suffix) && suffix != ""
    ensures s != "" && s[|s| - 1] == suffix[|suffix| - 1]
  {
    assert s[|s| - |suffix|..][|suffix| - 1] == s[|s| - 1];
  }

  /** A trailing slash makes no difference exactly when neither it nor ".git"
      is there already: "x.git/" stays apart from "x.git" and "x". */
  lemma TrailingSlashIff(s: string)
    ensures CanonicalRemote(s + "/") == CanonicalRemote(s)
       <==> !HasSuffix(Lower(s), ".git") && !HasSuffix(Lower(s), "/")
  {
    LowerAppend(s, "/");
    assert Lower("/") == "/";
    var l := Lower(s);
    assert !HasSuffix(l + "/", ".git") by { if HasSuffix(l + "/", ".git") { LastChar(l + "/", ".git"); } }
    assert CanonicalRemote(s + "/") == l;
  }

  lemma CanonicalWithGit(s: string)
    ensures CanonicalRemote(s + ".git") == TrimSuffix(Lower(s), "/")
  {
    var l := Lower(s);
    LowerAppend(s, ".git");
    assert Lower(".git") == ".git";
    assert (l + ".git")[|l|..] == ".git" && (l + ".git")[..|l|] == l;
  }

  lemma GitIsNoSlash(l: string)
    requires HasSuffix(l, ".git")
    ensures TrimSuffix(l, "/") == l && |TrimSuffix(TrimSuffix(l, ".git"), "/")| < |l|
  {
    LastChar(l, ".git");
    if HasSuffix(l, "/") { LastChar(l, "/"); }
  }

  /** A ".git" at the end makes no difference exactly when there is none before it. */
  lemma TrailingGitIff(s: string)
    ensures CanonicalRemote(s + ".git") == CanonicalRemote(s) <==> !HasSuffix(Lower(s), ".git")
  {
    CanonicalWithGit(s);
    if HasSuffix(Lower(s), ".git") { GitIsNoSlash(Lower(s)); }
  }

  // ----- ssh and https -----

  lemma {:induction false} ReplaceColon(host: string, path: string)
    requires ':' !in host
    ensures ReplaceFirst(host + ":" + path, ':', '/') == host + "/" + path
  {
    if host == [] {
      assert host + ":" + path == ":" + path;
      assert (":" + path)[1..] == path;
    } else {
      var s := host + ":" + path;
      assert s[0] == host[0] && s[1..] == host[1..] + ":" + path;
      ReplaceColon(host[1..], path);
      assert host + "/" + path == [host[0]] + (host[1..] + "/" + path);
    }
  }

  lemma SuffixAfter(a: string, x: string, suffix: string)
    requires |suffix| <= |x|
    ensures HasSuffix(a + x, suffix) == HasSuffix(x, suffix)
    ensures TrimSuffix(a + x, suffix) == a + TrimSuffix(x, suffix)
  {
    assert (a + x)[|a + x| - |suffix|..] == x[|x| - |suffix|..];
    if HasSuffix(x, suffix) { assert (a + x)[..|a + x| - |suffix|] == a + x[..|x| - |suffix|]; }
  }

  lemma {:induction false} SegmentsAfter(a: string, s: string)
    requires '/' !in a
    ensures Segments(a + "/" + s) == [a] + Segments(s)
  {
    var t := a + "/" + s;
    if a == [] {
      assert t[0] == '/' && t[1..] == s;
    } else {
      assert t[0] == a[0] && t[1..] == a[1..] + "/" + s;
      SegmentsAfter(a[1..], s);
      assert [a[0]] + a[1..] == a;
    }
  }

  /** A ".git" shorter than itself would have to reach into the scheme. */
  lemma NoGitInShort(x: string)
    requires |x| < 4
    ensures !HasSuffix("https://" + x, ".git") && !HasSuffix(x, ".git")
  {
    var s := "https://" + x;
    assert s[7] == '/';
    assert s[|s| - 4..][3 - |x|] == s[7];
  }

  /** Canonical form leaves a "https://" in front alone. */
  lemma CanonicalAfterScheme(x: string)
    requires '/' in x
    ensures CanonicalRemote("https://" + x) == "https://" + CanonicalRemote(x)
  {
    var low := Lower(x);
    LowerAppend("https://", x);
    assert Lower("https://") == "https://";
    var i :| 0 <= i < |x| && x[i] == '/';
    assert low[i] == '/';
    TrimAfterScheme(low, i);
    SuffixAfter("https://", TrimSuffix(low, ".git"), "/");
  }

  lemma TrimAfterScheme(low: string, i: nat)
    requires i < |low| && low[i] == '/'
    ensures TrimSuffix("https://" + low, ".git") == "https://" + TrimSuffix(low, ".git")
    ensures TrimSuffix(low, ".git") != ""
  {
    if |low| < 4 { NoGitInShort(low); } else { SuffixAfter("https://", low, ".git"); }
    assert '/' !in ".git";
    assert HasSuffix(low, ".git") ==> low[..|low| - 4] + ".git" == low;
  }

  lemma StandsShift(x: string, ws: seq<string>, ps: seq<string>, i: nat)
    ensures StandsAt(ps, [x] + ws, i + 1) <==> StandsAt(ps, ws, i)
  {
    if i + |ps| <= |ws| { assert ([x] + ws)[i + 1..i + 1 + |ps|] == ws[i..i + |ps|]; }
  }

  /** A segment in front adds one place to stand. */
  lemma SublistAfter(x: string, ws: seq<string>, ps: seq<string>)
    requires |ps| >= 1
    ensures Sublist(ps, [x] + ws) <==> Sublist(ps, ws) || StandsAt(ps, [x] + ws, 0)
  {
    var all := [x] + ws;
    if Sublist(ps, all) {
      var i :| 0 <= i <= |all| && StandsAt(ps, all, i);
      if i > 0 { StandsShift(x, ws, ps, i - 1); }
    }
    if Sublist(ps, ws) {
      var i :| 0 <= i <= |ws| && StandsAt(ps, ws, i);
      StandsShift(x, ws, ps, i);
    }
  }

  lemma StandsFirst(ps: seq<string>, whole: seq<string>, i: nat)
    requires |ps| >= 1 && StandsAt(ps, whole, i)
    ensures i < |whole| && ps[0] == whole[i]
  {
    assert whole[i..i + |ps|][0] == whole[i];
  }

  lemma {:induction false} SchemeSegments(r: string)
    ensures Segments("https://" + r) == ["https:"] + ([""] + Segments(r))
  {
    assert "https://" + r == "https:" + "/" + ("" + "/" + r);
    SegmentsAfter("https:", "" + "/" + r);
    SegmentsAfter("", r);
  }

  lemma NormalizeSsh(host: string, path: string)
    requires ':' !in host && !Contains(host + ":" + path, "://")
    ensures NormalizeRemote("git@" + host + ":" + path) == host + "/" + path
  {
    var ssh := "git@" + host + ":" + path;
    assert ssh == "git@" + (host + ":" + path) && ssh[4..] == host + ":" + path;
    ReplaceColon(host, path);
  }

  lemma NormalizeHttps(x: string)
    ensures NormalizeRemote("https://" + x) == "https://" + x
  {
    var https := "https://" + x;
    assert https[0] == 'h';
    assert https[5..5 + 3] == "://" && OccursAt(https, "://", 5);
  }

  /** A project cloned over https matches a pattern exactly when it does cloned
      over ssh, or when the pattern stands at the scheme or right behind it, where
      ssh has no segments; a pattern that spells out neither matches both alike. */
  lemma SshMatchesLikeHttps(host: string, path: string, pattern: string)
    requires ':' !in host && !Contains(host + ":" + path, "://")
    ensures var ssh, https := "git@" + host + ":" + path, "https://" + (host + "/" + path);
            var ps := Segments(CanonicalRemote(pattern));
            var all := ["https:", ""] + Segments(CanonicalRemote(host + "/" + path));
            && (RemoteMatches(https, pattern) <==>
                  RemoteMatches(ssh, pattern)
                    || (CanonicalRemote(pattern) != "" && (StandsAt(ps, all, 0) || StandsAt(ps, all, 1))))
            && (ps[0] != "https:" && ps[0] != "" ==> (RemoteMatches(https, pattern) <==> RemoteMatches(ssh, pattern)))
  {
    var x := host + "/" + path;
    NormalizeSsh(host, path);
    NormalizeHttps(x);
    assert x[|host|] == '/';
    CanonicalAfterScheme(x);
    MatchesIffSublist("git@" + host + ":" + path, pattern);
    MatchesIffSublist("https://" + x, pattern);
    SchemeSegments(CanonicalRemote(x));
    SchemeSublist(Segments(CanonicalRemote(x)), Segments(CanonicalRemote(pattern)));
  }

  lemma SchemeSublist(rs: seq<string>, ps: seq<string>)
    requires |ps| >= 1
    ensures var all := ["https:", ""] + rs;
            && (Sublist(ps, ["https:"] + ([""] + rs))
              <==> Sublist(ps, rs) || StandsAt(ps, all, 0) || StandsAt(ps, all, 1))
            && (StandsAt(ps, all, 0) ==> ps[0] == "https:") && (StandsAt(ps, all, 1) ==> ps[0] == "")
  {
    var all := ["https:", ""] + rs;
    assert all == ["https:"] + ([""] + rs);
    SublistAfter("https:", [""] + rs, ps);
    SublistAfter("", rs, ps);
    StandsShift("https:", [""] + rs, ps, 0);
    if StandsAt(ps, all, 0) { StandsFirst(ps, all, 0); }
    if StandsAt(ps, all, 1) { StandsFirst(ps, all, 1); }
  }

  // ----- letters of either case -----

  /** The order of lower-casing and replacing a colon does not matter. */
  lemma {:induction false} LowerReplaces(s: string)
    ensures Lower(ReplaceFirst(s, ':', '/')) == ReplaceFirst(Lower(s), ':', '/')
  {
    if s != [] {
      LowerReplaces(s[1..]);
      assert s == [s[0]] + s[1..];
      assert Lower(s)[1..] == Lower(s[1..]);
      LowerAppend([s[0]], ReplaceFirst(s[1..], ':', '/'));
      LowerAppend(['/'], s[1..]);
      assert LowerChar(s[0]) == ':' <==> s[0] == ':';
    }
  }

  lemma SameScheme(a: string, b: string)
    requires SameLetters(a, b)
    ensures Contains(a, "://") <==> Contains(b, "://")
  {
    forall i: nat ensures OccursAt(a, "://", i) <==> OccursAt(b, "://", i) {
      if i + 3 <= |a| {
        assert SameLetter(a[i], b[i]) && SameLetter(a[i + 1], b[i + 1]) && SameLetter(a[i + 2], b[i + 2]);
        assert a[i..i + 3] == [a[i], a[i + 1], a[i + 2]] && b[i..i + 3] == [b[i], b[i + 1], b[i + 2]];
      }
    }
  }

  /** The case of letters makes no difference to a match, but for the "git@" that
      is taken off a remote only in small letters. */
  lemma CaseIgnored(remote: string, remote': string, pattern: string, pattern': string)
    requires SameLetters(remote, remote') && SameLetters(pattern, pattern')
    requires HasPrefix(remote, "git@") <==> HasPrefix(remote', "git@")
    ensures RemoteMatches(remote, pattern) <==> RemoteMatches(remote', pattern')
  {
    var a, b := TrimPrefix(remote, "git@"), TrimPrefix(remote', "git@");
    assert SameLetters(a, b);
    SameScheme(a, b);
    SameLettersLower(a, b);
    SameLettersLower(pattern, pattern');
    LowerReplaces(a);
    LowerReplaces(b);
    assert Lower(NormalizeRemote(remote)) == Lower(NormalizeRemote(remote'));
  }
}
