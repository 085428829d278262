/** The rules for a process by itself, as one list in order of precedence, and
    which spellings of names and command lines they do not tell apart. */
module HarnessRules {
  import opened Schema
  import opened Strings
  import opened Harnesses

  datatype Rule =
    | Mention(needle: string, harness: Harness)              // somewhere in the command line
    | EditorMention(needle: string, harness: Harness)        // the same, in an editor's, when configured
    | Exact(names: seq<string>, harness: Harness)            // one of the names, letter for letter
    | Name(names: seq<string>, harness: Harness)             // one of the names, in letters of either case

  const EDITORS: seq<string> := ["code.exe", "code - insiders.exe", "code"]

  const ON_COMMANDS: seq<Rule> := [
    Mention("@anthropic-ai/claude-code", Claude), Mention("@openai/codex", Codex),
    Mention("github-copilot-cli", CopilotCLI), EditorMention("copilot", CopilotVSCode), Mention("hermes", Hermes),
    Mention("claude desktop", ClaudeDesktop), Mention("anthropic-cowork", ClaudeDesktop)]

  const ON_NAMES: seq<Rule> := [
    Exact(["Claude.exe", "Claude"], ClaudeDesktop), Name(["claude.exe", "claude"], Claude),
    Name(["codex.exe", "codex"], Codex), Name(["copilot.exe", "copilot", "gh-copilot"], CopilotCLI),
    Name(["hermes", "hermes.exe"], Hermes), Name(["vmmem", "vmmemwsl"], WSL),
    Name(["burnmon-dev.exe", "burnmon-dev"], Self)]

  predicate MentionedAt(cmd: string, needle: string, i: nat) {
    i + |needle| <= |cmd|
    && forall j :: 0 <= j < |needle| ==> AnyCase(cmd[i + j], needle[j]) || (cmd[i + j] == '\\' && needle[j] == '/')
  }

  /** The command line holds the needle, in letters of either case and with
      slashes of either direction. */
  predicate Mentioned(cmd: string, needle: string) { exists i :: 0 <= i <= |cmd| && MentionedAt(cmd, needle, i) }

  predicate Applies(r: Rule, p: Proc, vscode: bool) {
    match r
    case Mention(needle, _) => Mentioned(p.cmdline, needle)
    case EditorMention(needle, _) =>
      vscode && Mentioned(p.cmdline, needle) && exists k :: 0 <= k < |EDITORS| && Called(p.name, EDITORS[k])
    case Exact(names, _) => p.name in names
    case Name(names, _) => exists k :: 0 <= k < |names| && Called(p.name, names[k])
  }

  /** The first rule from k on that applies decides. */
  function First(rules: seq<Rule>, p: Proc, vscode: bool, k: nat): Option<Harness>
    requires k <= |rules|
    decreases |rules| - k
  {
    if k == |rules| then None
    else if Applies(rules[k], p, vscode) then Some(rules[k].harness)
    else First(rules, p, vscode, k + 1)
  }

  // ----- in lower case -----

  predicate Plain(s: string) { forall i :: 0 <= i < |s| ==> !('A' <= s[i] <= 'Z') && s[i] != '\\' }

  lemma OccursIff(cmd: string, needle: string, i: nat)
    requires Plain(needle)
    ensures OccursAt(ReplaceAll(Lower(cmd), '\\', '/'), needle, i) <==> MentionedAt(cmd, needle, i)
  {
    var low := ReplaceAll(Lower(cmd), '\\', '/');
    if OccursAt(low, needle, i) {
      forall j | 0 <= j < |needle|
        ensures AnyCase(cmd[i + j], needle[j]) || (cmd[i + j] == '\\' && needle[j] == '/')
      {
        assert low[i..i + |needle|][j] == needle[j];
      }
    }
    if MentionedAt(cmd, needle, i) {
      forall j | 0 <= j < |needle| ensures low[i..i + |needle|][j] == needle[j] {
        assert AnyCase(cmd[i + j], needle[j]) || (cmd[i + j] == '\\' && needle[j] == '/');
      }
    }
  }

  lemma ContainsIff(cmd: string, needle: string)
    requires Plain(needle)
    ensures Contains(ReplaceAll(Lower(cmd), '\\', '/'), needle) <==> Mentioned(cmd, needle)
  {
    forall i: nat ensures OccursAt(ReplaceAll(Lower(cmd), '\\', '/'), needle, i) <==> MentionedAt(cmd, needle, i) {
      OccursIff(cmd, needle, i);
    }
  }

  // ----- the list -----

  lemma EditorIff(p: Proc)
    ensures IsVSCodeName(Lower(p.name)) <==> exists k :: 0 <= k < |EDITORS| && Called(p.name, EDITORS[k])
  {
    LowerIff(p.name, EDITORS[0]);
    LowerIff(p.name, EDITORS[1]);
    LowerIff(p.name, EDITORS[2]);
  }

  lemma MentionIff(p: Proc, vscode: bool, needle: string, h: Harness)
    requires Plain(needle)
    ensures Applies(Mention(needle, h), p, vscode) <==> Contains(ReplaceAll(Lower(p.cmdline), '\\', '/'), needle)
  {
    ContainsIff(p.cmdline, needle);
  }

  lemma EditorMentionIff(p: Proc, vscode: bool)
    ensures Applies(ON_COMMANDS[3], p, vscode)
       <==> vscode && IsVSCodeName(Lower(p.name)) && Contains(ReplaceAll(Lower(p.cmdline), '\\', '/'), "copilot")
  {
    ContainsIff(p.cmdline, "copilot");
    EditorIff(p);
  }

  /** The command line as the rules see it. */
  function Seen(p: Proc): string { ReplaceAll(Lower(p.cmdline), '\\', '/') }

  lemma {:induction false} CommandsAreListed(p: Proc, vscode: bool)
    ensures ByCommand(p, vscode) == First(ON_COMMANDS, p, vscode, 0)
  {
    FirstCommands(p, vscode);
    ThirdCommand(p, vscode);
    LastCommands(p, vscode);
  }

  lemma {:induction false} FirstCommands(p: Proc, vscode: bool)
    ensures First(ON_COMMANDS, p, vscode, 0)
         == if Contains(Seen(p), "@anthropic-ai/claude-code") then Some(Claude)
            else if Contains(Seen(p), "@openai/codex") then Some(Codex)
            else First(ON_COMMANDS, p, vscode, 2)
  {
    MentionIff(p, vscode, "@anthropic-ai/claude-code", Claude);
    MentionIff(p, vscode, "@openai/codex", Codex);
  }

  lemma {:induction false} ThirdCommand(p: Proc, vscode: bool)
    ensures First(ON_COMMANDS, p, vscode, 2)
         == if Contains(Seen(p), "github-copilot-cli") then Some(CopilotCLI) else First(ON_COMMANDS, p, vscode, 3)
  {
    MentionIff(p, vscode, "github-copilot-cli", CopilotCLI);
  }

  lemma {:induction false} LastCommands(p: Proc, vscode: bool)
    ensures First(ON_COMMANDS, p, vscode, 3)
         == if vscode && IsVSCodeName(Lower(p.name)) && Contains(Seen(p), "copilot") then Some(CopilotVSCode)
            else if Contains(Seen(p), "hermes") then Some(Hermes)
            else if Contains(Seen(p), "claude desktop") || Contains(Seen(p), "anthropic-cowork")
            then Some(ClaudeDesktop) else None
  {
    EditorMentionIff(p, vscode);
    MentionIff(p, vscode, "hermes", Hermes);
    MentionIff(p, vscode, "claude desktop", ClaudeDesktop);
    MentionIff(p, vscode, "anthropic-cowork", ClaudeDesktop);
    assert First(ON_COMMANDS, p, vscode, 7) == None;
    assert First(ON_COMMANDS, p, vscode, 5)
        == if Contains(Seen(p), "claude desktop") || Contains(Seen(p), "anthropic-cowork")
           then Some(ClaudeDesktop) else None;
  }

  lemma NameIff(p: Proc, vscode: bool, names: seq<string>, h: Harness)
    requires forall k :: 0 <= k < |names| ==> NoCapitals(names[k])
    ensures Applies(Name(names, h), p, vscode) <==> Lower(p.name) in names
  {
    forall k | 0 <= k < |names| ensures Called(p.name, names[k]) <==> Lower(p.name) == names[k] {
      LowerIff(p.name, names[k]);
    }
  }

  lemma {:induction false} NamesAreListed(p: Proc, vscode: bool)
    ensures ByName(p) == First(ON_NAMES, p, vscode, 0)
  {
    NameIff(p, vscode, ["claude.exe", "claude"], Claude);
    MiddleNames(p, vscode);
    LastNames(p, vscode);
  }

  lemma {:induction false} MiddleNames(p: Proc, vscode: bool)
    ensures First(ON_NAMES, p, vscode, 2)
         == if Lower(p.name) == "codex.exe" || Lower(p.name) == "codex" then Some(Codex)
            else if Lower(p.name) == "copilot.exe" || Lower(p.name) == "copilot" || Lower(p.name) == "gh-copilot"
            then Some(CopilotCLI)
            else First(ON_NAMES, p, vscode, 4)
  {
    NameIff(p, vscode, ["codex.exe", "codex"], Codex);
    NameIff(p, vscode, ["copilot.exe", "copilot", "gh-copilot"], CopilotCLI);
  }

  lemma {:induction false} LastNames(p: Proc, vscode: bool)
    ensures First(ON_NAMES, p, vscode, 4)
         == if Lower(p.name) == "hermes" || Lower(p.name) == "hermes.exe" then Some(Hermes)
            else if Lower(p.name) == "vmmem" || Lower(p.name) == "vmmemwsl" then Some(WSL)
            else if Lower(p.name) == "burnmon-dev.exe" || Lower(p.name) == "burnmon-dev" then Some(Self)
            else None
  {
    NameIff(p, vscode, ["hermes", "hermes.exe"], Hermes);
    NameIff(p, vscode, ["vmmem", "vmmemwsl"], WSL);
    NameIff(p, vscode, ["burnmon-dev.exe", "burnmon-dev"], Self);
    assert First(ON_NAMES, p, vscode, 7) == None;
    assert First(ON_NAMES, p, vscode, 6)
        == if Lower(p.name) == "burnmon-dev.exe" || Lower(p.name) == "burnmon-dev" then Some(Self) else None;
  }

  /** A process by itself is what the first rule that applies says, the rules on
      command lines before those on names. */
  lemma {:induction false} DirectIsFirstRule(p: Proc, vscode: bool)
    ensures Direct(p, vscode)
         == if First(ON_COMMANDS, p, vscode, 0).Some? then First(ON_COMMANDS, p, vscode, 0)
            else First(ON_NAMES, p, vscode, 0)
  {
    CommandsAreListed(p, vscode);
    NamesAreListed(p, vscode);
  }

  /** Without such a rule: the app's own webview, else what the parent is, else a
      node that cannot be told, else other. */
  lemma ClassifyIs(p: Proc, vscode: bool, parent: Option<Harness>)
    requires Direct(p, vscode) == None
    ensures Classify(p, vscode, parent)
      == if (Called(p.name, "msedgewebview2.exe") || Called(p.name, "msedgewebview2"))
            && (parent == Some(Self) || parent == Some(SelfWebview)) then SelfWebview
         else if parent != None then parent.value
         else if Called(p.name, "node.exe") || Called(p.name, "node") then NodeUnclassified
         else Other
  {
    WebviewIff(p);
    NodeIff(p);
  }

  lemma WebviewIff(p: Proc)
    ensures IsWebview(p) <==> Called(p.name, "msedgewebview2.exe") || Called(p.name, "msedgewebview2")
  {
    LowerIff(p.name, "msedgewebview2.exe");
    LowerIff(p.name, "msedgewebview2");
  }

  lemma NodeIff(p: Proc)
    ensures IsNode(p) <==> Called(p.name, "node.exe") || Called(p.name, "node")
  {
    LowerIff(p.name, "node.exe");
    LowerIff(p.name, "node");
  }

  // ----- spellings -----

  /** The same but for the case of letters and the direction of slashes. */
  predicate SameLine(a: string, b: string) {
    |a| == |b| && forall i :: 0 <= i < |a| ==>
      SameLetter(a[i], b[i]) || (a[i] == '/' && b[i] == '\\') || (a[i] == '\\' && b[i] == '/')
  }

  /** Command lines that differ in case and slashes only, and names that differ in
      case only unless one is the capitalised Claude, come to the same. */
  lemma SpellingIgnored(p: Proc, q: Proc, vscode: bool, parent: Option<Harness>)
    requires SameLine(p.cmdline, q.cmdline) && SameLetters(p.name, q.name)
    requires (p.name == "Claude.exe" || p.name == "Claude") <==> (q.name == "Claude.exe" || q.name == "Claude")
    ensures Classify(p, vscode, parent) == Classify(q, vscode, parent)
  {
    SameLineSeen(p, q);
    SameLettersLower(p.name, q.name);
    assert ByCommand(p, vscode) == ByCommand(q, vscode);
    assert ByName(p) == ByName(q);
  }

  lemma SameLineSeen(p: Proc, q: Proc)
    requires SameLine(p.cmdline, q.cmdline)
    ensures Seen(p) == Seen(q)
  {
  }
}
