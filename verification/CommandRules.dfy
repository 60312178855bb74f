/** Which command lines need a human's approval, and finding the sub-command behind leading options. */
module CommandRules {
  import opened Prelude
  import opened TextSpace
  import TextTerms

  predicate StartsWith(s: string, prefix: string) {
    prefix <= s
  }

  predicate EndsWith(s: string, suffix: string) {
    |suffix| <= |s| && s[|s| - |suffix|..] == suffix
  }

  predicate Contains(s: string, piece: string) {
    StartsWith(s, piece) || (s != "" && Contains(s[1..], piece))
  }

  // ---------------------------------------------------------------- the primary sub-command

  predicate OptionTakesValue(program: string, option: string) {
    '=' !in option &&
    if program == "git" then option in {"-C", "-c", "--git-dir", "--work-tree", "--namespace"}
    else if program == "cargo" then option in {"--manifest-path", "--target-dir", "--config"}
    else if program in {"npm", "npx", "pnpm", "yarn"} then
      option in {"--prefix", "--workspace", "-w", "--userconfig", "--registry"}
    else if program == "gh" then option in {"--repo", "-R", "--hostname"}
    else if program in {"docker", "podman"} then option in {"--config", "--context", "-H"}
    else false
  }

  /** How many words at the front of `words` are a blank or a leading option; zero if they are not. */
  function Skipped(program: string, words: seq<string>): nat
    requires words != []
  {
    var part := Trim(words[0]);
    if part == "" then 1
    else if part == "--" then 0
    else if program == "cargo" && part[0] == '+' then 1
    else if part[0] == '-' then (if OptionTakesValue(program, part) then 2 else 1)
    else 0
  }

  /** The sub-command among the words after the program. */
  function Subcommand(program: string, words: seq<string>): Option<string>
    decreases |words|
  {
    if words == [] then None
    else
      var skip := Skipped(program, words);
      if skip > 0 then (if skip <= |words| then Subcommand(program, words[skip..]) else None)
      else if Trim(words[0]) == "--" then
        if |words| > 1 && Trim(words[1]) != "" then Some(Trim(words[1])) else None
      else Some(Trim(words[0]))
  }

  method CommandPrimarySubcommand(program: string, parts: seq<string>) returns (found: Option<string>)
    requires parts != []
    ensures found == Subcommand(program, parts[1..])
  {
    var index := 1;
    while index < |parts|
      invariant 1 <= index
      invariant Subcommand(program, parts[1..])
             == if index <= |parts| then Subcommand(program, parts[index..]) else None
    {
      ghost var words := parts[index..];
      var part := Trim(parts[index]);
      if part == "" {
        NextWords(parts, index, 1, index + 1);
        index := index + 1;
        continue;
      }
      if part == "--" {
        if index + 1 < |parts| && Trim(parts[index + 1]) != "" {
          assert words[1] == parts[index + 1];
          return Some(Trim(parts[index + 1]));
        }
        return None;
      }
      if program == "cargo" && part[0] == '+' {
        NextWords(parts, index, 1, index + 1);
        index := index + 1;
        continue;
      }
      if part[0] == '-' {
        var step := if OptionTakesValue(program, part) then 2 else 1;
        if index + step <= |parts| {
          NextWords(parts, index, step, index + step);
        }
        index := index + step;
        continue;
      }
      return Some(part);
    }
    found := None;
  }

  lemma NextWords(parts: seq<string>, from: nat, step: nat, to: nat)
    requires from + step == to <= |parts|
    ensures parts[from..][step..] == parts[to..]
  {
  }

  /** A run of leading options: blanks, flags, flags with their value, and cargo's toolchain. */
  predicate LeadingOptions(program: string, options: seq<string>)
    decreases |options|
  {
    options == [] ||
    (0 < Skipped(program, options) <= |options| && LeadingOptions(program, options[Skipped(program, options)..]))
  }

  /** Leading options do not change which sub-command is found. */
  lemma {:induction false} OptionsAreIgnored(program: string, options: seq<string>, words: seq<string>)
    requires LeadingOptions(program, options)
    ensures Subcommand(program, options + words) == Subcommand(program, words)
    decreases |options|
  {
    if options == [] {
      assert options + words == words;
    } else {
      var n := Skipped(program, options);
      assert (options + words)[0] == options[0];
      assert (options + words)[n..] == options[n..] + words;
      OptionsAreIgnored(program, options[n..], words);
    }
  }

  // ---------------------------------------------------------------- approval requirements

  datatype Requirement = Requirement(riskLabel: string, reason: string)

  function JoinWords(parts: seq<string>): string {
    TextTerms.Join(parts, " ")
  }

  function CompactDisplay(parts: seq<string>): string {
    var display := JoinWords(parts);
    if |display| <= 180 then display else display[..179] + "\U{2026}"
  }

  predicate IsShell(program: string) {
    program in {"sh", "bash", "zsh", "fish", "ksh", "dash", "pwsh", "powershell", "cmd"}
  }

  predicate EvalFlag(program: string, flag: string) {
    if program == "cmd" then TextTerms.Lower(flag) == "/c"
    else if program in {"pwsh", "powershell"} then
      flag in {"-Command", "-EncodedCommand", "-command", "-encodedcommand"}
    else flag == "-c" || (StartsWith(flag, "-") && !StartsWith(flag, "--") && 'c' in flag[1..])
  }

  predicate ShellString(program: string, words: seq<string>) {
    IsShell(program) && exists i :: 0 <= i < |words| && EvalFlag(program, Trim(words[i]))
  }

  predicate HasArg(words: seq<string>, needle: string) {
    exists i :: 0 <= i < |words| && Trim(words[i]) == needle
  }

  /** The risk label and headline for a program's sub-command; `words` is the whole command line. */
  function SubcommandRisk(program: string, subcommand: string, words: seq<string>): Option<(string, string)> {
    if program == "git" then
      if subcommand == "push" then
        Some(("command-external-write",
              "Git push can publish local commits to a remote repository and requires human approval: "))
      else if subcommand == "clean" then
        Some(("command-destructive", "Git clean can delete untracked workspace files and requires human approval: "))
      else if subcommand == "reset" && HasArg(words, "--hard") then
        Some(("command-destructive",
              "Git reset --hard can discard local workspace changes and requires human approval: "))
      else if subcommand == "rebase" then
        Some(("command-history-rewrite", "Git rebase rewrites local history and requires human approval: "))
      else None
    else if program == "cargo" then
      if subcommand in {"publish", "yank", "owner", "login", "logout"} then
        Some(("command-registry-write", "Cargo registry/account operation requires human approval: "))
      else None
    else if program in {"npm", "npx", "pnpm", "yarn"} then
      if subcommand in {"publish", "unpublish", "deprecate", "dist-tag", "owner", "token", "access",
                        "adduser", "login", "logout", "profile", "team"} then
        Some(("command-registry-write", "Package registry/account operation requires human approval: "))
      else None
    else if program == "gh" then
      if subcommand == "auth" then
        Some(("command-credential-access", "GitHub CLI authentication operation requires human approval: "))
      else if subcommand in {"release", "repo", "gist", "issue", "pr", "api"} then
        Some(("command-external-write",
              "GitHub CLI operation can affect external resources and requires human approval: "))
      else None
    else if program in {"docker", "podman"} then
      if subcommand in {"push", "login", "logout"} then
        Some(("command-registry-write", "Container registry/account operation requires human approval: "))
      else if subcommand == "run" && HasArg(words, "--privileged") then
        Some(("command-privileged-container", "Privileged container execution requires human approval: "))
      else None
    else None
  }

  /** Rules from a program and its sub-command, with the whole command line, to a label and headline. */
  type RiskRules = (string, string, seq<string>) -> Option<(string, string)>

  /** The risk of a program called with `words`, under some rules; `parts` is the whole command line. */
  function RiskFor(rules: RiskRules, program: string, words: seq<string>,
                   parts: seq<string>): Option<(string, string)>
  {
    if program == "" then None
    else if ShellString(program, words) then
      Some(("command-dynamic-shell", "Shell interpreter command strings require human approval: "))
    else
      match Subcommand(program, words)
      case None => None
      case Some(subcommand) => rules(program, subcommand, parts)
  }

  /** The risk of a command line under some rules. */
  function RiskOf(rules: RiskRules, parts: seq<string>): Option<(string, string)>
    requires parts != []
  {
    RiskFor(rules, Trim(parts[0]), parts[1..], parts)
  }

  function CommandApprovalRequirement(parts: seq<string>): Option<Requirement> {
    if parts == [] then None
    else
      match RiskOf(SubcommandRisk, parts)
      case None => None
      case Some(risk) => Some(Requirement(risk.0, risk.1 + CompactDisplay(parts)))
  }

  lemma HasArgAmong(head: seq<string>, middle: seq<string>, tail: seq<string>, needle: string)
    requires HasArg(head + tail, needle)
    ensures HasArg(head + middle + tail, needle)
  {
    var i :| 0 <= i < |head + tail| && Trim((head + tail)[i]) == needle;
    var j := if i < |head| then i else i + |middle|;
    assert (head + middle + tail)[j] == (head + tail)[i];
  }

  lemma RiskGrowsWithWords(program: string, subcommand: string, short: seq<string>, long: seq<string>)
    requires HasArg(short, "--hard") ==> HasArg(long, "--hard")
    requires HasArg(short, "--privileged") ==> HasArg(long, "--privileged")
    ensures SubcommandRisk(program, subcommand, short).Some? ==>
              SubcommandRisk(program, subcommand, long) == SubcommandRisk(program, subcommand, short)
  {
  }

  lemma ShellStringGrows(program: string, options: seq<string>, words: seq<string>)
    requires ShellString(program, words)
    ensures ShellString(program, options + words)
  {
    var i :| 0 <= i < |words| && EvalFlag(program, Trim(words[i]));
    assert (options + words)[|options| + i] == words[i];
  }

  predicate HasRules(program: string) {
    program in {"git", "cargo", "npm", "npx", "pnpm", "yarn", "gh", "docker", "podman"}
  }

  lemma RiskMeansRules(program: string, subcommand: string, words: seq<string>)
    ensures SubcommandRisk(program, subcommand, words).Some? ==> HasRules(program)
  {
  }

  // The verifier does not tell two string literals apart by itself, so the shells are told from the ruled programs by
  // something smaller: first letter, length and second letter, in which no shell is like a ruled program.

  function Looks(program: string): (char, int, char) {
    if |program| < 2 then (' ', 0, ' ') else (program[0], |program|, program[1])
  }

  lemma ShellLooks(program: string)
    requires IsShell(program)
    ensures Looks(program) in {('s', 2, 'h'), ('b', 4, 'a'), ('z', 3, 's'), ('f', 4, 'i'), ('k', 3, 's'), ('d', 4, 'a'),
                               ('p', 4, 'w'), ('p', 10, 'o'), ('c', 3, 'm')}
  {
  }

  lemma RuledLooks(program: string)
    requires HasRules(program)
    ensures Looks(program) in {('g', 3, 'i'), ('c', 5, 'a'), ('n', 3, 'p'), ('p', 4, 'n'), ('y', 4, 'a'), ('g', 2, 'h'),
                               ('d', 6, 'o'), ('p', 6, 'o')}
  {
  }

  lemma RulesAreNotForShells(program: string)
    requires HasRules(program)
    ensures !IsShell(program)
  {
    RuledLooks(program);
    if IsShell(program) {
      ShellLooks(program);
    }
  }

  lemma ArgsAreKept(name: string, options: seq<string>, words: seq<string>)
    ensures HasArg([name] + words, "--hard") ==> HasArg([name] + options + words, "--hard")
    ensures HasArg([name] + words, "--privileged") ==> HasArg([name] + options + words, "--privileged")
  {
    if HasArg([name] + words, "--hard") { HasArgAmong([name], options, words, "--hard"); }
    if HasArg([name] + words, "--privileged") { HasArgAmong([name], options, words, "--privileged"); }
  }

  /** A shell given a command string keeps its risk behind options. */
  lemma ShellRiskIsKept(rules: RiskRules, program: string, options: seq<string>, words: seq<string>,
                        short: seq<string>, long: seq<string>)
    requires ShellString(program, words)
    ensures RiskFor(rules, program, options + words, long) == RiskFor(rules, program, words, short)
  {
    ShellStringGrows(program, options, words);
  }

  /** A sub-command whose rule is not about a shell and does not lose the risk keeps it behind options. */
  lemma RuleRiskIsKept(rules: RiskRules, program: string, options: seq<string>, words: seq<string>,
                       short: seq<string>, long: seq<string>, subcommand: string)
    requires LeadingOptions(program, options) && Subcommand(program, words) == Some(subcommand)
    requires !IsShell(program) && rules(program, subcommand, long) == rules(program, subcommand, short)
    ensures RiskFor(rules, program, options + words, long) == RiskFor(rules, program, words, short)
  {
    OptionsAreIgnored(program, options, words);
  }

  lemma RulesKeepRisk(program: string, subcommand: string, short: seq<string>, long: seq<string>)
    requires HasArg(short, "--hard") ==> HasArg(long, "--hard")
    requires HasArg(short, "--privileged") ==> HasArg(long, "--privileged")
    requires SubcommandRisk(program, subcommand, short).Some?
    ensures !IsShell(program) && SubcommandRisk(program, subcommand, long) == SubcommandRisk(program, subcommand, short)
  {
    RiskGrowsWithWords(program, subcommand, short, long);
    RiskMeansRules(program, subcommand, short);
    RulesAreNotForShells(program);
  }

  lemma RiskIsKept(program: string, name: string, options: seq<string>, words: seq<string>)
    requires LeadingOptions(program, options)
    requires RiskFor(SubcommandRisk, program, words, [name] + words).Some?
    ensures RiskFor(SubcommandRisk, program, options + words, [name] + options + words)
         == RiskFor(SubcommandRisk, program, words, [name] + words)
  {
    var short, long := [name] + words, [name] + options + words;
    if ShellString(program, words) {
      ShellRiskIsKept(SubcommandRisk, program, options, words, short, long);
    } else {
      var subcommand := Subcommand(program, words).value;
      ArgsAreKept(name, options, words);
      RulesKeepRisk(program, subcommand, short, long);
      RuleRiskIsKept(SubcommandRisk, program, options, words, short, long, subcommand);
    }
  }

  lemma WordsOf(name: string, options: seq<string>, words: seq<string>)
    ensures ([name] + words)[1..] == words && ([name] + options + words)[1..] == options + words
  {
  }

  /**
   Putting leading options before the sub-command never lifts the approval requirement and never
   changes its risk label.
   */
  lemma OptionsNeverLiftRequirement(name: string, options: seq<string>, words: seq<string>)
    requires LeadingOptions(Trim(name), options)
    requires CommandApprovalRequirement([name] + words).Some?
    ensures CommandApprovalRequirement([name] + options + words).Some?
    ensures CommandApprovalRequirement([name] + options + words).value.riskLabel
         == CommandApprovalRequirement([name] + words).value.riskLabel
  {
    WordsOf(name, options, words);
    RiskIsKept(Trim(name), name, options, words);
  }

  lemma GitPushRisk(words: seq<string>, parts: seq<string>)
    requires words != [] && words[0] == "push" && parts == ["git"] + words
    ensures CommandApprovalRequirement(parts).Some?
    ensures CommandApprovalRequirement(parts).value.riskLabel == "command-external-write"
  {
    TrimSolid("git");
    TrimSolid("push");
    assert parts[1..] == words && parts[0] == "git";
    assert Subcommand("git", words) == Some("push");
  }

  /** For example, `git push` needs approval whatever options precede `push`. */
  lemma GitPushAlwaysNeedsApproval(options: seq<string>, rest: seq<string>)
    requires LeadingOptions("git", options)
    ensures CommandApprovalRequirement(["git"] + options + (["push"] + rest)).Some?
    ensures CommandApprovalRequirement(["git"] + options + (["push"] + rest)).value.riskLabel
            == "command-external-write"
  {
    TrimSolid("git");
    GitPushRisk(["push"] + rest, ["git"] + (["push"] + rest));
    OptionsNeverLiftRequirement("git", options, ["push"] + rest);
  }
}
