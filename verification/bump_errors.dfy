/** The errors the bump command reports, as data, and the one message whose
    exact wording the command's users depend on. */
module BumpErrors {
  import opened Wrappers
  import opened Repository
  import opened Tags

  datatype BumpError =
    | SemVerOrdering(current: Tag, next: Tag)
    | TagLookup(tagError: TagError)
    | Git(message: string)
    | DirtyWorkingTree(statuses: seq<FileStatus>)
    | BranchNotAllowed(whitelist: seq<string>, branch: string)
    | SettingsUnreadable(message: string)
      /** A hook template that does not parse; `profile` is the bump profile
          named in the message, if one was selected. */
    | HookParse(profile: Option<string>, index: nat, cause: string)
    | HookVersions(cause: string)
      /** A hook that ran and failed, reported under its command line. */
    | HookRun(command: string, cause: string)

  /** Rust's `{:?}` escaping of one character inside a double-quoted string. */
  function EscapeDebug(c: char): string {
    if c == '"' then "\\\""
    else if c == '\\' then "\\\\"
    else if c == '\n' then "\\n"
    else if c == '\r' then "\\r"
    else if c == '\t' then "\\t"
    else if c == '\0' then "\\0"
    else [c]
  }

  predicate NeedsEscape(c: char) {
    c == '"' || c == '\\' || c == '\n' || c == '\r' || c == '\t' || c == '\0'
  }

  function EscapeAll(s: string): string {
    if |s| == 0 then "" else EscapeDebug(s[0]) + EscapeAll(s[1..])
  }

  /** `{:?}` of a `String`. */
  function DebugString(s: string): string {
    "\"" + EscapeAll(s) + "\""
  }

  function JoinDebug(xs: seq<string>): string {
    if |xs| == 0 then ""
    else if |xs| == 1 then DebugString(xs[0])
    else DebugString(xs[0]) + ", " + JoinDebug(xs[1..])
  }

  /** `{:?}` of a `Vec<String>`. */
  function DebugList(xs: seq<string>): string {
    "[" + JoinDebug(xs) + "]"
  }

  /** The message of a branch outside the allow-list: the allow-list in
      debug form, then the branch verbatim between single quotes. */
  function BranchNotAllowedMessage(whitelist: seq<string>, branch: string): (r: string)
    ensures |r| == 58 + |DebugList(whitelist)| + |branch|
    ensures r[..23] == "No patterns matched in "
    ensures r[23..23 + |DebugList(whitelist)|] == DebugList(whitelist)
    ensures r[23 + |DebugList(whitelist)|..|r| - 22 - |branch|] == " for branch '"
    ensures r[|r| - 22 - |branch|..|r| - 22] == branch
    ensures r[|r| - 22..] == "', bump is not allowed"
  {
    var lead := "No patterns matched in " + DebugList(whitelist);
    var quoted := lead + " for branch '" + branch;
    var r := quoted + "', bump is not allowed";
    assert r[..|quoted|] == quoted && r[|quoted|..] == "', bump is not allowed";
    assert quoted[..|lead|] == lead && quoted[|quoted| - |branch|..] == branch;
    assert lead[..23] == "No patterns matched in " && lead[23..] == DebugList(whitelist);
    r
  }

  /** The message names the rejected branch unambiguously: for one
      allow-list, different branches give different messages. */
  lemma BranchNotAllowedMessageNamesBranch(whitelist: seq<string>, branch: string, other: string)
    requires branch != other
    ensures BranchNotAllowedMessage(whitelist, branch) != BranchNotAllowedMessage(whitelist, other)
  {
    var m, n := BranchNotAllowedMessage(whitelist, branch), BranchNotAllowedMessage(whitelist, other);
    if |branch| == |other| {
      assert m[|m| - 22 - |branch|..|m| - 22] != n[|n| - 22 - |other|..|n| - 22];
    }
  }

  /** A string with nothing to escape is quoted verbatim. */
  lemma {:induction false} EscapeAllPlain(s: string)
    requires forall i :: 0 <= i < |s| ==> !NeedsEscape(s[i])
    ensures EscapeAll(s) == s
  {
    if |s| > 0 {
      EscapeAllPlain(s[1..]);
      assert s == [s[0]] + s[1..];
    }
  }

  lemma DebugListOfMain()
    ensures DebugList(["main"]) == "[\"main\"]"
  {
    EscapeAllPlain("main");
    assert JoinDebug(["main"]) == DebugString("main");
  }

  lemma MainOnMasterPieces()
    ensures "No patterns matched in " + "[\"main\"]" + " for branch '"
            == "No patterns matched in [\"main\"] for branch '"
    ensures "No patterns matched in [\"main\"] for branch '" + "master" + "', bump is not allowed"
            == "No patterns matched in [\"main\"] for branch 'master', bump is not allowed"
  {
    assert "No patterns matched in [\"main\"] for branch '" + "master"
        == "No patterns matched in [\"main\"] for branch 'master";
  }

  /** The message of a rejected branch, exactly as the command prints it for
      the allow-list ["main"] on branch master. */
  lemma MainOnMasterMessage()
    ensures BranchNotAllowedMessage(["main"], "master")
            == "No patterns matched in [\"main\"] for branch 'master', bump is not allowed"
  {
    DebugListOfMain();
    MainOnMasterPieces();
  }
}
