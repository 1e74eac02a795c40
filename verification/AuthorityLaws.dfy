/** What a builder's invocation must say to be allowed, and what it is then bound to, said of its arguments alone. */
module AuthorityLaws {
  import opened Text
  import opened Json
  import opened Statuses
  import opened Authority

  /** The argument is a string with visible text; this is its text without the white space around it. */
  predicate Says(arguments: Dict, key: string, text: string) {
    Get(arguments, key).Str? && text != "" && Strip(Get(arguments, key).s) == text
  }

  predicate Silent(arguments: Dict, key: string) { Get(arguments, key).Str? ==> Strip(Get(arguments, key).s) == "" }

  lemma FieldSays(arguments: Dict, key: string)
    ensures Silent(arguments, key) <==> Field(arguments, key) == ""
    ensures forall text :: Says(arguments, key, text) <==> text != "" && text == Field(arguments, key)
  {
    hide Strip;
  }

  /** owner and repo together name the repository. */
  ghost predicate NamesRepository(arguments: Dict, repository: string) {
    exists owner, repo :: Says(arguments, "owner", owner) && Says(arguments, "repo", repo) && owner + "/" + repo == repository
  }

  lemma RepositoryExactly(gateway: Gateway, arguments: Dict)
    ensures RepositoryProblem(gateway, arguments).None? <==> NamesRepository(arguments, gateway.repository)
    ensures RepositoryProblem(gateway, arguments) == Some(NoRepository) <==> Silent(arguments, "owner") || Silent(arguments, "repo")
  {
    FieldSays(arguments, "owner");
    FieldSays(arguments, "repo");
    hide Silent, Says, Field;
    if RepositoryProblem(gateway, arguments).None? {
      assert Says(arguments, "owner", Field(arguments, "owner")) && Says(arguments, "repo", Field(arguments, "repo"));
    }
  }

  /** The first of branch, ref and head that says something, or nothing. */
  predicate Named(arguments: Dict, branch: string) {
    || Says(arguments, "branch", branch)
    || (Silent(arguments, "branch") && Says(arguments, "ref", branch))
    || (Silent(arguments, "branch") && Silent(arguments, "ref") && Says(arguments, "head", branch))
    || (Silent(arguments, "branch") && Silent(arguments, "ref") && Silent(arguments, "head") && branch == "")
  }

  lemma NamedExactly(arguments: Dict, branch: string)
    ensures Named(arguments, branch) <==> branch == NamedBranch(arguments)
  {
    FieldSays(arguments, "branch");
    FieldSays(arguments, "ref");
    FieldSays(arguments, "head");
    hide Silent, Says, Field;
  }

  predicate StartsWith(s: string, prefix: string) { |prefix| <= |s| && s[..|prefix|] == prefix }

  /** The branch a tool may work on with these arguments. */
  predicate Targets(gateway: Gateway, tool: Tool, arguments: Dict, branch: string) {
    match tool
    case CreateBranch => Named(arguments, branch) && StartsWith(branch, "agent/")
    case PushFiles => Named(arguments, branch) && StartsWith(branch, "agent/")
    case CreatePullRequest =>
      Says(arguments, "head", branch) && StartsWith(branch, "agent/") && Says(arguments, "base", gateway.defaultBranch)
    case ActionsRunTrigger => Says(arguments, "ref", branch) && StartsWith(branch, "agent/")
    case _ => Named(arguments, branch)
  }

  lemma TargetsExactly(gateway: Gateway, tool: Tool, arguments: Dict, branch: string)
    ensures Targets(gateway, tool, arguments, branch) <==> TargetOf(gateway, tool, arguments) == Branch(branch)
  {
    NamedExactly(arguments, branch);
    FieldSays(arguments, "head");
    FieldSays(arguments, "base");
    FieldSays(arguments, "ref");
    hide Silent, Says, Field, Named, NamedBranch;
  }

  // ----- paths ---------------------------------------------------------------------------

  /** The path is the text after its first n characters, which are the leading slashes. */
  predicate Tail(text: string, n: nat, path: string) {
    n <= |text| && path == text[n..] && (forall i :: 0 <= i < n ==> text[i] == '/') && (path != "" ==> path[0] != '/')
  }

  predicate Relative(text: string, path: string) { exists n: nat :: n <= |text| && Tail(text, n, path) }

  lemma {:induction false} Slashes(text: string) returns (n: nat)
    ensures Tail(text, n, DropSlashes(text))
  {
    n := 0;
    if text != "" && text[0] == '/' {
      n := Slashes(text[1..]);
      assert text[1..][n..] == text[n + 1..];
      assert forall i :: 0 < i < n + 1 ==> text[i] == text[1..][i - 1];
      n := n + 1;
    }
  }

  lemma TailStops(text: string, n: nat, path: string)
    requires Tail(text, n, path)
    ensures n < |text| ==> text[n] != '/'
  {
    assert n < |text| ==> text[n..][0] == text[n];
  }

  lemma OneTail(text: string, m: nat, p: string, n: nat, q: string)
    requires Tail(text, m, p) && Tail(text, n, q)
    ensures m == n && p == q
  {
    TailStops(text, m, p);
    TailStops(text, n, q);
  }

  lemma DropSlashesExactly(text: string, path: string)
    ensures Relative(text, path) <==> path == DropSlashes(text)
  {
    var n := Slashes(text);
    hide Tail, DropSlashes;
    if Relative(text, path) {
      var m: nat :| m <= |text| && Tail(text, m, path);
      OneTail(text, m, path, n, DropSlashes(text));
    }
    assert Tail(text, n, DropSlashes(text)) && n <= |text| by { TailWithin(text, n, DropSlashes(text)); }
  }

  lemma TailWithin(text: string, n: nat, path: string)
    requires Tail(text, n, path)
    ensures n <= |text|
  {}

  predicate GivesPath(fields: Dict, path: string) {
    Get(fields, "path").Str? && Strip(Get(fields, "path").s) != "" && Relative(Strip(Get(fields, "path").s), path)
  }

  /** The arguments' own path, or that of one of their files. */
  predicate Touches(arguments: Dict, path: string) {
    || GivesPath(arguments, path)
    || (Get(arguments, "files").Arr? && exists x :: x in Get(arguments, "files").items && x.Obj? && GivesPath(x.fields, path))
  }

  lemma GivesExactly(fields: Dict, path: string)
    ensures GivesPath(fields, path) <==> PathIn(fields) == Some(path)
  {
    FieldSays(fields, "path");
    DropSlashesExactly(Field(fields, "path"), path);
    hide Relative, DropSlashes, Strip;
  }

  lemma TouchesExactly(arguments: Dict, path: string)
    ensures Touches(arguments, path) <==> NamesPath(arguments, path)
  {
    GivesExactly(arguments, path);
    forall x: Value | x.Obj? ensures GivesPath(x.fields, path) <==> PathIn(x.fields) == Some(path) { GivesExactly(x.fields, path); }
    hide GivesPath, PathIn;
  }

  // ----- the decision --------------------------------------------------------------------

  /** What the arguments must say for the tool to be let through, bound to this branch. */
  ghost predicate InScope(gateway: Gateway, tool: Tool, arguments: Dict, branch: string) {
    && NamesRepository(arguments, gateway.repository)
    && Targets(gateway, tool, arguments, branch)
    && (tool in {CreateBranch, PushFiles, CreatePullRequest, ActionsRunTrigger} ==>
          forall path :: Touches(arguments, path) ==> !gateway.isProtected(path))
  }

  lemma ProtectedExactly(gateway: Gateway, arguments: Dict)
    ensures TouchesProtected(gateway, arguments) <==> exists path :: Touches(arguments, path) && gateway.isProtected(path)
  {
    forall path ensures Touches(arguments, path) <==> NamesPath(arguments, path) { TouchesExactly(arguments, path); }
    hide Touches, NamesPath;
  }

  /**
   An invocation is allowed exactly when its tool is in the map, its owner and repo name the configured
   repository, it targets a branch the tool may work on, and, if the tool changes anything, it touches no
   protected path; it is then bound to that tool, repository, branch and arguments.
   */
  lemma AllowedExactly(gateway: Gateway, runId: string, tool: Tool, arguments: Dict, branch: string)
    ensures var d := BuilderContext(gateway, runId, ToolName(tool), arguments);
      && (InScope(gateway, tool, arguments, branch) ==> d.Allowed? && Coalesced(d.invocation.branch) == branch)
      && (d.Allowed? && Coalesced(d.invocation.branch) == branch ==> InScope(gateway, tool, arguments, branch))
      && (d.Allowed? ==>
            && d.tool == tool && d.invocation.agentId == "hermes-builder" && d.invocation.runId == runId
            && d.invocation.toolId == "github:" + ToolName(tool) && d.invocation.repository == gateway.repository
            && d.invocation.capability == Capability(tool))
  {
    ToolFound(tool);
    RepositoryExactly(gateway, arguments);
    TargetsExactly(gateway, tool, arguments, branch);
    ProtectedExactly(gateway, arguments);
    hide ToolNamed, RepositoryProblem, NamesRepository, Targets, TargetOf, TouchesProtected, Touches, CanonicalArgs, ToolName, Capability;
  }

  lemma ToolFound(tool: Tool)
    ensures ToolNamed(ToolName(tool)) == Some(tool)
  {
    var found := ToolNamed(ToolName(tool));
    assert tool in TOOLS by { EveryTool(tool); }
    hide ToolNamed;
    ToolNamesDistinct(tool, found.value);
  }

  lemma EveryTool(tool: Tool)
    ensures tool in TOOLS
  {
    assert TOOLS[0] == GetFileContents && TOOLS[1] == GetRepositoryTree && TOOLS[2] == SearchCode && TOOLS[3] == CreateBranch;
    assert TOOLS[4] == PushFiles && TOOLS[5] == CreatePullRequest && TOOLS[6] == ActionsRunTrigger && TOOLS[7] == ActionsGet;
    assert TOOLS[8] == ActionsList && TOOLS[9] == GetJobLogs;
  }

  lemma ToolNamesDistinct(a: Tool, b: Tool)
    ensures ToolName(a) == ToolName(b) <==> a == b
  {}

  /** An invocation whose owner or repo is anything else is denied, whatever its tool; so is a tool not in the map. */
  lemma ForeignDenied(gateway: Gateway, runId: string, name: string, arguments: Dict)
    ensures var d := BuilderContext(gateway, runId, name, arguments);
      && (!NamesRepository(arguments, gateway.repository) ==> d.Denied?)
      && ((forall tool :: ToolName(tool) != name) ==> d == Denied(NotInMap))
      && ((exists tool :: ToolName(tool) == name) ==>
            (d == Denied(NoRepository) <==> Silent(arguments, "owner") || Silent(arguments, "repo"))
            && (d == Denied(OtherRepository) <==> !NamesRepository(arguments, gateway.repository)
                                                  && !Silent(arguments, "owner") && !Silent(arguments, "repo")))
  {
    RepositoryExactly(gateway, arguments);
    if tool :| ToolName(tool) == name { ToolFound(tool); }
    hide ToolNamed, NamesRepository, TouchesProtected, Silent, Field, ToolName, Invoke;
    TargetReasons(gateway, arguments);
    hide TargetOf;
  }

  lemma TargetReasons(gateway: Gateway, arguments: Dict)
    ensures forall tool :: TargetOf(gateway, tool, arguments).Refused? ==>
      TargetOf(gateway, tool, arguments).reason in {BranchPrefix, HeadPrefix, BaseMismatch, RefPrefix}
  {
    hide Field;
  }

  /** At ceiling MEDIUM the workflow trigger alone needs a human; at LOW everything that changes something does. */
  lemma WhatNeedsAHuman(tool: Tool)
    ensures CategoryOf(tool) == High <==> tool == ActionsRunTrigger
    ensures CategoryOf(tool) == Medium <==> tool in {CreateBranch, PushFiles, CreatePullRequest}
    ensures CategoryOf(tool) in {Low, Medium, High}
  {}

  /** An override of one of these capabilities rules exactly the one tool that changes things under it. */
  lemma RuledByCapability(tool: Tool)
    ensures Capability(tool) == "repository.branch.create" <==> tool == CreateBranch
    ensures Capability(tool) == "repository.files.modify" <==> tool == PushFiles
    ensures Capability(tool) == "repository.pull_request.create" <==> tool == CreatePullRequest
    ensures Capability(tool) == "ci.workflow.trigger" <==> tool == ActionsRunTrigger
  {
    assert |"repository.branch.create"| == 24 && |"repository.files.modify"| == 23 && |"repository.pull_request.create"| == 30;
    assert |"ci.workflow.trigger"| == 19 && |"repository.file.read"| == 20 && |"repository.tree.read"| == 20;
    assert |"repository.code.search"| == 22 && |"ci.workflow.read"| == 16 && |"ci.logs.read"| == 12;
  }

  // ----- messages ------------------------------------------------------------------------

  /** The message calls this tool with these arguments; none given are no arguments. */
  predicate Calls(fields: Dict, name: string, arguments: Dict) {
    && "method" in fields && fields["method"] == Str("tools/call") && "params" in fields && fields["params"].Obj?
    && var params := fields["params"].fields;
       && "name" in params && params["name"] == Str(name) && name != ""
       && (if "arguments" in params then params["arguments"] == Obj(arguments) else arguments == map[])
  }

  /** A message executes exactly what it calls; one that is no tools/call only discovers; any other is refused. */
  lemma MessagesExactly(fields: Dict, name: string, arguments: Dict)
    ensures var purpose := PurposeOf(Message(fields));
      && (purpose == Execution(name, arguments) <==> Calls(fields, name, arguments))
      && (purpose == Discovery <==> !("method" in fields && fields["method"] == Str("tools/call")))
  {}

  /** A body is taken for a message exactly when it reads as an object. */
  lemma BodiesExactly(body: string, fields: Dict)
    ensures ParseRpc(Some(body)) == Message(fields) <==> Loads(body) == Loaded(Obj(fields))
    ensures body != "" && Loads(body) == Malformed ==> ParseRpc(Some(body)) == InvalidRpc
  {
    assert Loads("") == Malformed;
    hide Loads;
  }

  /** An accepted header is the value without the white space around it, in bounds and free of control characters. */
  lemma HeadersExactly(value: string, limit: nat)
    ensures var r := BoundedHeader(Some(value), limit);
      if Strip(value) != "" && |value| <= limit && forall i :: 0 <= i < |value| ==> value[i] >= ' ' then r == Given(Strip(value))
      else r == Bad
  {
    hide Strip;
    assert forall i :: 0 <= i < |value| ==> value[i] in value;
  }
}
