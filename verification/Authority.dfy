/** What a builder may invoke, and the identity of one exact invocation. */
module Authority {
  import opened Text
  import opened Json
  import opened JsonRoundTrip
  import opened Statuses

  // ----- the request ---------------------------------------------------------------------

  datatype Header = Missing | Bad | Given(value: string)

  /** `_bounded_header`. */
  function BoundedHeader(value: Option<string>, limit: nat): (r: Header)
    ensures r.Given? ==> NulFree(r.value)
  {
    match value
    case None => Missing
    case Some(v) =>
      if Strip(v) == "" || |v| > limit || (exists c :: c in v && c < ' ') then Bad
      else
        StripKeeps(v);
        Given(Strip(v))
  }

  predicate NulFree(s: string) { '\0' !in s }

  lemma StripKeeps(s: string)
    ensures forall c :: c in Strip(s) ==> c in s
  {
    var pre, post := StripSplits(s);
  }

  /** The run an invocation is counted for; None when a header is refused. */
  function RunId(run: Option<string>, session: Option<string>): (r: Option<string>)
    ensures r.Some? ==> NulFree(r.value)
  {
    match BoundedHeader(run, 200)
    case Bad => None
    case Given(v) => Some(v)
    case Missing =>
      match BoundedHeader(session, 200)
      case Bad => None
      case Given(v) => Some(v)
      case Missing => Some("sessionless")
  }

  datatype Rpc = InvalidRpc | NoCall | Message(fields: Dict)

  predicate CallsTool(v: Value) { v.Obj? && Get(v.fields, "method") == Str("tools/call") }

  /** `_parse_rpc`: a batch is refused as soon as one entry would execute a tool. */
  function ParseRpc(body: Option<string>): Rpc {
    if body.None? || body.value == "" then NoCall
    else match Loads(body.value)
      case Malformed => InvalidRpc
      case Loaded(v) =>
        if v.Arr? then (if exists x :: x in v.items && CallsTool(x) then InvalidRpc else NoCall)
        else if v.Obj? then Message(v.fields)
        else InvalidRpc
  }

  datatype Purpose = Refusal | Discovery | Execution(tool: string, arguments: Dict)

  /** What `permit` takes a message for; anything but a well-formed tools/call only discovers, or is refused. */
  function PurposeOf(rpc: Rpc): Purpose {
    match rpc
    case InvalidRpc => Refusal
    case NoCall => Discovery
    case Message(fields) =>
      if Get(fields, "method") != Str("tools/call") then Discovery
      else if !Get(fields, "params").Obj? then Refusal
      else
        var params := Get(fields, "params").fields;
        var name := Get(params, "name");
        var arguments := if "arguments" in params then params["arguments"] else Obj(map[]);
        if !name.Str? || name.s == "" || !arguments.Obj? then Refusal else Execution(name.s, arguments.fields)
  }

  /** One body executes one tool or none: whatever array a body holds, it is refused or only discovers. */
  lemma {:induction false} BatchesNeverExecute(body: string, v: Value)
    requires Loads(body) == Loaded(v) && v.Arr?
    ensures PurposeOf(ParseRpc(Some(body))) == if exists x :: x in v.items && CallsTool(x) then Refusal else Discovery
  {
    assert body != "" by { assert Loads("") == Malformed; }
    hide Loads, CallsTool;
  }

  // ----- the authority map ---------------------------------------------------------------

  datatype Category = Safe | Low | Medium | High | Critical

  datatype Tool =
    | GetFileContents | GetRepositoryTree | SearchCode | CreateBranch | PushFiles | CreatePullRequest
    | ActionsRunTrigger | ActionsGet | ActionsList | GetJobLogs

  function ToolName(tool: Tool): string {
    match tool
    case GetFileContents => "get_file_contents"
    case GetRepositoryTree => "get_repository_tree"
    case SearchCode => "search_code"
    case CreateBranch => "create_branch"
    case PushFiles => "push_files"
    case CreatePullRequest => "create_pull_request"
    case ActionsRunTrigger => "actions_run_trigger"
    case ActionsGet => "actions_get"
    case ActionsList => "actions_list"
    case GetJobLogs => "get_job_logs"
  }

  function Capability(tool: Tool): string {
    match tool
    case GetFileContents => "repository.file.read"
    case GetRepositoryTree => "repository.tree.read"
    case SearchCode => "repository.code.search"
    case CreateBranch => "repository.branch.create"
    case PushFiles => "repository.files.modify"
    case CreatePullRequest => "repository.pull_request.create"
    case ActionsRunTrigger => "ci.workflow.trigger"
    case ActionsGet => "ci.workflow.read"
    case ActionsList => "ci.workflow.read"
    case GetJobLogs => "ci.logs.read"
  }

  function CategoryOf(tool: Tool): Category {
    match tool
    case CreateBranch => Medium
    case PushFiles => Medium
    case CreatePullRequest => Medium
    case ActionsRunTrigger => High
    case _ => Low
  }

  predicate Mutates(tool: Tool) {
    tool == CreateBranch || tool == PushFiles || tool == CreatePullRequest || tool == ActionsRunTrigger
  }

  datatype Permission = Permission(area: string, level: string)

  /** The one GitHub permission the action needs. */
  function PermissionFor(tool: Tool): Permission {
    match tool
    case GetFileContents => Permission("contents", "read")
    case GetRepositoryTree => Permission("contents", "read")
    case SearchCode => Permission("contents", "read")
    case CreateBranch => Permission("contents", "write")
    case PushFiles => Permission("contents", "write")
    case CreatePullRequest => Permission("pull_requests", "write")
    case ActionsRunTrigger => Permission("actions", "write")
    case _ => Permission("actions", "read")
  }

  /** A write permission and a risk above LOW go exactly with the tools that change something. */
  lemma PowersFollowMutation(tool: Tool)
    ensures Mutates(tool) <==> PermissionFor(tool).level == "write"
    ensures Mutates(tool) <==> CategoryOf(tool) == Medium || CategoryOf(tool) == High
  {
    assert "write"[0] != "read"[0];
  }

  const TOOLS: seq<Tool> :=
    [GetFileContents, GetRepositoryTree, SearchCode, CreateBranch, PushFiles, CreatePullRequest,
     ActionsRunTrigger, ActionsGet, ActionsList, GetJobLogs]

  /** `BUILDER_ACTIONS.get`. */
  function ToolNamed(name: string): (r: Option<Tool>)
    ensures r.Some? ==> ToolName(r.value) == name
    ensures r.None? ==> forall t :: t in TOOLS ==> ToolName(t) != name
  {
    FindTool(name, 0)
  }

  function FindTool(name: string, i: nat): (r: Option<Tool>)
    requires i <= |TOOLS|
    ensures r.Some? ==> ToolName(r.value) == name
    ensures r.None? ==> forall k :: i <= k < |TOOLS| ==> ToolName(TOOLS[k]) != name
    decreases |TOOLS| - i
  {
    if i == |TOOLS| then None
    else if ToolName(TOOLS[i]) == name then Some(TOOLS[i])
    else FindTool(name, i + 1)
  }

  /** `_optional_string`; the empty string stands for None. */
  function Field(arguments: Dict, key: string): string {
    if Get(arguments, key).Str? then Strip(Get(arguments, key).s) else ""
  }

  /** `_branch`: the first of branch, ref and head that says something. */
  function NamedBranch(arguments: Dict): string {
    if Field(arguments, "branch") != "" then Field(arguments, "branch")
    else if Field(arguments, "ref") != "" then Field(arguments, "ref")
    else Field(arguments, "head")
  }

  predicate OnAgentBranch(branch: string) { "agent/" <= branch }

  function DropSlashes(s: string): string { if s != "" && s[0] == '/' then DropSlashes(s[1..]) else s }

  /** The path an argument object names, if any. */
  function PathIn(fields: Dict): Option<string> {
    if Field(fields, "path") == "" then None else Some(DropSlashes(Field(fields, "path")))
  }

  /** Every path an invocation names: its own, and each of its files'. */
  predicate NamesPath(arguments: Dict, path: string) {
    || PathIn(arguments) == Some(path)
    || (Get(arguments, "files").Arr?
        && exists x :: x in Get(arguments, "files").items && x.Obj? && PathIn(x.fields) == Some(path))
  }

  /** `_paths`: each named path once. */
  method Paths(arguments: Dict) returns (paths: seq<string>)
    ensures forall p :: p in paths <==> NamesPath(arguments, p)
    ensures forall i, j :: 0 <= i < j < |paths| ==> paths[i] != paths[j]
  {
    paths := [];
    var direct := PathIn(arguments);
    if direct.Some? { paths := [direct.value]; }
    var files := Get(arguments, "files");
    if files.Arr? {
      var items := files.items;
      var k := 0;
      while k < |items|
        invariant k <= |items| && forall i, j :: 0 <= i < j < |paths| ==> paths[i] != paths[j]
        invariant forall p :: p in paths <==>
          direct == Some(p) || exists x :: x in items[..k] && x.Obj? && PathIn(x.fields) == Some(p)
      {
        var x := items[k];
        assert items[..k + 1] == items[..k] + [x];
        if x.Obj? {
          var path := PathIn(x.fields);
          if path.Some? && path.value !in paths { paths := paths + [path.value]; }
        }
        k := k + 1;
      }
      assert items[..|items|] == items;
    }
  }

  // ----- one exact invocation ------------------------------------------------------------

  datatype Invocation = Invocation(
    agentId: string, runId: string, toolId: string, capability: string,
    repository: string, branch: Option<string>, argsHash: string)

  datatype Denial =
    | NotInMap | NoRepository | OtherRepository | BranchPrefix | HeadPrefix | BaseMismatch | RefPrefix | ProtectedPath

  datatype Decision = Denied(reason: Denial) | Allowed(invocation: Invocation, tool: Tool)

  /** The gateway's configuration; which paths the patterns protect is a parameter. */
  datatype Gateway = Gateway(repository: string, defaultBranch: string, isProtected: string -> bool, argsHash: string -> string)

  /** `canonical_args_hash` before hashing. */
  function CanonicalArgs(name: string, arguments: Dict): string {
    Dumps(Obj(map["tool" := Str(name), "arguments" := Obj(arguments)]), COMPACT)
  }

  function NonEmpty(s: string): Option<string> { if s == "" then None else Some(s) }

  function Invoke(gateway: Gateway, runId: string, tool: Tool, arguments: Dict, branch: string): Invocation {
    Invocation("hermes-builder", runId, "github:" + ToolName(tool), Capability(tool), gateway.repository, NonEmpty(branch),
               gateway.argsHash(CanonicalArgs(ToolName(tool), arguments)))
  }

  /** The branch the invocation is bound to, or why it is refused. */
  datatype Target = Refused(reason: Denial) | Branch(name: string)

  function TargetOf(gateway: Gateway, tool: Tool, arguments: Dict): Target {
    match tool
    case CreateBranch => if OnAgentBranch(NamedBranch(arguments)) then Branch(NamedBranch(arguments)) else Refused(BranchPrefix)
    case PushFiles => if OnAgentBranch(NamedBranch(arguments)) then Branch(NamedBranch(arguments)) else Refused(BranchPrefix)
    case CreatePullRequest =>
      if !OnAgentBranch(Field(arguments, "head")) then Refused(HeadPrefix)
      else if Field(arguments, "base") == "" || Field(arguments, "base") != gateway.defaultBranch then Refused(BaseMismatch)
      else Branch(Field(arguments, "head"))
    case ActionsRunTrigger =>
      if OnAgentBranch(Field(arguments, "ref")) then Branch(Field(arguments, "ref")) else Refused(RefPrefix)
    case _ => Branch(NamedBranch(arguments))
  }

  /** `_repository` is the configured one. */
  function RepositoryProblem(gateway: Gateway, arguments: Dict): Option<Denial> {
    var owner, repo := Field(arguments, "owner"), Field(arguments, "repo");
    if owner == "" || repo == "" then Some(NoRepository)
    else if owner + "/" + repo != gateway.repository then Some(OtherRepository)
    else None
  }

  ghost predicate TouchesProtected(gateway: Gateway, arguments: Dict) {
    exists p :: NamesPath(arguments, p) && gateway.isProtected(p)
  }

  /** `builder_invocation_context`. */
  ghost function BuilderContext(gateway: Gateway, runId: string, name: string, arguments: Dict): Decision {
    var tool := ToolNamed(name);
    var problem := RepositoryProblem(gateway, arguments);
    if tool.None? then Denied(NotInMap)
    else if problem.Some? then Denied(problem.value)
    else
      match TargetOf(gateway, tool.value, arguments)
      case Refused(reason) => Denied(reason)
      case Branch(branch) =>
        if Mutates(tool.value) && TouchesProtected(gateway, arguments) then Denied(ProtectedPath)
        else Allowed(Invoke(gateway, runId, tool.value, arguments, branch), tool.value)
  }

  method AnyProtected(gateway: Gateway, arguments: Dict) returns (found: bool)
    ensures found <==> TouchesProtected(gateway, arguments)
  {
    hide NamesPath;
    var paths := Paths(arguments);
    var k := 0;
    while k < |paths|
      invariant k <= |paths| && forall i :: 0 <= i < k ==> !gateway.isProtected(paths[i])
    {
      if gateway.isProtected(paths[k]) {
        assert paths[k] in paths;
        return true;
      }
      k := k + 1;
    }
    found := false;
  }

  /** The same decision as the code takes it, path by path. */
  method DecideContext(gateway: Gateway, runId: string, name: string, arguments: Dict) returns (d: Decision)
    ensures d == BuilderContext(gateway, runId, name, arguments)
  {
    hide TargetOf, RepositoryProblem, TouchesProtected, Invoke;
    var tool := ToolNamed(name);
    if tool.None? { return Denied(NotInMap); }
    var problem := RepositoryProblem(gateway, arguments);
    if problem.Some? { return Denied(problem.value); }
    var target := TargetOf(gateway, tool.value, arguments);
    if target.Refused? { return Denied(target.reason); }
    if Mutates(tool.value) {
      var found := AnyProtected(gateway, arguments);
      if found { return Denied(ProtectedPath); }
    }
    d := Allowed(Invoke(gateway, runId, tool.value, arguments, target.name), tool.value);
  }

  /** Every mutation that is let through stays on an agent branch and off the protected paths. */
  lemma MutationsConfined(gateway: Gateway, runId: string, name: string, arguments: Dict, path: string)
    requires BuilderContext(gateway, runId, name, arguments).Allowed? && Mutates(BuilderContext(gateway, runId, name, arguments).tool)
    ensures var i := BuilderContext(gateway, runId, name, arguments).invocation;
      && i.branch.Some? && OnAgentBranch(i.branch.value) && i.repository == gateway.repository
      && (NamesPath(arguments, path) ==> !gateway.isProtected(path))
  {
    hide NamesPath, Field, CanonicalArgs, RepositoryProblem, ToolNamed, NamedBranch;
  }

  // ----- identity ------------------------------------------------------------------------

  function Coalesced(branch: Option<string>): string { if branch.None? then "" else branch.value }

  /** What `has_execution_grant` and `consume_execution_grant` compare, column by column. */
  predicate SameInvocation(a: Invocation, b: Invocation) {
    && a.agentId == b.agentId && a.runId == b.runId && a.toolId == b.toolId && a.capability == b.capability
    && a.repository == b.repository && Coalesced(a.branch) == Coalesced(b.branch) && a.argsHash == b.argsHash
  }

  function Join(fields: seq<string>): string
    requires fields != []
  {
    if |fields| == 1 then fields[0] else fields[0] + "\0" + Join(fields[1..])
  }

  function FieldsOf(i: Invocation): seq<string> {
    [i.agentId, i.runId, i.toolId, i.capability, i.repository, Coalesced(i.branch), i.argsHash]
  }

  /** The material of `request_id`. */
  function Material(i: Invocation): string { Join(FieldsOf(i)) }

  predicate NulFreeBut(i: Invocation) {
    NulFree(i.agentId) && NulFree(i.runId) && NulFree(i.toolId) && NulFree(i.capability) && NulFree(i.repository) && NulFree(i.argsHash)
  }

  lemma FirstNul(a: string, s: string, m: string)
    requires NulFree(a) && m == a + "\0" + s
    ensures |a| < |m| && m[|a|] == '\0' && forall i :: 0 <= i < |a| ==> m[i] != '\0'
    ensures a == m[..|a|] && s == m[|a| + 1..]
  {
    assert forall i :: 0 <= i < |a| ==> m[i] == a[i];
  }

  lemma LastNul(s: string, a: string, m: string)
    requires NulFree(a) && m == s + "\0" + a
    ensures |s| < |m| && m[|s|] == '\0' && forall i :: |s| < i < |m| ==> m[i] != '\0'
    ensures s == m[..|s|] && a == m[|s| + 1..]
  {
    assert forall i :: |s| < i < |m| ==> m[i] == a[i - |s| - 1];
  }

  /** The first separator is found from the left. */
  lemma HeadUnique(a: string, s: string, b: string, t: string)
    requires NulFree(a) && NulFree(b) && a + "\0" + s == b + "\0" + t
    ensures a == b && s == t
  {
    FirstNul(a, s, a + "\0" + s);
    FirstNul(b, t, a + "\0" + s);
  }

  /** The last separator is found from the right, whatever stands before it. */
  lemma TailUnique(s: string, a: string, t: string, b: string)
    requires NulFree(a) && NulFree(b) && s + "\0" + a == t + "\0" + b
    ensures s == t && a == b
  {
    LastNul(s, a, s + "\0" + a);
    LastNul(t, b, s + "\0" + a);
  }

  lemma JoinSplit(f: seq<string>)
    requires |f| >= 2
    ensures Join(f) == f[0] + "\0" + Join(f[1..])
  {}

  lemma SameHead(f: seq<string>, g: seq<string>)
    requires |f| == |g| >= 2 && NulFree(f[0]) && NulFree(g[0]) && Join(f) == Join(g)
    ensures f[0] == g[0] && Join(f[1..]) == Join(g[1..])
  {
    JoinSplit(f);
    JoinSplit(g);
    HeadUnique(f[0], Join(f[1..]), g[0], Join(g[1..]));
  }

  /** The fields before the branch, read off one by one. */
  lemma {:induction false} SameHeads(f: seq<string>, g: seq<string>, n: nat)
    requires n < |f| == |g| && (forall i :: 0 <= i < n ==> NulFree(f[i]) && NulFree(g[i])) && Join(f) == Join(g)
    ensures (forall i :: 0 <= i < n ==> f[i] == g[i]) && Join(f[n..]) == Join(g[n..])
  {
    hide Join, NulFree;
    if n == 0 {
      assert f[0..] == f && g[0..] == g;
    } else {
      SameHeads(f, g, n - 1);
      SameHead(f[n - 1..], g[n - 1..]);
      assert f[n - 1..][1..] == f[n..] && g[n - 1..][1..] == g[n..];
    }
  }

  /** The material is uniquely decodable, even when the branch holds NULs itself. */
  lemma MaterialDecodable(a: Invocation, b: Invocation)
    requires NulFreeBut(a) && NulFreeBut(b)
    ensures Material(a) == Material(b) <==> SameInvocation(a, b)
  {
    var f, g := FieldsOf(a), FieldsOf(b);
    if Material(a) == Material(b) {
      hide NulFree;
      SameHeads(f, g, 5);
      assert f[0] == g[0] && f[1] == g[1] && f[2] == g[2] && f[3] == g[3] && f[4] == g[4];
      JoinSplit(f[5..]);
      JoinSplit(g[5..]);
      assert Join(f[5..]) == f[5] + "\0" + f[6] && Join(g[5..]) == g[5] + "\0" + g[6];
      hide Join;
      TailUnique(f[5], f[6], g[5], g[6]);
    }
  }

  ghost predicate Injective(h: string -> string) { forall s, t :: h(s) == h(t) ==> s == t }

  /** The digests are hexadecimal. */
  ghost predicate NulFreeDigests(h: string -> string) { forall s :: NulFree(h(s)) }

  lemma NamesNulFree(tool: Tool)
    ensures NulFree(ToolName(tool))
  {}

  lemma CapabilitiesNulFree(tool: Tool)
    ensures NulFree(Capability(tool))
  {}

  lemma InvokeNulFree(gateway: Gateway, runId: string, tool: Tool, arguments: Dict, branch: string)
    requires NulFree(runId) && NulFree(gateway.repository) && NulFreeDigests(gateway.argsHash)
    ensures NulFreeBut(Invoke(gateway, runId, tool, arguments, branch))
  {
    NamesNulFree(tool);
    CapabilitiesNulFree(tool);
    hide ToolName, Capability, CanonicalArgs;
  }

  /** What an allowed context is made of. */
  lemma ContextParts(gateway: Gateway, runId: string, name: string, arguments: Dict) returns (tool: Tool, branch: string)
    requires BuilderContext(gateway, runId, name, arguments).Allowed?
    ensures BuilderContext(gateway, runId, name, arguments).invocation == Invoke(gateway, runId, tool, arguments, branch)
    ensures ToolNamed(name) == Some(tool) && ToolName(tool) == name && TargetOf(gateway, tool, arguments) == Branch(branch)
  {
    hide TargetOf, RepositoryProblem, TouchesProtected, Invoke, ToolName;
    tool := ToolNamed(name).value;
    branch := TargetOf(gateway, tool, arguments).name;
  }

  lemma CanonicalArgsInjective(tool1: string, arguments1: Dict, tool2: string, arguments2: Dict)
    requires WellFormed(Obj(arguments1)) && WellFormed(Obj(arguments2))
    ensures CanonicalArgs(tool1, arguments1) == CanonicalArgs(tool2, arguments2) <==> tool1 == tool2 && arguments1 == arguments2
  {
    var v := Obj(map["tool" := Str(tool1), "arguments" := Obj(arguments1)]);
    var w := Obj(map["tool" := Str(tool2), "arguments" := Obj(arguments2)]);
    DumpsInjective(v, w, COMPACT);
    hide Dumps;
    if v == w {
      assert v.fields["tool"] == Str(tool1) && v.fields["arguments"] == Obj(arguments1);
      assert w.fields["tool"] == Str(tool2) && w.fields["arguments"] == Obj(arguments2);
    }
  }

  /**
   Approval identity is grant-matching identity: two invocations share a request id exactly when a grant
   for one matches the other, and that is exactly when the run, the tool and the arguments are the same,
   up to the order of object keys.
   */
  lemma ApprovalIdentity(gateway: Gateway, id: string -> string,
                         run1: string, name1: string, arguments1: Dict, run2: string, name2: string, arguments2: Dict)
    requires Injective(id) && Injective(gateway.argsHash) && NulFreeDigests(gateway.argsHash)
    requires NulFree(run1) && NulFree(run2) && NulFree(gateway.repository)
    requires WellFormed(Obj(arguments1)) && WellFormed(Obj(arguments2))
    requires BuilderContext(gateway, run1, name1, arguments1).Allowed? && BuilderContext(gateway, run2, name2, arguments2).Allowed?
    ensures var a, b := BuilderContext(gateway, run1, name1, arguments1).invocation, BuilderContext(gateway, run2, name2, arguments2).invocation;
      && (id(Material(a)) == id(Material(b)) <==> SameInvocation(a, b))
      && (SameInvocation(a, b) <==> run1 == run2 && name1 == name2 && arguments1 == arguments2)
  {
    var tool1, branch1 := ContextParts(gateway, run1, name1, arguments1);
    var tool2, branch2 := ContextParts(gateway, run2, name2, arguments2);
    InvokeNulFree(gateway, run1, tool1, arguments1, branch1);
    InvokeNulFree(gateway, run2, tool2, arguments2, branch2);
    MaterialDecodable(Invoke(gateway, run1, tool1, arguments1, branch1), Invoke(gateway, run2, tool2, arguments2, branch2));
    CanonicalArgsInjective(name1, arguments1, name2, arguments2);
    hide BuilderContext, CanonicalArgs, Material, NulFreeBut, NulFree, ToolNamed, TargetOf, Capability, ToolName;
  }
}
