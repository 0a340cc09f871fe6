/**
 * The tool registry: a name-to-descriptor map built once from the tool list, the catalogue
 * text shown to the model, and `execute`, the fault boundary around every tool call.
 */
module ToolRegistry {
  import opened Common
  import opened Text
  import opened Values

  /** What calling a tool does: it returns a Python value or raises with a message. */
  datatype ToolOutcome = Returned(value: Value) | Raised(error: string)

  /**
   * A tool descriptor: its name, description, rendered parameter schema and the callable,
   * which receives the keyword arguments (tool side effects are not modelled).
   */
  datatype Tool = Tool(name: string, description: string, params: string,
                       run: map<string, Value> -> ToolOutcome)

  /** The result of `execute`. */
  datatype ToolResult = ToolResult(isSuccess: bool, content: Option<string>, error: Option<string>)

  /** A failure carries an error and no content; a success carries no error. */
  predicate WellFormed(tr: ToolResult)
  {
    if tr.isSuccess then tr.error.None? else tr.content.None? && tr.error.Some?
  }

  /** The tools as given, and the map from name to descriptor built from them. */
  datatype Registry = Registry(tools: seq<Tool>, toolRegistry: map<string, Tool>)

  /** No tool after position `k` has the name of the tool at `k`. */
  ghost predicate LastWithItsName(tools: seq<Tool>, k: int)
    requires 0 <= k < |tools|
  {
    forall l :: k < l < |tools| ==> tools[l].name != tools[k].name
  }

  /**
   * The dict comprehension of `registry()`: every listed name is a key, every key is the name
   * of its descriptor, and for a repeated name the later tool wins.
   */
  function BuildToolMap(tools: seq<Tool>): (m: map<string, Tool>)
    ensures m.Keys == Names(tools)
    ensures forall n :: n in m ==> m[n].name == n
  {
    if |tools| == 0 then map[]
    else
      var n := |tools| - 1;
      assert Names(tools) == Names(tools[..n]) + {tools[n].name};
      BuildToolMap(tools[..n])[tools[n].name := tools[n]]
  }

  /** For a repeated name the later tool wins: the last tool with a name is its descriptor. */
  lemma {:induction false} LaterToolWins(tools: seq<Tool>, k: int)
    requires 0 <= k < |tools| && LastWithItsName(tools, k)
    ensures BuildToolMap(tools)[tools[k].name] == tools[k]
  {
    var n := |tools| - 1;
    if k < n {
      assert tools[..n][k] == tools[k];
      LaterToolWins(tools[..n], k);
    }
  }

  /** Every tool that no later tool renames over is the descriptor of its name. */
  lemma LaterToolWinsEverywhere(tools: seq<Tool>)
    ensures forall k :: 0 <= k < |tools| && LastWithItsName(tools, k) ==> BuildToolMap(tools)[tools[k].name] == tools[k]
  {
    forall k | 0 <= k < |tools| && LastWithItsName(tools, k)
      ensures BuildToolMap(tools)[tools[k].name] == tools[k]
    {
      LaterToolWins(tools, k);
    }
  }

  /** The names of the listed tools. */
  function Names(tools: seq<Tool>): set<string>
  {
    set k | 0 <= k < |tools| :: tools[k].name
  }

  /**
   * The constructor: the map is built here once and never changed afterwards. Its keys are the
   * listed names, each key maps to a descriptor of that name, and a tool that no later tool
   * shadows is the descriptor of its name.
   */
  function NewRegistry(tools: seq<Tool>): (reg: Registry)
    ensures reg.tools == tools
    ensures Built(reg)
    ensures reg.toolRegistry.Keys == Names(tools)
    ensures forall n :: n in reg.toolRegistry ==> reg.toolRegistry[n].name == n
    ensures forall k :: 0 <= k < |tools| && LastWithItsName(tools, k) ==> reg.toolRegistry[tools[k].name] == tools[k]
  {
    LaterToolWinsEverywhere(tools);
    Registry(tools, BuildToolMap(tools))
  }

  /** The registry's map is the one its tool list builds. */
  ghost predicate Built(reg: Registry)
  {
    reg.toolRegistry == BuildToolMap(reg.tools)
  }

  function NotRegisteredMessage(name: string): string
  {
    "工具 '" + name + "' 未注册"
  }

  /** The block describing one descriptor (indentation removed). */
  function ToolBlock(t: Tool): string
  {
    "\nTool Name: " + t.name + "\nDescription: " + t.description + "\nParameters: " + t.params + "\n"
  }

  /**
   * `tool_prompt`: the block of the registered descriptor, or the not-registered message. The
   * message is given exactly for unregistered names, and a built registry's block opens with a
   * line naming the tool asked for.
   */
  function ToolPrompt(reg: Registry, name: string): (r: string)
    ensures r == NotRegisteredMessage(name) <==> name !in reg.toolRegistry
    ensures Built(reg) && name in reg.toolRegistry ==> OccursAt(r, "\nTool Name: " + name + "\n", 0)
  {
    assert name in reg.toolRegistry ==> ToolBlock(reg.toolRegistry[name])[0] != NotRegisteredMessage(name)[0];
    if name in reg.toolRegistry then ToolBlock(reg.toolRegistry[name])
    else NotRegisteredMessage(name)
  }

  /** The blocks of `get_tools_prompt`, one per listed tool, in list order. */
  function CatalogueBlocks(reg: Registry): (blocks: seq<string>)
    ensures |blocks| == |reg.tools|
    ensures forall k :: 0 <= k < |blocks| ==> blocks[k] == ToolPrompt(reg, reg.tools[k].name)
  {
    seq(|reg.tools|, k requires 0 <= k < |reg.tools| => ToolPrompt(reg, reg.tools[k].name))
  }

  /**
   * The heading of the catalogue after `dedent`: with tools listed, the flush-left blocks leave
   * no common margin and the heading keeps its eight-space indent; with none, the margin is
   * the heading's own indent and it is removed.
   */
  function CatalogueHeading(n: nat): string
  {
    if n == 0 then "\nAvailable Tools:\n" else "\n        Available Tools:\n"
  }

  /**
   * `get_tools_prompt`: the blocks joined by a blank line under a heading. The text opens with
   * the heading and holds the prompt of every listed tool.
   */
  function GetToolsPrompt(reg: Registry): (r: string)
    ensures OccursAt(r, CatalogueHeading(|reg.tools|), 0)
    ensures forall k :: 0 <= k < |reg.tools| ==> Contains(r, ToolPrompt(reg, reg.tools[k].name))
  {
    var blocks := CatalogueBlocks(reg);
    FramedJoinContainsParts(CatalogueHeading(|reg.tools|), "\n\n", blocks, "\n");
    CatalogueHeading(|reg.tools|) + Join("\n\n", blocks) + "\n"
  }

  /**
   * The catalogue lists the tools in list order: tool `k`'s block starts right after the
   * heading and the blocks of the tools before it, each followed by a blank line; a blank line
   * follows it unless it is the last, and the last block is followed by the final newline only.
   */
  lemma CatalogueInOrder(reg: Registry, k: nat)
    requires k < |reg.tools|
    ensures CatalogueBlocks(reg)[k] == ToolPrompt(reg, reg.tools[k].name)
    ensures FramedLayoutAt(GetToolsPrompt(reg), CatalogueHeading(|reg.tools|), "\n\n", CatalogueBlocks(reg), "\n", k)
  {
    var head, blocks := CatalogueHeading(|reg.tools|), CatalogueBlocks(reg);
    assert GetToolsPrompt(reg) == head + Join("\n\n", blocks) + "\n";
    FramedJoinLayout(head, "\n\n", blocks, "\n", k);
  }

  /** A listed tool is always registered, so its block names it and never says "not registered". */
  lemma ListedToolPrompt(reg: Registry, k: int)
    requires Built(reg) && 0 <= k < |reg.tools|
    ensures reg.tools[k].name in reg.toolRegistry
    ensures ToolPrompt(reg, reg.tools[k].name) == ToolBlock(reg.toolRegistry[reg.tools[k].name])
    ensures reg.toolRegistry[reg.tools[k].name].name == reg.tools[k].name
  {
  }

  /**
   * The catalogue holds the block of every listed tool that no later tool shadows: its own
   * name, description and parameters.
   */
  lemma CatalogueListsEveryTool(reg: Registry, k: int)
    requires Built(reg) && 0 <= k < |reg.tools|
    ensures LastWithItsName(reg.tools, k) ==>
      Contains(GetToolsPrompt(reg), ToolBlock(reg.tools[k]))
  {
    if LastWithItsName(reg.tools, k) {
      LaterToolWins(reg.tools, k);
      assert ToolPrompt(reg, reg.tools[k].name) == ToolBlock(reg.tools[k]);
    }
  }

  /** With two tools of one name, the catalogue shows the later one's block twice. */
  lemma DuplicateNameShowsLaterTool(reg: Registry, k: int, l: int)
    requires Built(reg) && 0 <= k < l < |reg.tools|
    requires reg.tools[k].name == reg.tools[l].name && LastWithItsName(reg.tools, l)
    ensures CatalogueBlocks(reg)[k] == ToolBlock(reg.tools[l])
    ensures CatalogueBlocks(reg)[l] == ToolBlock(reg.tools[l])
  {
    LaterToolWins(reg.tools, l);
  }

  /**
   * Python's `execute(tool_name=name, **params)`: the keyword arguments a params dict becomes.
   * A `tool_name` key clashes with the explicit argument; a non-string key is refused.
   */
  function KwargsOf(params: seq<(Value, Value)>): (r: Result<map<string, Value>>)
    ensures r.Ok? <==> forall k :: 0 <= k < |params| ==> params[k].0.VStr? && params[k].0.s != "tool_name"
  {
    if exists k :: 0 <= k < |params| && params[k].0 == VStr("tool_name") then
      Err("Registry.execute() got multiple values for keyword argument 'tool_name'")
    else if exists k :: 0 <= k < |params| && !params[k].0.VStr? then
      Err("Registry.execute() keywords must be strings")
    else Ok(KwargsMap(params))
  }

  /** No entry after position `k` repeats the key at `k`. */
  ghost predicate LastOfKey(params: seq<(Value, Value)>, k: int)
    requires 0 <= k < |params|
  {
    forall l :: k < l < |params| ==> params[l].0 != params[k].0
  }

  /**
   * Accepted params become keyword arguments with exactly their keys, each bound to the value
   * of the last entry with that key.
   */
  lemma KwargsOfKeys(params: seq<(Value, Value)>)
    requires KwargsOf(params).Ok?
    ensures forall k :: 0 <= k < |params| ==> params[k].0.s in KwargsOf(params).value
    ensures forall n :: n in KwargsOf(params).value ==> exists k :: 0 <= k < |params| && params[k].0 == VStr(n)
    ensures forall k :: 0 <= k < |params| && LastOfKey(params, k) ==>
      KwargsOf(params).value[params[k].0.s] == params[k].1
  {
    KwargsMapLastWins(params);
  }

  /** The map of string-keyed entries, later entries winning. */
  function KwargsMap(params: seq<(Value, Value)>): (m: map<string, Value>)
    requires forall k :: 0 <= k < |params| ==> params[k].0.VStr?
    ensures forall k :: 0 <= k < |params| ==> params[k].0.s in m
    ensures forall n :: n in m ==> exists k :: 0 <= k < |params| && params[k].0 == VStr(n)
    ensures |params| > 0 ==> m[params[|params| - 1].0.s] == params[|params| - 1].1
  {
    if |params| == 0 then map[]
    else
      var n := |params| - 1;
      var prefix := KwargsMap(params[..n]);
      assert forall k :: 0 <= k < n ==> params[..n][k] == params[k];
      prefix[params[n].0.s := params[n].1]
  }

  /** The entry at `k`, when no later entry repeats its key, gives that key its value. */
  lemma {:induction false} KwargsMapLastWinsAt(params: seq<(Value, Value)>, k: int)
    requires forall l :: 0 <= l < |params| ==> params[l].0.VStr?
    requires 0 <= k < |params| && LastOfKey(params, k)
    ensures KwargsMap(params)[params[k].0.s] == params[k].1
  {
    var n := |params| - 1;
    if k < n {
      var prefix := params[..n];
      assert forall l :: 0 <= l < n ==> prefix[l] == params[l];
      assert LastOfKey(prefix, k);
      KwargsMapLastWinsAt(prefix, k);
      assert params[n].0.s != params[k].0.s;
    }
  }

  /** Each key is bound to the value of the last entry carrying it. */
  lemma KwargsMapLastWins(params: seq<(Value, Value)>)
    requires forall k :: 0 <= k < |params| ==> params[k].0.VStr?
    ensures forall k :: 0 <= k < |params| && LastOfKey(params, k) ==>
      KwargsMap(params)[params[k].0.s] == params[k].1
  {
    forall k | 0 <= k < |params| && LastOfKey(params, k)
      ensures KwargsMap(params)[params[k].0.s] == params[k].1
    {
      KwargsMapLastWinsAt(params, k);
    }
  }

  /** The content a tool's return value becomes: `str | None` is accepted, anything else is not. */
  predicate IsContent(v: Value)
  {
    v.VStr? || v.VNone?
  }

  /**
   * `execute`: an unregistered name fails without calling anything; a tool that raises fails
   * with its message; a return value becomes the content when it is a string or None, and a
   * validation failure otherwise. It never raises.
   */
  function Execute(reg: Registry, name: string, kwargs: map<string, Value>): (r: ToolResult)
    ensures WellFormed(r)
    ensures name !in reg.toolRegistry ==> r == ToolResult(false, None, Some(NotRegisteredMessage(name)))
    ensures name in reg.toolRegistry ==>
      var outcome := reg.toolRegistry[name].run(kwargs);
      && (r.isSuccess <==> outcome.Returned? && IsContent(outcome.value))
      && (outcome.Raised? ==> r.error == Some(outcome.error))
      && (r.isSuccess ==> r.content == if outcome.value.VStr? then Some(outcome.value.s) else None)
  {
    if name !in reg.toolRegistry then ToolResult(false, None, Some(NotRegisteredMessage(name)))
    else
      match reg.toolRegistry[name].run(kwargs)
      case Raised(e) => ToolResult(false, None, Some(e))
      case Returned(v) =>
        if v.VStr? then ToolResult(true, Some(v.s), None)
        else if v.VNone? then ToolResult(true, None, None)
        else ToolResult(false, None, Some(ValidationMessage("ToolResult",
               ["content\n  Input should be a valid string"])))
  }

  /** The observation fed back to the model: the content on success, the error on failure. */
  function Observation(tr: ToolResult): (obs: Option<string>)
    ensures WellFormed(tr) && !tr.isSuccess ==> obs.Some?
  {
    if tr.isSuccess then tr.content else tr.error
  }

  /** A tool that raises always yields a failure whose observation is the tool's message. */
  lemma RaisingToolIsIsolated(reg: Registry, name: string, kwargs: map<string, Value>)
    requires name in reg.toolRegistry && reg.toolRegistry[name].run(kwargs).Raised?
    ensures !Execute(reg, name, kwargs).isSuccess
    ensures Observation(Execute(reg, name, kwargs)) == Some(reg.toolRegistry[name].run(kwargs).error)
  {
  }
}
