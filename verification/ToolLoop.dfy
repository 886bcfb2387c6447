/** The agentic tool loop with everything below it: the top-level orchestrator, the connector
    registry with its approval gate, and the nested loop of a delegated expert. The language
    model and the connectors are adversaries that answer in any way at all. */
module ToolLoop {
  import opened Options
  import opened PyText

  // ----- the adversaries -----

  /** The stripped `task` among the arguments of a call. Arguments are whatever JSON the model
      wrote: what is neither empty nor an object has no `task` to look up. */
  datatype TaskArgument = Task(text: string) | NotAnObject(typeName: string)

  /** A tool call as the client parses it. */
  datatype ToolCall = ToolCall(id: string, name: string, arguments: string, task: TaskArgument)

  /** One streamed model pass: its deltas, then either an exception or the final chunk. */
  datatype Reply = Reply(
    deltas: seq<string>, raises: Option<string>, calls: seq<ToolCall>,
    promptTokens: Option<int>, completionTokens: Option<int>)

  /** One run of a connector tool: the progress it narrates, and its result or exception. */
  datatype Behaviour = Behaviour(progress: seq<string>, raises: bool, text: string)

  // ----- the toolbox -----

  datatype ToolSpec = ToolSpec(executor: string, requiresApproval: bool, sideEffects: string)

  datatype SubAgentSpec = SubAgentSpec(name: string, namespaces: set<string>, systemPrompt: string, maxIters: nat)

  /** `Top` is the orchestrator, `Expert` the restricted router of one expert. */
  datatype Router =
    | Top(tools: map<string, ToolSpec>, agents: map<string, SubAgentSpec>)
    | Expert(tools: map<string, ToolSpec>, allowed: set<string>)
  {
    function Level(): nat {
      if Top? then 1 else 0
    }

    predicate IsClientTool(name: string) {
      Top? && name !in agents && name in tools && tools[name].executor != "server"
    }

    /** No expert may run longer than `cap` passes. */
    predicate Capped(cap: nat) {
      Top? ==> forall a :: a in agents ==> agents[a].maxIters <= cap
    }
  }

  datatype Context = Context(approved: set<string>, hasLlm: bool)

  /** `name.split(".", 1)[0]` */
  function Namespace(name: string): string {
    var i := Find(name, ".");
    if i == -1 then name else name[..i]
  }

  /** The tool may run: it is a server tool, and approved if it needs approval. */
  predicate MayRun(router: Router, ctx: Context, name: string) {
    && name in router.tools && router.tools[name].executor == "server"
    && (router.tools[name].requiresApproval ==> name in ctx.approved)
    && (router.Expert? ==> Namespace(name) in router.allowed)
  }

  // ----- transcript and events -----

  datatype Message =
    | Plain(role: string, content: string)
    | AssistantCalls(content: string, calls: seq<ToolCall>)
    | ToolAnswer(callId: string, name: string, content: string)

  datatype Event =
    | Token(text: string)
    | ClientToolCall(call: ToolCall)
    | ToolStart(id: string, name: string)
    | ToolProgress(name: string, text: string)
    | ApprovalRequired(id: string, tool: string)
    | ToolResult(name: string, summary: string)
    | Done(promptTokens: Option<int>, completionTokens: Option<int>, iterations: nat, stopReason: string)

  class MessageList {
    var items: seq<Message>
    constructor (items: seq<Message>)
      ensures this.items == items
    {
      this.items := items;
    }
  }

  class World {
    const replies: nat -> Reply
    const acts: nat -> Behaviour
    /** Model passes made so far, by anyone. */
    var passes: nat
    /** The connector tools that have actually run, in order. */
    var ran: seq<string>
    /** Experts started so far. */
    var delegations: nat
    /** Whether the shared context has a progress sink. */
    var channelOpen: bool

    constructor (replies: nat -> Reply, acts: nat -> Behaviour)
      ensures this.replies == replies && this.acts == acts
      ensures passes == 0 && ran == [] && delegations == 0 && !channelOpen
    {
      this.replies, this.acts := replies, acts;
      passes, ran, delegations, channelOpen := 0, [], 0, false;
    }
  }

  // ----- what one pass contributes -----

  /** What one server call came to: `ran` lists the connector tools it ran, and `passes` counts
      the model passes of the expert it started. */
  datatype ToolRecord = ToolRecord(
    call: ToolCall, progress: seq<string>, blocked: bool, result: string, ran: seq<string>, passes: nat)

  datatype PassRecord = PassRecord(reply: Reply, client: seq<ToolCall>, server: seq<ToolRecord>)

  function Tokens(deltas: seq<string>): seq<Event> {
    if deltas == [] then []
    else Tokens(deltas[..|deltas| - 1]) + (if deltas[|deltas| - 1] == "" then [] else [Token(deltas[|deltas| - 1])])
  }

  function ClientEvents(calls: seq<ToolCall>): seq<Event> {
    seq(|calls|, i requires 0 <= i < |calls| => ClientToolCall(calls[i]))
  }

  function Narration(name: string, progress: seq<string>): seq<Event> {
    seq(|progress|, i requires 0 <= i < |progress| => ToolProgress(name, progress[i]))
  }

  function Summary(result: string): string {
    if |result| <= 200 then result else result[..200]
  }

  function ToolEvents(t: ToolRecord): seq<Event> {
    [ToolStart(t.call.id, t.call.name)] + Narration(t.call.name, t.progress)
    + (if t.blocked then [ApprovalRequired(t.call.id, t.call.name)] else [])
    + [ToolResult(t.call.name, Summary(t.result))]
  }

  function ServerEvents(ts: seq<ToolRecord>): seq<Event> {
    if ts == [] then [] else ServerEvents(ts[..|ts| - 1]) + ToolEvents(ts[|ts| - 1])
  }

  function PassEvents(p: PassRecord): seq<Event> {
    Tokens(p.reply.deltas) + ClientEvents(p.client) + ServerEvents(p.server)
  }

  function AllEvents(ps: seq<PassRecord>): seq<Event> {
    if ps == [] then [] else AllEvents(ps[..|ps| - 1]) + PassEvents(ps[|ps| - 1])
  }

  function CallsOf(ts: seq<ToolRecord>): seq<ToolCall> {
    seq(|ts|, i requires 0 <= i < |ts| => ts[i].call)
  }

  function Answers(ts: seq<ToolRecord>): seq<Message> {
    seq(|ts|, i requires 0 <= i < |ts| => ToolAnswer(ts[i].call.id, ts[i].call.name, ts[i].result))
  }

  function PassMessages(p: PassRecord): seq<Message> {
    if p.server == [] then [] else [AssistantCalls(Concat(p.reply.deltas), CallsOf(p.server))] + Answers(p.server)
  }

  function AllMessages(ps: seq<PassRecord>): seq<Message> {
    if ps == [] then [] else AllMessages(ps[..|ps| - 1]) + PassMessages(ps[|ps| - 1])
  }

  function ServerCalls(ps: seq<PassRecord>): nat {
    if ps == [] then 0 else ServerCalls(ps[..|ps| - 1]) + |ps[|ps| - 1].server|
  }

  /** The connector tools run, and the expert passes made, for some server calls. */
  function RanBy(ts: seq<ToolRecord>): seq<string> {
    if ts == [] then [] else RanBy(ts[..|ts| - 1]) + ts[|ts| - 1].ran
  }

  function Spent(ts: seq<ToolRecord>): nat {
    if ts == [] then 0 else Spent(ts[..|ts| - 1]) + ts[|ts| - 1].passes
  }

  function RanAll(ps: seq<PassRecord>): seq<string> {
    if ps == [] then [] else RanAll(ps[..|ps| - 1]) + RanBy(ps[|ps| - 1].server)
  }

  function SpentAll(ps: seq<PassRecord>): nat {
    if ps == [] then 0 else SpentAll(ps[..|ps| - 1]) + Spent(ps[|ps| - 1].server)
  }

  /** How many of the calls started an expert. */
  function Started(router: Router, ctx: Context, ts: seq<ToolRecord>): nat {
    if ts == [] then 0
    else
      Started(router, ctx, ts[..|ts| - 1])
      + (if Delegates(router, ts[|ts| - 1].call.name) && Starts(ts[|ts| - 1].call.task, ctx) then 1 else 0)
  }

  function StartedAll(router: Router, ctx: Context, ps: seq<PassRecord>): nat {
    if ps == [] then 0 else StartedAll(router, ctx, ps[..|ps| - 1]) + Started(router, ctx, ps[|ps| - 1].server)
  }

  function Select(router: Router, calls: seq<ToolCall>, client: bool): seq<ToolCall> {
    if calls == [] then []
    else
      var c := calls[|calls| - 1];
      Select(router, calls[..|calls| - 1], client) + (if router.IsClientTool(c.name) == client then [c] else [])
  }

  /** The record splits its reply's calls, in order, and keeps their ids and names. */
  predicate Faithful(router: Router, p: PassRecord) {
    && p.reply.raises.None? && p.client == Select(router, p.reply.calls, true)
    && CallsOf(p.server) == Select(router, p.reply.calls, false)
  }

  /** The last token counts reported, if any. */
  function PromptTokens(ps: seq<PassRecord>): Option<int> {
    if ps == [] then None
    else if ps[|ps| - 1].reply.promptTokens.Some? then ps[|ps| - 1].reply.promptTokens
    else PromptTokens(ps[..|ps| - 1])
  }

  function CompletionTokens(ps: seq<PassRecord>): Option<int> {
    if ps == [] then None
    else if ps[|ps| - 1].reply.completionTokens.Some? then ps[|ps| - 1].reply.completionTokens
    else CompletionTokens(ps[..|ps| - 1])
  }

  // ----- dispatch -----

  /** What `execute_server` comes to: a text, a demand for approval, or an exception. */
  datatype Execution = Text(text: string) | NeedsApproval | Raised(error: string)

  ghost predicate AllMayRun(router: Router, ctx: Context, names: seq<string>) {
    forall i :: 0 <= i < |names| ==> MayRun(router, ctx, names[i])
  }

  function ApprovalText(name: string, spec: ToolSpec): string {
    "error: approval_required: " + name + " (" + (if spec.sideEffects == "" then "side effects" else spec.sideEffects)
    + ") was NOT executed \U{2014} it needs the user's explicit approval. "
    + "Describe the exact action and ask the user to confirm."
  }

  /** The text a connector dispatch comes to, if the tool would behave like `b`. */
  function Invoked(tools: map<string, ToolSpec>, name: string, ctx: Context, b: Behaviour): string {
    if name !in tools then "error: unknown tool: " + name
    else if tools[name].executor != "server"
      then "error: " + name + " runs on the " + tools[name].executor + " client, not the server"
    else if tools[name].requiresApproval && name !in ctx.approved then
      ApprovalText(name, tools[name])
    else if b.raises then "error: " + b.text else b.text
  }

  /** What a call that is not a delegation comes to. */
  function Direct(router: Router, name: string, ctx: Context, b: Behaviour): Execution {
    if router.Expert? && Namespace(name) !in router.allowed
      then Text("error: tool '" + name + "' is not available to this expert")
    else if router.Top? && name in router.tools && router.tools[name].requiresApproval && name !in ctx.approved
      then NeedsApproval
    else Text(Invoked(router.tools, name, ctx, b))
  }

  predicate Delegates(router: Router, name: string) {
    router.Top? && name in router.agents
  }

  /** The gate of the orchestrator. */
  predicate Blocks(router: Router, ctx: Context, name: string) {
    && router.Top? && name !in router.agents
    && name in router.tools && router.tools[name].requiresApproval && name !in ctx.approved
  }

  method Invoke(w: World, tools: map<string, ToolSpec>, name: string, ctx: Context)
    returns (text: string, progress: seq<string>)
    modifies w`ran
    ensures text == Invoked(tools, name, ctx, w.acts(old(|w.ran|)))
    ensures w.ran == old(w.ran) + (if MayRun(Expert(tools, {Namespace(name)}), ctx, name) then [name] else [])
    ensures progress == if w.channelOpen && w.ran != old(w.ran) then w.acts(old(|w.ran|)).progress else []
  {
    hide ApprovalText;
    progress := [];
    if name !in tools {
      return "error: unknown tool: " + name, [];
    }
    if tools[name].executor != "server" {
      return "error: " + name + " runs on the " + tools[name].executor + " client, not the server", [];
    }
    if tools[name].requiresApproval && name !in ctx.approved {
      return ApprovalText(name, tools[name]), [];
    }
    var b := w.acts(|w.ran|);
    w.ran := w.ran + [name];
    progress := if w.channelOpen then b.progress else [];
    text := if b.raises then "error: " + b.text else b.text;
  }

  method ExecuteServer(w: World, router: Router, call: ToolCall, ctx: Context)
    returns (r: Execution, progress: seq<string>)
    modifies w
    decreases router.Level(), 1
    ensures !Delegates(router, call.name) ==>
              && r == Direct(router, call.name, ctx, w.acts(old(|w.ran|)))
              && w.ran == old(w.ran) + (if MayRun(router, ctx, call.name) then [call.name] else [])
              && progress == (if w.ran != old(w.ran) && old(w.channelOpen) then w.acts(old(|w.ran|)).progress else [])
              && w.passes == old(w.passes) && w.delegations == old(w.delegations)
    ensures Delegates(router, call.name) ==>
              && progress == [] && old(w.ran) <= w.ran && old(w.passes) <= w.passes
              && Delegation(w, router, call, ctx, old(|w.ran|), old(w.passes), w.ran[old(|w.ran|)..],
                            w.passes - old(w.passes), w.delegations - old(w.delegations), r)
    ensures r.NeedsApproval? <==> Blocks(router, ctx, call.name)
    ensures w.channelOpen ==> old(w.channelOpen)
  {
    hide Delegation;
    progress := [];
    if router.Top? {
      if call.name in router.agents {
        r := RunAgent(w, router, call, ctx);
        return;
      }
      if call.name in router.tools && router.tools[call.name].requiresApproval && call.name !in ctx.approved {
        return NeedsApproval, [];
      }
    } else if Namespace(call.name) !in router.allowed {
      return Text("error: tool '" + call.name + "' is not available to this expert"), [];
    }
    var text;
    text, progress := Invoke(w, router.tools, call.name, ctx);
    r := Text(text);
  }

  /** What a delegation does and comes back with: the expert asks until it is done, runs what
      its own passes say, and starts no other. */
  ghost predicate Delegation(w: World, router: Router, call: ToolCall, ctx: Context, act: nat, from: nat,
                             ran: seq<string>, passes: nat, started: int, r: Execution)
    requires Delegates(router, call.name)
  {
    var spec := router.agents[call.name];
    && r == Delegated(w.replies, from, passes, call.task, ctx) && !r.NeedsApproval?
    && if Starts(call.task, ctx) then
         && started == 1 && Exhausts(w.replies, from, passes, spec.maxIters)
         && Did(w, Expert(router.tools, spec.namespaces), ctx, ran, passes, act, from)
       else started == 0 && passes == 0 && ran == []
  }

  /** `AgentRegistry.run`: the checks before an expert is started. */
  method RunAgent(w: World, router: Router, call: ToolCall, ctx: Context) returns (r: Execution)
    requires Delegates(router, call.name)
    modifies w
    decreases 1, 0
    ensures old(w.ran) <= w.ran && old(w.passes) <= w.passes && !r.NeedsApproval?
    ensures Delegation(w, router, call, ctx, old(|w.ran|), old(w.passes), w.ran[old(|w.ran|)..],
                       w.passes - old(w.passes), w.delegations - old(w.delegations), r)
    ensures w.channelOpen ==> old(w.channelOpen)
  {
    hide Exhausts, ExpertAnswer, NoGet, Did;
    if call.task.NotAnObject? { return Raised(NoGet(call.task.typeName)); }
    if call.task.text == "" { return Text("error: empty task"); }
    if !ctx.hasLlm { return Text("error: no LLM available to the expert"); }
    w.delegations := w.delegations + 1;
    r := RunSubagent(w, router.tools, router.agents[call.name], call.task.text, ctx);
  }

  /** `run_subagent`: the expert's own loop over its own toolbox and its own transcript. */
  method RunSubagent(w: World, tools: map<string, ToolSpec>, spec: SubAgentSpec, task: string, ctx: Context)
    returns (r: Execution)
    modifies w
    decreases 0, 6
    ensures w.delegations == old(w.delegations) && old(w.ran) <= w.ran && old(w.passes) <= w.passes
    ensures Did(w, Expert(tools, spec.namespaces), ctx, w.ran[old(|w.ran|)..], w.passes - old(w.passes),
                old(|w.ran|), old(w.passes))
    ensures Exhausts(w.replies, old(w.passes), w.passes - old(w.passes), spec.maxIters)
    ensures !r.NeedsApproval? && r == ExpertAnswer(w.replies, old(w.passes), w.passes - old(w.passes))
    ensures w.channelOpen ==> old(w.channelOpen)
  {
    hide Exhausts, ExpertAnswer, Synthesis, SpokenText, Ending, Prompted, History, RanAll, SpentAll, StartedAll, Did;
    var expert := Expert(tools, spec.namespaces);
    var messages := new MessageList([Plain("system", spec.systemPrompt), Plain("user", task)]);
    var events, error, records, prompts := RunToolLoop(w, expert, messages, ctx, spec.maxIters);
    ExpertSays(w, expert, ctx, records, old(|w.ran|), old(w.passes), |prompts|, error, events, spec.maxIters);
    assert w.ran[old(|w.ran|)..] == RanAll(records);
    if error.Some? { return Raised(error.value); }
    r := Text(Synthesis(SpokenText(events)));
  }

  function SpokenText(events: seq<Event>): string {
    if events == [] then ""
    else SpokenText(events[..|events| - 1]) + (if events[|events| - 1].Token? then events[|events| - 1].text else "")
  }

  function Synthesis(spoken: string): string {
    var text := Strip(spoken);
    if text == "" then "(the expert finished without a textual answer)" else text
  }

  /** The text of `n` replies in a row. */
  function Spoken(replies: nat -> Reply, from: nat, n: nat): string {
    if n == 0 then "" else Spoken(replies, from, n - 1) + Concat(replies(from + n - 1).deltas)
  }

  /** What an expert that made `n` passes comes back with: its last pass may have raised. */
  function ExpertAnswer(replies: nat -> Reply, from: nat, n: nat): Execution {
    if n > 0 && replies(from + n - 1).raises.Some? then Raised(replies(from + n - 1).raises.value)
    else Text(Synthesis(Spoken(replies, from, n)))
  }

  /** The lookup of `task` in something that is not an object. */
  function NoGet(typeName: string): string {
    "AttributeError: '" + typeName + "' object has no attribute 'get'"
  }

  /** An expert is started for a task, if there is one and a model to run it. */
  predicate Starts(task: TaskArgument, ctx: Context) {
    task.Task? && task.text != "" && ctx.hasLlm
  }

  /** What a delegation comes back with. */
  function Delegated(replies: nat -> Reply, from: nat, n: nat, task: TaskArgument, ctx: Context): Execution {
    if task.NotAnObject? then Raised(NoGet(task.typeName))
    else if task.text == "" then Text("error: empty task")
    else if !ctx.hasLlm then Text("error: no LLM available to the expert")
    else ExpertAnswer(replies, from, n)
  }

  /** An expert stops at the first reply that raises or asks for no tool, or at its cap. */
  ghost predicate Exhausts(replies: nat -> Reply, from: nat, n: nat, maxIters: nat) {
    && n <= maxIters
    && (forall k :: from <= k < from + n - 1 ==> replies(k).raises.None? && replies(k).calls != [])
    && (n < maxIters ==> n > 0 && (replies(from + n - 1).raises.Some? || replies(from + n - 1).calls == []))
  }

  function BlockedText(tool: string): string {
    "blocked: " + tool + " requires the user's explicit approval and was NOT executed. Tell the user exactly what "
    + "you want to do and ask them to confirm \U{2014} their client re-sends with the tool approved."
  }

  /** What the model reads about a call. */
  function AnswerText(r: Execution, name: string): string {
    match r
    case Text(text) => text
    case NeedsApproval => BlockedText(name)
    case Raised(error) => "error: " + error
  }

  /** `t` is what a server call comes to when `act` connector tools have run before it and
      `from` passes have been made: everything in it is fixed by the model's replies and the
      connectors' behaviours. */
  ghost predicate Genuine(w: World, router: Router, ctx: Context, t: ToolRecord, act: nat, from: nat)
    decreases router.Level(), 1
  {
    var name := t.call.name;
    && (t.blocked <==> Blocks(router, ctx, name))
    && if Delegates(router, name) then
         var spec := router.agents[name];
         && t.progress == []
         && t.result == AnswerText(Delegated(w.replies, from, t.passes, t.call.task, ctx), name)
         && if Starts(t.call.task, ctx) then
              && Exhausts(w.replies, from, t.passes, spec.maxIters)
              && Did(w, Expert(router.tools, spec.namespaces), ctx, t.ran, t.passes, act, from)
            else t.passes == 0 && t.ran == []
       else
         && t.result == AnswerText(Direct(router, name, ctx, w.acts(act)), name)
         && t.ran == (if MayRun(router, ctx, name) then [name] else [])
         && t.progress == (if t.ran == [] then [] else w.acts(act).progress)
         && t.passes == 0
  }

  /** The server calls of a pass, one after another. */
  ghost predicate Genuinely(w: World, router: Router, ctx: Context, ts: seq<ToolRecord>, act: nat, from: nat)
    decreases router.Level(), 2, |ts|
  {
    ts == [] ||
    var n := |ts| - 1;
    && Genuinely(w, router, ctx, ts[..n], act, from)
    && Genuine(w, router, ctx, ts[n], act + |RanBy(ts[..n])|, from + Spent(ts[..n]))
  }

  /** A whole run: pass after pass, each record is the reply given then, split faithfully, with
      what its server calls came to. */
  ghost predicate History(w: World, router: Router, ctx: Context, ps: seq<PassRecord>, act: nat, from: nat)
    decreases router.Level(), 3, |ps|
  {
    ps == [] ||
    var n := |ps| - 1;
    var at := from + n + SpentAll(ps[..n]);
    && History(w, router, ctx, ps[..n], act, from)
    && ps[n].reply == w.replies(at) && Faithful(router, ps[n])
    && Genuinely(w, router, ctx, ps[n].server, act + |RanAll(ps[..n])|, at + 1)
  }

  /** A run of `passes` passes, the last of which may have raised, ran the tools `ran`. */
  ghost predicate Did(w: World, router: Router, ctx: Context, ran: seq<string>, passes: nat, act: nat, from: nat)
    decreases router.Level(), 4
  {
    exists ps :: History(w, router, ctx, ps, act, from) && RanAll(ps) == ran && |ps| <= passes <= |ps| + 1
  }

  /** One server call of a pass: start, narration, result, and the answer in the transcript. */
  method ExecuteCall(w: World, router: Router, c: ToolCall, messages: MessageList, ctx: Context)
    returns (events: seq<Event>, t: ToolRecord)
    modifies w, messages
    decreases router.Level(), 2
    ensures events == ToolEvents(t) && t.call == c
    ensures |events| == |t.progress| + (if t.blocked then 3 else 2) && events[0] == ToolStart(c.id, c.name)
    ensures forall i :: 0 <= i < |t.progress| ==> events[1 + i] == ToolProgress(c.name, t.progress[i])
    ensures t.blocked ==> events[|events| - 2] == ApprovalRequired(c.id, c.name)
    ensures events[|events| - 1] == ToolResult(c.name, if |t.result| > 200 then t.result[..200] else t.result)
    ensures messages.items == old(messages.items) + [ToolAnswer(c.id, c.name, t.result)]
    ensures Genuine(w, router, ctx, t, old(|w.ran|), old(w.passes))
    ensures w.ran == old(w.ran) + t.ran && w.passes == old(w.passes) + t.passes && !w.channelOpen
    ensures w.delegations == old(w.delegations) + (if Delegates(router, c.name) && Starts(c.task, ctx) then 1 else 0)
  {
    hide Invoked, BlockedText, Delegated, Exhausts, MayRun, Did, Direct, Blocks, ToolEvents, Narration, Summary,
         Delegation, Genuine, Starts;
    var act, from := |w.ran|, w.passes;
    events := [ToolStart(c.id, c.name)];
    w.channelOpen := true;
    var r, progress := ExecuteServer(w, router, c, ctx);
    events := events + Narration(c.name, progress);
    var result;
    if r.NeedsApproval? {
      events := events + [ApprovalRequired(c.id, c.name)];
      result := BlockedText(c.name);
    } else if r.Raised? {
      result := "error: " + r.error;
    } else {
      result := r.text;
    }
    w.channelOpen := false;
    messages.items := messages.items + [ToolAnswer(c.id, c.name, result)];
    events := events + [ToolResult(c.name, Summary(result))];
    t := ToolRecord(c, progress, r.NeedsApproval?, result, w.ran[act..], w.passes - from);
    ToolEventsAre(t);
    IsGenuine(w, router, ctx, c, t, act, from, w.delegations - old(w.delegations), r);
  }

  lemma IsGenuine(w: World, router: Router, ctx: Context, c: ToolCall, t: ToolRecord, act: nat, from: nat, started: int,
                  r: Execution)
    requires t.call == c && t.result == AnswerText(r, c.name) && t.blocked == r.NeedsApproval?
    requires r.NeedsApproval? <==> Blocks(router, ctx, c.name)
    requires !Delegates(router, c.name) ==>
               && r == Direct(router, c.name, ctx, w.acts(act)) && t.passes == 0 && started == 0
               && t.ran == (if MayRun(router, ctx, c.name) then [c.name] else [])
               && t.progress == (if t.ran == [] then [] else w.acts(act).progress)
    requires Delegates(router, c.name) ==>
               t.progress == [] && Delegation(w, router, c, ctx, act, from, t.ran, t.passes, started, r)
    ensures Genuine(w, router, ctx, t, act, from)
    ensures started == if Delegates(router, c.name) && Starts(c.task, ctx) then 1 else 0
  {
    hide AnswerText, Delegated, Exhausts, MayRun, Did, Direct, Blocks;
  }

  /** A tool's events, one by one. */
  lemma ToolEventsAre(t: ToolRecord)
    ensures var events, n := ToolEvents(t), |ToolEvents(t)|;
            && n == |t.progress| + (if t.blocked then 3 else 2) && events[0] == ToolStart(t.call.id, t.call.name)
            && (forall i :: 0 <= i < |t.progress| ==> events[1 + i] == ToolProgress(t.call.name, t.progress[i]))
            && (t.blocked ==> events[n - 2] == ApprovalRequired(t.call.id, t.call.name))
            && events[n - 1] == ToolResult(t.call.name, if |t.result| > 200 then t.result[..200] else t.result)
    ensures ToolEvents(t) == [ToolStart(t.call.id, t.call.name)] + Narration(t.call.name, t.progress)
                             + (if t.blocked then [ApprovalRequired(t.call.id, t.call.name)] else [])
                             + [ToolResult(t.call.name, Summary(t.result))]
  {
  }

  /** Runs the server calls of one pass, one after another. */
  method ExecuteCalls(w: World, router: Router, calls: seq<ToolCall>, messages: MessageList, ctx: Context)
    returns (events: seq<Event>, records: seq<ToolRecord>)
    modifies w, messages
    decreases router.Level(), 3
    ensures events == ServerEvents(records) && CallsOf(records) == calls
    ensures messages.items == old(messages.items) + Answers(records)
    ensures Genuinely(w, router, ctx, records, old(|w.ran|), old(w.passes))
    ensures w.ran == old(w.ran) + RanBy(records) && w.passes == old(w.passes) + Spent(records)
    ensures w.delegations == old(w.delegations) + Started(router, ctx, records)
    ensures w.channelOpen ==> old(w.channelOpen)
  {
    hide ToolEvents, ServerEvents, CallsOf, Answers, RanBy, Spent, Started, Genuine, Genuinely;
    events, records := [], [];
    NoTools(w, router, ctx, |w.ran|, w.passes);
    for i := 0 to |calls|
      invariant |records| == i && events == ServerEvents(records) && CallsOf(records) == calls[..i]
      invariant messages.items == old(messages.items) + Answers(records)
      invariant Genuinely(w, router, ctx, records, old(|w.ran|), old(w.passes))
      invariant w.ran == old(w.ran) + RanBy(records) && w.passes == old(w.passes) + Spent(records)
      invariant w.delegations == old(w.delegations) + Started(router, ctx, records)
      invariant w.channelOpen ==> old(w.channelOpen)
    {
      var more, t := ExecuteCall(w, router, calls[i], messages, ctx);
      OneMoreTool(records, t);
      OneMoreGenuine(w, router, ctx, records, t, old(|w.ran|), old(w.passes));
      events := events + more;
      records := records + [t];
      assert calls[..i + 1] == calls[..i] + [calls[i]];
    }
    assert calls[..|calls|] == calls;
  }

  lemma NoTools(w: World, router: Router, ctx: Context, act: nat, from: nat)
    ensures ServerEvents([]) == [] && CallsOf([]) == [] && Answers([]) == []
    ensures RanBy([]) == [] && Spent([]) == 0 && Started(router, ctx, []) == 0
    ensures Genuinely(w, router, ctx, [], act, from)
  {
  }

  lemma OneMoreGenuine(w: World, router: Router, ctx: Context, ts: seq<ToolRecord>, t: ToolRecord, act: nat, from: nat)
    requires Genuinely(w, router, ctx, ts, act, from)
    requires Genuine(w, router, ctx, t, act + |RanBy(ts)|, from + Spent(ts))
    ensures Genuinely(w, router, ctx, ts + [t], act, from)
    ensures RanBy(ts + [t]) == RanBy(ts) + t.ran && Spent(ts + [t]) == Spent(ts) + t.passes
    ensures Started(router, ctx, ts + [t]) ==
            Started(router, ctx, ts) + (if Delegates(router, t.call.name) && Starts(t.call.task, ctx) then 1 else 0)
  {
    hide Genuine;
    assert (ts + [t])[..|ts|] == ts;
  }

  lemma OneMoreTool(ts: seq<ToolRecord>, t: ToolRecord)
    ensures ServerEvents(ts + [t]) == ServerEvents(ts) + ToolEvents(t)
    ensures CallsOf(ts + [t]) == CallsOf(ts) + [t.call]
    ensures Answers(ts + [t]) == Answers(ts) + [ToolAnswer(t.call.id, t.call.name, t.result)]
  {
    hide ToolEvents;
    assert (ts + [t])[..|ts|] == ts;
  }

  /** One model pass: stream the reply, hand out the client calls, run the server calls. */
  method RunPass(w: World, router: Router, messages: MessageList, ctx: Context)
    returns (events: seq<Event>, error: Option<string>, p: PassRecord)
    modifies w, messages
    decreases router.Level(), 4
    ensures p.reply == w.replies(old(w.passes)) && error == p.reply.raises
    ensures if error.Some?
            then p.server == [] && events == Tokens(p.reply.deltas) && messages.items == old(messages.items)
            else
              && Faithful(router, p) && events == PassEvents(p)
              && messages.items == old(messages.items) + PassMessages(p)
    ensures error.None? ==> SplitBetween(router, p)
    ensures Genuinely(w, router, ctx, p.server, old(|w.ran|), old(w.passes) + 1)
    ensures w.ran == old(w.ran) + RanBy(p.server) && w.passes == old(w.passes) + 1 + Spent(p.server)
    ensures w.delegations == old(w.delegations) + Started(router, ctx, p.server)
    ensures w.channelOpen ==> old(w.channelOpen)
  {
    hide Tokens, ClientEvents, ServerEvents, Answers, Concat, Select, RanBy, Spent, Started, Genuinely, SplitBetween;
    var reply := w.replies(w.passes);
    w.passes := w.passes + 1;
    var text;
    events, text := Stream(reply.deltas);
    NoTools(w, router, ctx, |w.ran|, w.passes);
    p := PassRecord(reply, [], []);
    if reply.raises.Some? {
      return events, reply.raises, p;
    }
    error := None;
    var clientCalls := Select(router, reply.calls, true);
    var serverCalls := Select(router, reply.calls, false);
    p := PassRecord(reply, clientCalls, []);
    events := events + ClientEvents(clientCalls);
    if serverCalls == [] {
      FaithfulSplits(router, p);
      return;
    }
    messages.items := messages.items + [AssistantCalls(text, serverCalls)];
    var serverEvents, ts := ExecuteCalls(w, router, serverCalls, messages, ctx);
    assert |CallsOf(ts)| == |ts|;
    p := PassRecord(reply, clientCalls, ts);
    FaithfulSplits(router, p);
    events := events + serverEvents;
  }

  // ----- who runs a call -----

  /** `part` is made of entries of `whole`, in the order they have there. */
  ghost predicate InOrderOf(part: seq<ToolCall>, whole: seq<ToolCall>) {
    exists at: seq<nat> :: PicksOut(part, whole, at)
  }

  predicate PicksOut(part: seq<ToolCall>, whole: seq<ToolCall>, at: seq<nat>) {
    && |at| == |part|
    && (forall i :: 0 <= i < |at| ==> at[i] < |whole| && part[i] == whole[at[i]])
    && forall i, j :: 0 <= i < j < |at| ==> at[i] < at[j]
  }

  /** The client gets exactly the calls of tools that run elsewhere, the server all others:
      each call goes to one side, and both sides keep the order of the reply. */
  ghost predicate SplitBetween(router: Router, p: PassRecord) {
    && (forall c :: c in p.client ==>
          && router.Top? && c.name !in router.agents
          && c.name in router.tools && router.tools[c.name].executor != "server")
    && (forall t :: t in p.server ==>
          || router.Expert? || t.call.name in router.agents
          || t.call.name !in router.tools || router.tools[t.call.name].executor == "server")
    && multiset(p.client) + multiset(CallsOf(p.server)) == multiset(p.reply.calls)
    && InOrderOf(p.client, p.reply.calls) && InOrderOf(CallsOf(p.server), p.reply.calls)
  }

  lemma {:induction false} SelectLaw(router: Router, calls: seq<ToolCall>)
    ensures forall c :: c in Select(router, calls, true) ==>
              && router.Top? && c.name !in router.agents
              && c.name in router.tools && router.tools[c.name].executor != "server"
    ensures forall c :: c in Select(router, calls, false) ==>
              || router.Expert? || c.name in router.agents
              || c.name !in router.tools || router.tools[c.name].executor == "server"
  {
    if calls != [] { SelectLaw(router, calls[..|calls| - 1]); }
  }

  lemma {:induction false} SelectAll(router: Router, calls: seq<ToolCall>)
    ensures multiset(Select(router, calls, true)) + multiset(Select(router, calls, false)) == multiset(calls)
  {
    if calls != [] {
      SelectAll(router, calls[..|calls| - 1]);
      assert calls == calls[..|calls| - 1] + [calls[|calls| - 1]];
    }
  }

  lemma {:induction false} SelectOrder(router: Router, calls: seq<ToolCall>, client: bool) returns (at: seq<nat>)
    ensures PicksOut(Select(router, calls, client), calls, at)
  {
    if calls == [] {
      at := [];
    } else {
      var n := |calls| - 1;
      at := SelectOrder(router, calls[..n], client);
      if router.IsClientTool(calls[n].name) == client { at := at + [n]; }
    }
  }

  lemma FaithfulSplits(router: Router, p: PassRecord)
    requires Faithful(router, p)
    ensures SplitBetween(router, p)
  {
    hide Select;
    SelectLaw(router, p.reply.calls);
    SelectAll(router, p.reply.calls);
    var a := SelectOrder(router, p.reply.calls, true);
    var b := SelectOrder(router, p.reply.calls, false);
    forall t | t in p.server ensures t.call in CallsOf(p.server) {
      var i :| 0 <= i < |p.server| && p.server[i] == t;
      assert CallsOf(p.server)[i] == t.call;
    }
  }

  /** The loop. `records` says what each completed pass was, and `History` that it was so;
      everything else the loop does is a function of the records: the events, the transcript,
      the prompt of every model call, the tools run, and the passes made. `error` is the
      exception of a raising stream. */
  method RunToolLoop(w: World, router: Router, messages: MessageList, ctx: Context, maxIters: nat)
    returns (events: seq<Event>, error: Option<string>, records: seq<PassRecord>, prompts: seq<seq<Message>>)
    modifies w, messages
    decreases router.Level(), 5
    ensures History(w, router, ctx, records, old(|w.ran|), old(w.passes))
    ensures messages.items == old(messages.items) + AllMessages(records)
    ensures |prompts| == |records| + (if error.Some? then 1 else 0) && |prompts| <= maxIters
    ensures Prompted(old(messages.items), prompts, records)
    ensures Ending(w, records, error, events, old(w.passes), maxIters)
    ensures w.ran == old(w.ran) + RanAll(records) && w.passes == old(w.passes) + |prompts| + SpentAll(records)
    ensures w.delegations == old(w.delegations) + StartedAll(router, ctx, records)
    ensures w.channelOpen ==> old(w.channelOpen)
  {
    hide AllEvents, AllMessages, PassEvents, PassMessages, PromptTokens, CompletionTokens, Faithful, Continued,
         Prompted, History, Genuinely, RanBy, Spent, Started, RanAll, SpentAll, StartedAll, Tokens;
    events, records, prompts := [], [], [];
    var promptTokens, completionTokens := None, None;
    NoPasses(w, router, ctx, messages.items, |w.ran|, w.passes);
    for iteration := 1 to maxIters + 1
      invariant |records| == iteration - 1 == |prompts|
      invariant History(w, router, ctx, records, old(|w.ran|), old(w.passes))
      invariant events == AllEvents(records) && messages.items == old(messages.items) + AllMessages(records)
      invariant Prompted(old(messages.items), prompts, records)
      invariant Continued(records, |records|) && Continued(records, |records| - 1)
      invariant promptTokens == PromptTokens(records) && completionTokens == CompletionTokens(records)
      invariant w.ran == old(w.ran) + RanAll(records) && w.passes == old(w.passes) + |records| + SpentAll(records)
      invariant w.delegations == old(w.delegations) + StartedAll(router, ctx, records)
      invariant w.channelOpen ==> old(w.channelOpen)
    {
      OneMorePrompt(old(messages.items), prompts, records);
      prompts := prompts + [messages.items];
      var more, p;
      more, error, p := RunPass(w, router, messages, ctx);
      events := events + more;
      if error.Some? {
        NothingServed(p.server, router, ctx);
        return;
      }
      if p.reply.promptTokens.Some? { promptTokens := p.reply.promptTokens; }
      if p.reply.completionTokens.Some? { completionTokens := p.reply.completionTokens; }
      OneMorePass(records, p);
      StillPrompted(records, p, old(messages.items), prompts);
      OneMoreInHistory(w, router, ctx, records, p, old(|w.ran|), old(w.passes));
      records := records + [p];
      if p.server == [] {
        // the model gave its answer, or only client tools were requested
        events := events + [Done(promptTokens, completionTokens, iteration, "stop")];
        return;
      }
    }
    NotLast(records);
    events := events + [Done(promptTokens, completionTokens, maxIters, "max_iters")];
    error := None;
  }

  /** How a run ends: with `Done` after a pass that asked for no server tool or at the cap, or
      in the middle of a reply that raises. */
  ghost predicate Ending(w: World, ps: seq<PassRecord>, error: Option<string>, events: seq<Event>, from: nat,
                         maxIters: nat)
  {
    && Continued(ps, |ps| - 1)
    && if error.None? then events == AllEvents(ps) + [Finish(ps)] && (LastPass(ps) || |ps| == maxIters)
       else
         var last := w.replies(from + |ps| + SpentAll(ps));
         Continued(ps, |ps|) && error == last.raises && events == AllEvents(ps) + Tokens(last.deltas)
  }

  /** The first `n` passes asked for server tools, so the loop went on. */
  ghost predicate Continued(ps: seq<PassRecord>, n: int) {
    forall k :: 0 <= k < |ps| && k < n ==> ps[k].server != []
  }

  /** Each prompt is the original transcript and what the passes before it appended. */
  ghost predicate Prompted(original: seq<Message>, prompts: seq<seq<Message>>, ps: seq<PassRecord>) {
    |prompts| <= |ps| + 1 && forall k :: 0 <= k < |prompts| ==> prompts[k] == original + AllMessages(ps[..k])
  }

  lemma NothingServed(ts: seq<ToolRecord>, router: Router, ctx: Context)
    requires ts == []
    ensures RanBy(ts) == [] && Spent(ts) == 0 && Started(router, ctx, ts) == 0
  {
  }

  lemma NotLast(ps: seq<PassRecord>)
    requires Continued(ps, |ps|)
    ensures !LastPass(ps)
  {
  }

  lemma OneMorePrompt(original: seq<Message>, prompts: seq<seq<Message>>, ps: seq<PassRecord>)
    requires Prompted(original, prompts, ps) && |prompts| == |ps|
    ensures Prompted(original, prompts + [original + AllMessages(ps)], ps)
  {
    hide AllMessages;
    assert ps[..|ps|] == ps;
  }

  lemma OneMoreInHistory(w: World, router: Router, ctx: Context, ps: seq<PassRecord>, p: PassRecord, act: nat,
                         from: nat)
    requires History(w, router, ctx, ps, act, from) && Faithful(router, p)
    requires var at := from + |ps| + SpentAll(ps);
             p.reply == w.replies(at) && Genuinely(w, router, ctx, p.server, act + |RanAll(ps)|, at + 1)
    ensures History(w, router, ctx, ps + [p], act, from)
    ensures RanAll(ps + [p]) == RanAll(ps) + RanBy(p.server) && SpentAll(ps + [p]) == SpentAll(ps) + Spent(p.server)
    ensures StartedAll(router, ctx, ps + [p]) == StartedAll(router, ctx, ps) + Started(router, ctx, p.server)
  {
    hide Genuinely, Faithful, RanBy, Spent, Started;
    assert (ps + [p])[..|ps|] == ps;
  }

  /** A run ends with `stop` when its last pass asked for no server tool. */
  predicate LastPass(ps: seq<PassRecord>) {
    ps != [] && ps[|ps| - 1].server == []
  }

  function Finish(ps: seq<PassRecord>): Event {
    Done(PromptTokens(ps), CompletionTokens(ps), |ps|, if LastPass(ps) then "stop" else "max_iters")
  }

  method Stream(deltas: seq<string>) returns (events: seq<Event>, text: string)
    ensures events == Tokens(deltas) && text == Concat(deltas)
  {
    events, text := [], "";
    for i := 0 to |deltas|
      invariant events == Tokens(deltas[..i]) && text == Concat(deltas[..i])
    {
      var d := deltas[i];
      assert deltas[..i + 1][..i] == deltas[..i] && deltas[..i + 1] == deltas[..i] + [d];
      ConcatSnoc(deltas[..i], d);
      if d != "" {
        events := events + [Token(d)];
      }
      text := text + d;
    }
    assert deltas[..|deltas|] == deltas;
  }

  lemma {:induction false} OnlyTokens(deltas: seq<string>)
    ensures forall i :: 0 <= i < |Tokens(deltas)| ==> Tokens(deltas)[i].Token?
  {
    if deltas != [] { OnlyTokens(deltas[..|deltas| - 1]); }
  }

  lemma NoPasses(w: World, router: Router, ctx: Context, original: seq<Message>, act: nat, from: nat)
    ensures AllEvents([]) == [] && AllMessages([]) == []
    ensures PromptTokens([]) == None && CompletionTokens([]) == None
    ensures RanAll([]) == [] && SpentAll([]) == 0 && StartedAll(router, ctx, []) == 0
    ensures History(w, router, ctx, [], act, from) && Continued([], 0) && Continued([], -1)
            && Prompted(original, [], [])
  {
  }

  lemma OneMorePass(ps: seq<PassRecord>, p: PassRecord)
    ensures AllEvents(ps + [p]) == AllEvents(ps) + PassEvents(p)
    ensures AllMessages(ps + [p]) == AllMessages(ps) + PassMessages(p)
    ensures p.server == [] ==> PassMessages(p) == []
    ensures PromptTokens(ps + [p]) == if p.reply.promptTokens.Some? then p.reply.promptTokens else PromptTokens(ps)
    ensures CompletionTokens(ps + [p]) ==
            if p.reply.completionTokens.Some? then p.reply.completionTokens else CompletionTokens(ps)
  {
    hide PassEvents, PassMessages;
    assert (ps + [p])[..|ps|] == ps;
    LastPassSilent(p);
  }

  lemma StillPrompted(ps: seq<PassRecord>, p: PassRecord, original: seq<Message>, prompts: seq<seq<Message>>)
    requires Prompted(original, prompts, ps) && |prompts| <= |ps| + 1 && Continued(ps, |ps|)
    ensures Prompted(original, prompts, ps + [p]) && Continued(ps + [p], |ps|)
    ensures p.server != [] ==> Continued(ps + [p], |ps| + 1)
  {
    hide AllMessages;
    assert forall k :: 0 <= k <= |ps| ==> (ps + [p])[..k] == ps[..k];
  }

  lemma LastPassSilent(p: PassRecord)
    ensures p.server == [] ==> PassMessages(p) == []
  {
  }

  // ----- what an expert says -----

  lemma {:induction false} SpokenAppend(a: seq<Event>, b: seq<Event>)
    ensures SpokenText(a + b) == SpokenText(a) + SpokenText(b)
  {
    if b == [] {
      assert a + b == a;
    } else {
      SpokenAppend(a, b[..|b| - 1]);
      assert (a + b)[..|a + b| - 1] == a + b[..|b| - 1];
    }
  }

  lemma {:induction false} Silent(events: seq<Event>)
    requires forall i :: 0 <= i < |events| ==> !events[i].Token?
    ensures SpokenText(events) == ""
  {
    if events != [] { Silent(events[..|events| - 1]); }
  }

  lemma {:induction false} SilentTools(ts: seq<ToolRecord>)
    ensures forall i :: 0 <= i < |ServerEvents(ts)| ==> !ServerEvents(ts)[i].Token?
  {
    if ts != [] { SilentTools(ts[..|ts| - 1]); }
  }

  lemma {:induction false} SpokenTokens(deltas: seq<string>)
    ensures SpokenText(Tokens(deltas)) == Concat(deltas)
  {
    if deltas != [] {
      var n := |deltas| - 1;
      SpokenTokens(deltas[..n]);
      assert deltas == deltas[..n] + [deltas[n]];
      ConcatSnoc(deltas[..n], deltas[n]);
      var last := if deltas[n] == "" then [] else [Token(deltas[n])];
      SpokenAppend(Tokens(deltas[..n]), last);
      assert SpokenText(last) == deltas[n];
    }
  }

  lemma SpokenByPass(p: PassRecord)
    ensures SpokenText(PassEvents(p)) == Concat(p.reply.deltas)
  {
    hide SpokenText, Tokens, ServerEvents, Concat;
    SpokenAppend(Tokens(p.reply.deltas) + ClientEvents(p.client), ServerEvents(p.server));
    SpokenAppend(Tokens(p.reply.deltas), ClientEvents(p.client));
    SpokenTokens(p.reply.deltas);
    Silent(ClientEvents(p.client));
    SilentTools(p.server);
    Silent(ServerEvents(p.server));
  }

  lemma {:induction false} SpokenByPasses(ps: seq<PassRecord>, replies: nat -> Reply, from: nat)
    requires forall k :: 0 <= k < |ps| ==> ps[k].reply == replies(from + k)
    ensures SpokenText(AllEvents(ps)) == Spoken(replies, from, |ps|)
    ensures SpokenText(AllEvents(ps) + [Finish(ps)]) == Spoken(replies, from, |ps|)
  {
    hide PassEvents, Concat, Finish;
    if ps != [] {
      var n := |ps| - 1;
      SpokenByPasses(ps[..n], replies, from);
      SpokenAppend(AllEvents(ps[..n]), PassEvents(ps[n]));
      SpokenByPass(ps[n]);
    }
    FinishIsSilent(ps);
    Silent([Finish(ps)]);
    SpokenAppend(AllEvents(ps), [Finish(ps)]);
  }

  lemma FinishIsSilent(ps: seq<PassRecord>)
    ensures !Finish(ps).Token?
  {
  }

  lemma {:induction false} ExpertSelects(router: Router, calls: seq<ToolCall>)
    requires router.Expert?
    ensures Select(router, calls, false) == calls
  {
    if calls != [] { ExpertSelects(router, calls[..|calls| - 1]); }
  }

  /** An expert delegates nothing, so its passes come one right after another. */
  lemma {:induction false} ExpertSpendsNothing(w: World, router: Router, ctx: Context, ts: seq<ToolRecord>, act: nat,
                                               from: nat)
    requires router.Expert? && Genuinely(w, router, ctx, ts, act, from)
    ensures Spent(ts) == 0 && Started(router, ctx, ts) == 0
  {
    hide MayRun, Direct, AnswerText;
    if ts != [] { ExpertSpendsNothing(w, router, ctx, ts[..|ts| - 1], act, from); }
  }

  lemma {:induction false} ExpertRuns(w: World, router: Router, ctx: Context, ps: seq<PassRecord>, act: nat, from: nat)
    requires router.Expert? && History(w, router, ctx, ps, act, from)
    ensures SpentAll(ps) == 0 && StartedAll(router, ctx, ps) == 0
    ensures forall k :: 0 <= k < |ps| ==>
              ps[k].reply == w.replies(from + k) && ps[k].reply.raises.None?
              && (ps[k].server == [] <==> ps[k].reply.calls == [])
  {
    hide Genuinely, Select, RanAll, RanBy;
    if ps != [] {
      var n := |ps| - 1;
      ExpertRuns(w, router, ctx, ps[..n], act, from);
      ExpertSpendsNothing(w, router, ctx, ps[n].server, act + |RanAll(ps[..n])|, from + n + SpentAll(ps[..n]) + 1);
      ExpertSelects(router, ps[n].reply.calls);
      assert |CallsOf(ps[n].server)| == |ps[n].server|;
      assert forall k :: 0 <= k < n ==> ps[k] == ps[..n][k];
    }
  }

  lemma ExpertPasses(w: World, router: Router, ctx: Context, ps: seq<PassRecord>, act: nat, from: nat, n: nat,
                     error: Option<string>, maxIters: nat)
    requires router.Expert? && History(w, router, ctx, ps, act, from)
    requires n == |ps| + (if error.Some? then 1 else 0) && n <= maxIters && Continued(ps, |ps| - 1)
    requires if error.Some? then error == w.replies(from + |ps| + SpentAll(ps)).raises && Continued(ps, |ps|)
             else LastPass(ps) || |ps| == maxIters
    ensures SpentAll(ps) == 0 && StartedAll(router, ctx, ps) == 0 && Exhausts(w.replies, from, n, maxIters)
    ensures forall k :: 0 <= k < |ps| ==> ps[k].reply == w.replies(from + k)
    ensures error.Some? ==> ExpertAnswer(w.replies, from, n) == Raised(error.value)
    ensures error.None? ==> ExpertAnswer(w.replies, from, n) == Text(Synthesis(Spoken(w.replies, from, n)))
  {
    hide Synthesis, Spoken, History, SpentAll, StartedAll;
    ExpertRuns(w, router, ctx, ps, act, from);
    forall k | from <= k < from + |ps| ensures w.replies(k).raises.None? { assert ps[k - from].reply == w.replies(k); }
    forall k | from <= k < from + n - 1 ensures w.replies(k).calls != [] { assert ps[k - from].server != []; }
  }

  /** What an expert's run comes to. */
  lemma ExpertSays(w: World, router: Router, ctx: Context, ps: seq<PassRecord>, act: nat, from: nat, n: nat,
                   error: Option<string>, events: seq<Event>, maxIters: nat)
    requires router.Expert? && History(w, router, ctx, ps, act, from) && Ending(w, ps, error, events, from, maxIters)
    requires n == |ps| + (if error.Some? then 1 else 0) && n <= maxIters
    ensures SpentAll(ps) == 0 && StartedAll(router, ctx, ps) == 0 && Exhausts(w.replies, from, n, maxIters)
    ensures Did(w, router, ctx, RanAll(ps), n, act, from)
    ensures ExpertAnswer(w.replies, from, n) ==
            if error.Some? then Raised(error.value) else Text(Synthesis(SpokenText(events)))
  {
    hide Exhausts, ExpertAnswer, Synthesis, Spoken, SpokenText, AllEvents, Finish, Tokens, Continued, LastPass, History,
         SpentAll, StartedAll, RanAll;
    ExpertPasses(w, router, ctx, ps, act, from, n, error, maxIters);
    if error.None? { SpokenByPasses(ps, w.replies, from); }
  }

  // ----- what may run, and how many passes -----

  lemma AllMayRunAppend(router: Router, ctx: Context, a: seq<string>, b: seq<string>)
    requires AllMayRun(router, ctx, a) && AllMayRun(router, ctx, b)
    ensures AllMayRun(router, ctx, a + b)
  {
    hide MayRun;
  }

  lemma {:induction false} CallsAllowed(w: World, router: Router, ctx: Context, ts: seq<ToolRecord>, act: nat,
                                        from: nat)
    requires Genuinely(w, router, ctx, ts, act, from)
    ensures AllMayRun(router, ctx, RanBy(ts))
    decreases router.Level(), 1, |ts|
  {
    hide AllMayRun, MayRun, Genuine;
    if ts == [] {
      NothingMayRun(router, ctx);
    } else {
      var n := |ts| - 1;
      CallsAllowed(w, router, ctx, ts[..n], act, from);
      CallAllowed(w, router, ctx, ts[n], act + |RanBy(ts[..n])|, from + Spent(ts[..n]));
      AllMayRunAppend(router, ctx, RanBy(ts[..n]), ts[n].ran);
    }
  }

  lemma CallAllowed(w: World, router: Router, ctx: Context, t: ToolRecord, act: nat, from: nat)
    requires Genuine(w, router, ctx, t, act, from)
    ensures AllMayRun(router, ctx, t.ran)
    decreases router.Level(), 0
  {
    hide Direct, AnswerText, Delegated, Exhausts, Blocks, History, RanAll;
    if Delegates(router, t.call.name) && Starts(t.call.task, ctx) {
      var expert := Expert(router.tools, router.agents[t.call.name].namespaces);
      var ps :| History(w, expert, ctx, ps, act, from) && RanAll(ps) == t.ran;
      RunAllowed(w, expert, ctx, ps, act, from);
    }
  }

  /** Every connector tool that ran was allowed to. */
  lemma {:induction false} RunAllowed(w: World, router: Router, ctx: Context, ps: seq<PassRecord>, act: nat, from: nat)
    requires History(w, router, ctx, ps, act, from)
    ensures AllMayRun(router, ctx, RanAll(ps))
    decreases router.Level(), 2, |ps|
  {
    hide Genuinely, MayRun, AllMayRun, Faithful, RanBy;
    if ps == [] {
      NothingMayRun(router, ctx);
    } else {
      var n := |ps| - 1;
      RunAllowed(w, router, ctx, ps[..n], act, from);
      CallsAllowed(w, router, ctx, ps[n].server, act + |RanAll(ps[..n])|, from + n + SpentAll(ps[..n]) + 1);
      AllMayRunAppend(router, ctx, RanAll(ps[..n]), RanBy(ps[n].server));
    }
  }

  lemma NothingMayRun(router: Router, ctx: Context)
    ensures AllMayRun(router, ctx, [])
  {
  }

  lemma {:induction false} CallsBounded(w: World, router: Router, ctx: Context, ts: seq<ToolRecord>, act: nat,
                                        from: nat, cap: nat)
    requires Genuinely(w, router, ctx, ts, act, from) && router.Capped(cap)
    ensures Spent(ts) <= cap * |ts| && Started(router, ctx, ts) <= |ts|
  {
    hide Direct, AnswerText, Delegated, Blocks, MayRun, Did;
    if ts != [] {
      var n := |ts| - 1;
      CallsBounded(w, router, ctx, ts[..n], act, from, cap);
      Distribute(cap, n, 1);
      assert ts[n].passes <= cap;
    }
  }

  lemma Distribute(cap: nat, m: nat, n: nat)
    ensures cap * (m + n) == cap * m + cap * n
  {
  }

  /** Experts are started at most once per server call, and each stays within the cap. */
  lemma {:induction false} RunBounded(w: World, router: Router, ctx: Context, ps: seq<PassRecord>, act: nat, from: nat,
                                      cap: nat)
    requires History(w, router, ctx, ps, act, from) && router.Capped(cap)
    ensures SpentAll(ps) <= cap * ServerCalls(ps) && StartedAll(router, ctx, ps) <= ServerCalls(ps)
  {
    hide Genuinely, Faithful, Started, Spent;
    if ps != [] {
      var n := |ps| - 1;
      RunBounded(w, router, ctx, ps[..n], act, from, cap);
      CallsBounded(w, router, ctx, ps[n].server, act + |RanAll(ps[..n])|, from + n + SpentAll(ps[..n]) + 1, cap);
      Distribute(cap, ServerCalls(ps[..n]), |ps[n].server|);
    }
  }

  // ----- the grammars -----

  /** Every assistant message that requests tools is followed at once by exactly one answer
      per call, with the same ids and names, in the same order; nothing else is appended. */
  predicate WellFormed(ms: seq<Message>)
    decreases |ms|
  {
    ms == [] ||
    (ms[0].AssistantCalls? && ms[0].calls != [] && |ms| > |ms[0].calls|
     && Answered(ms[0].calls, ms[1..1 + |ms[0].calls|])
     && WellFormed(ms[1 + |ms[0].calls|..]))
  }

  predicate Answered(calls: seq<ToolCall>, answers: seq<Message>)
    requires |calls| == |answers|
  {
    forall i :: 0 <= i < |calls| ==>
      answers[i].ToolAnswer? && answers[i].callId == calls[i].id && answers[i].name == calls[i].name
  }

  lemma {:induction false} WellFormedAppend(a: seq<Message>, b: seq<Message>)
    requires WellFormed(a) && WellFormed(b)
    ensures WellFormed(a + b)
    decreases |a|
  {
    hide Answered;
    if a == [] {
      assert a + b == b;
    } else {
      var n := 1 + |a[0].calls|;
      WellFormedAppend(a[n..], b);
      assert (a + b)[0] == a[0] && (a + b)[n..] == a[n..] + b && (a + b)[1..n] == a[1..n];
    }
  }

  lemma {:induction false} TranscriptGrammar(ps: seq<PassRecord>)
    ensures WellFormed(AllMessages(ps))
  {
    if ps != [] {
      var n := |ps| - 1;
      TranscriptGrammar(ps[..n]);
      PassWellFormed(ps[n]);
      WellFormedAppend(AllMessages(ps[..n]), PassMessages(ps[n]));
    }
  }

  lemma PassWellFormed(p: PassRecord)
    ensures WellFormed(PassMessages(p))
  {
    var ms := PassMessages(p);
    if ms != [] {
      assert ms[1 + |ms[0].calls|..] == [] && ms[1..1 + |ms[0].calls|] == Answers(p.server);
    }
  }

  /** The states of a consumer that checks the order of events. */
  datatype Phase =
    | Between | Running(id: string, name: string) | Blocked(name: string) | Finished(iterations: nat) | Wrong

  function Next(phase: Phase, e: Event): Phase {
    match phase
    case Between =>
      if e.Token? || e.ClientToolCall? then Between
      else if e.ToolStart? then Running(e.id, e.name)
      else if e.Done? then Finished(e.iterations) else Wrong
    case Running(id, name) =>
      if e.ToolProgress? && e.name == name then phase
      else if e.ApprovalRequired? && e.id == id && e.tool == name then Blocked(name)
      else if e.ToolResult? && e.name == name then Between else Wrong
    case Blocked(name) => if e.ToolResult? && e.name == name then Between else Wrong
    case _ => Wrong
  }

  function Follow(phase: Phase, events: seq<Event>): Phase {
    if events == [] then phase else Next(Follow(phase, events[..|events| - 1]), events[|events| - 1])
  }

  lemma {:induction false} FollowAppend(phase: Phase, a: seq<Event>, b: seq<Event>)
    ensures Follow(phase, a + b) == Follow(Follow(phase, a), b)
  {
    hide Next;
    if b == [] {
      assert a + b == a;
    } else {
      var n := |b| - 1;
      FollowAppend(phase, a, b[..n]);
      assert (a + b)[..|a + b| - 1] == a + b[..n];
    }
  }

  lemma FollowOne(phase: Phase, e: Event)
    ensures Follow(phase, [e]) == Next(phase, e)
  {
    assert [e][..0] == [];
  }

  /** Events that all leave a phase where it is. */
  lemma {:induction false} FollowStay(phase: Phase, events: seq<Event>)
    requires forall i :: 0 <= i < |events| ==> Next(phase, events[i]) == phase
    ensures Follow(phase, events) == phase
  {
    hide Next;
    if events != [] { FollowStay(phase, events[..|events| - 1]); }
  }

  lemma ToolGrammar(t: ToolRecord)
    ensures Follow(Between, ToolEvents(t)) == Between
  {
    hide Follow;
    var running := Running(t.call.id, t.call.name);
    var start, narration := [ToolStart(t.call.id, t.call.name)], Narration(t.call.name, t.progress);
    var blocked := if t.blocked then [ApprovalRequired(t.call.id, t.call.name)] else [];
    var last := ToolResult(t.call.name, Summary(t.result));
    FollowOne(Between, start[0]);
    FollowStay(running, narration);
    FollowAppend(Between, start, narration);
    FollowAppend(Between, start + narration, blocked);
    FollowStay(running, []);
    FollowOne(running, ApprovalRequired(t.call.id, t.call.name));
    var p := Follow(Between, start + narration + blocked);
    FollowAppend(Between, start + narration + blocked, [last]);
    FollowOne(p, last);
  }

  lemma {:induction false} ServerGrammar(ts: seq<ToolRecord>)
    ensures Follow(Between, ServerEvents(ts)) == Between
  {
    hide Next, Follow, ToolEvents;
    if ts == [] {
      FollowStay(Between, []);
    } else {
      var n := |ts| - 1;
      ServerGrammar(ts[..n]);
      ToolGrammar(ts[n]);
      FollowAppend(Between, ServerEvents(ts[..n]), ToolEvents(ts[n]));
    }
  }

  lemma {:induction false} EventGrammar(ps: seq<PassRecord>)
    ensures Follow(Between, AllEvents(ps)) == Between
  {
    hide Follow, Tokens, ServerEvents;
    if ps == [] {
      FollowStay(Between, []);
    } else {
      var p := ps[|ps| - 1];
      EventGrammar(ps[..|ps| - 1]);
      OnlyTokens(p.reply.deltas);
      FollowStay(Between, Tokens(p.reply.deltas));
      FollowStay(Between, ClientEvents(p.client));
      ServerGrammar(p.server);
      FollowAppend(Between, Tokens(p.reply.deltas), ClientEvents(p.client));
      FollowAppend(Between, Tokens(p.reply.deltas) + ClientEvents(p.client), ServerEvents(p.server));
      FollowAppend(Between, AllEvents(ps[..|ps| - 1]), PassEvents(p));
    }
  }

  // ----- what a server call of the orchestrator comes to -----

  /** The outcome of a server call, case by case. */
  ghost predicate Outcome(w: World, tools: map<string, ToolSpec>, agents: map<string, SubAgentSpec>, ctx: Context,
                          t: ToolRecord) {
    var name, task := t.call.name, t.call.task;
    && (t.blocked <==>
        name !in agents && name in tools && tools[name].requiresApproval && name !in ctx.approved)
    && (t.blocked ==> t.ran == [] && "blocked: " + name <= t.result)
    && (name !in agents ==> t.passes == 0)
    && (name !in agents && name !in tools ==> t.ran == [] && t.result == "error: unknown tool: " + name)
    && (name !in agents && name in tools && tools[name].executor == "server" && !t.blocked ==>
          && t.ran == [name]
          && exists act: nat ::
               && t.progress == w.acts(act).progress
               && t.result == (if w.acts(act).raises then "error: " + w.acts(act).text else w.acts(act).text))
    && (name in agents && task.NotAnObject? ==> t.ran == [] && t.passes == 0 && "error: AttributeError: " <= t.result)
    && (name in agents && task == Task("") ==> t.ran == [] && t.passes == 0 && t.result == "error: empty task")
    && (name in agents && task.Task? && task.text != "" && !ctx.hasLlm ==>
          t.ran == [] && t.passes == 0 && t.result == "error: no LLM available to the expert")
    && (name in agents ==>
          && t.passes <= agents[name].maxIters
          && forall i :: 0 <= i < |t.ran| ==> InSome(agents[name].namespaces, t.ran[i]))
  }

  ghost predicate InSome(namespaces: set<string>, name: string) {
    exists ns :: ns in namespaces && InNamespace(name, ns)
  }

  /** The name is the namespace, or goes on with a dot behind it. */
  predicate InNamespace(name: string, ns: string) {
    '.' !in ns && (name == ns || ns + "." <= name)
  }

  /** A name is in exactly one namespace. */
  lemma NamespaceIs(name: string, ns: string)
    ensures Namespace(name) == ns <==> InNamespace(name, ns)
  {
    hide Find;
    FindLaw(name, ".");
    var i := Find(name, ".");
    var own := if i == -1 then name else name[..i];
    forall k | 0 <= k < |own| ensures own[k] != '.' {
      assert own[k] == name[k] && name[k..k + 1] == [name[k]] && !At(name, k, ".");
    }
    assert InNamespace(name, own);
    if InNamespace(name, ns) { SameNamespace(name, ns, own); }
  }

  lemma SameNamespace(name: string, a: string, b: string)
    requires InNamespace(name, a) && InNamespace(name, b)
    ensures a == b
  {
    NamespaceShape(name, a);
    NamespaceShape(name, b);
    assert |a| == |b|;
    assert a == name[..|a|] == b;
  }

  lemma NamespaceShape(name: string, a: string)
    requires InNamespace(name, a)
    ensures a <= name && forall k :: 0 <= k < |a| ==> name[k] != '.'
    ensures |a| == |name| || name[|a|] == '.'
  {
    if name != a { assert (a + ".")[|a|] == '.'; }
    assert forall k :: 0 <= k < |a| ==> a[k] in a;
  }

  lemma CallOutcome(w: World, tools: map<string, ToolSpec>, agents: map<string, SubAgentSpec>, ctx: Context,
                    t: ToolRecord, act: nat, from: nat)
    requires Genuine(w, Top(tools, agents), ctx, t, act, from)
    ensures Outcome(w, tools, agents, ctx, t)
  {
    hide Did, ExpertAnswer, Namespace, InSome, NoGet, BlockedText, ApprovalText;
    var name := t.call.name;
    if name in agents {
      if Starts(t.call.task, ctx) {
        ExpertTools(w, tools, agents[name], ctx, t.ran, t.passes, act, from);
      }
      NoGetText(t.call.task);
    } else {
      BlockedTextIs(name);
    }
  }

  lemma NoGetText(task: TaskArgument)
    ensures task.NotAnObject? ==> "error: AttributeError: " <= "error: " + NoGet(task.typeName)
  {
    if task.NotAnObject? {
      var tail := "'" + task.typeName + "' object has no attribute 'get'";
      assert "error: " + NoGet(task.typeName) == "error: AttributeError: " + tail;
    }
  }

  lemma BlockedTextIs(name: string)
    ensures "blocked: " + name <= BlockedText(name)
  {
  }

  lemma ExpertTools(w: World, tools: map<string, ToolSpec>, spec: SubAgentSpec, ctx: Context, ran: seq<string>,
                    passes: nat, act: nat, from: nat)
    requires Did(w, Expert(tools, spec.namespaces), ctx, ran, passes, act, from)
    ensures forall i :: 0 <= i < |ran| ==> InSome(spec.namespaces, ran[i])
  {
    hide History, RanAll, Namespace, InNamespace;
    var expert := Expert(tools, spec.namespaces);
    var ps :| History(w, expert, ctx, ps, act, from) && RanAll(ps) == ran;
    RunAllowed(w, expert, ctx, ps, act, from);
    forall i | 0 <= i < |ran| ensures InSome(spec.namespaces, ran[i]) {
      assert MayRun(expert, ctx, ran[i]);
      NamespaceIs(ran[i], Namespace(ran[i]));
    }
  }

  lemma {:induction false} CallOutcomes(w: World, tools: map<string, ToolSpec>, agents: map<string, SubAgentSpec>,
                                        ctx: Context, ts: seq<ToolRecord>, act: nat, from: nat)
    requires Genuinely(w, Top(tools, agents), ctx, ts, act, from)
    ensures forall t :: t in ts ==> Outcome(w, tools, agents, ctx, t)
  {
    hide Genuine, Outcome;
    if ts != [] {
      var n := |ts| - 1;
      CallOutcomes(w, tools, agents, ctx, ts[..n], act, from);
      CallOutcome(w, tools, agents, ctx, ts[n], act + |RanBy(ts[..n])|, from + Spent(ts[..n]));
      assert ts == ts[..n] + [ts[n]];
    }
  }

  /** In every pass of a run, the calls are split as they should be, and each server call comes
      to what it should. */
  lemma {:induction false} RunOutcomes(w: World, tools: map<string, ToolSpec>, agents: map<string, SubAgentSpec>,
                                       ctx: Context, ps: seq<PassRecord>, act: nat, from: nat)
    requires History(w, Top(tools, agents), ctx, ps, act, from)
    ensures forall k :: 0 <= k < |ps| ==> SplitBetween(Top(tools, agents), ps[k])
    ensures forall k, t :: 0 <= k < |ps| && t in ps[k].server ==> Outcome(w, tools, agents, ctx, t)
  {
    hide Genuinely, Outcome, SplitBetween, Faithful, RanAll;
    if ps != [] {
      var n := |ps| - 1;
      RunOutcomes(w, tools, agents, ctx, ps[..n], act, from);
      FaithfulSplits(Top(tools, agents), ps[n]);
      CallOutcomes(w, tools, agents, ctx, ps[n].server, act + |RanAll(ps[..n])|, from + n + SpentAll(ps[..n]) + 1);
      assert forall k :: 0 <= k < n ==> ps[k] == ps[..n][k];
    }
  }

  /** The token counts that `Done` reports are the last ones any reply reported. */
  lemma {:induction false} LastReported(ps: seq<PassRecord>)
    ensures match PromptTokens(ps)
            case None => forall k :: 0 <= k < |ps| ==> ps[k].reply.promptTokens.None?
            case Some(n) => exists k :: 0 <= k < |ps| && ps[k].reply.promptTokens == Some(n)
                                        && forall j :: k < j < |ps| ==> ps[j].reply.promptTokens.None?
    ensures match CompletionTokens(ps)
            case None => forall k :: 0 <= k < |ps| ==> ps[k].reply.completionTokens.None?
            case Some(n) => exists k :: 0 <= k < |ps| && ps[k].reply.completionTokens == Some(n)
                                        && forall j :: k < j < |ps| ==> ps[j].reply.completionTokens.None?
  {
    if ps != [] {
      var n := |ps| - 1;
      LastReported(ps[..n]);
      assert forall k :: 0 <= k < n ==> ps[k] == ps[..n][k];
    }
  }

  // ----- a whole request -----

  /** A whole nested run, from the request to its last event, whatever the model and the
      connectors do at either level. `History` ties the records of the passes to the replies
      given and the behaviours met, and everything else is a function of the records; then:
      - no connector tool runs unless it is a registered server tool, and one that needs
        approval only if the request approved it;
      - at every model call the original messages are a prefix of the transcript, and what
        follows them is well formed;
      - the events obey the grammar, and a run whose stream does not raise ends in exactly
        one `Done`, whose count is the number of passes made;
      - experts start at most once per top-level server call and never delegate onward, and
        all model passes together are bounded by the top-level passes plus the expert cap
        for each top-level server call. */
  method Request(w: World, tools: map<string, ToolSpec>, agents: map<string, SubAgentSpec>, ctx: Context,
                 messages: MessageList, maxIters: nat, cap: nat)
    returns (events: seq<Event>, error: Option<string>, records: seq<PassRecord>, prompts: seq<seq<Message>>)
    requires forall a :: a in agents ==> agents[a].maxIters <= cap
    modifies w, messages
    ensures History(w, Top(tools, agents), ctx, records, old(|w.ran|), old(w.passes))
    ensures |prompts| == |records| + (if error.Some? then 1 else 0) && |prompts| <= maxIters
    ensures messages.items == old(messages.items) + AllMessages(records)
    ensures Prompted(old(messages.items), prompts, records)
    ensures Ending(w, records, error, events, old(w.passes), maxIters)
    ensures w.ran == old(w.ran) + RanAll(records)
    ensures w.passes == old(w.passes) + |prompts| + SpentAll(records)
    ensures w.delegations == old(w.delegations) + StartedAll(Top(tools, agents), ctx, records)
    ensures forall k, c :: 0 <= k < |records| && c in records[k].client ==>
              c.name !in agents && c.name in tools && tools[c.name].executor != "server"
    ensures forall k, t :: 0 <= k < |records| && t in records[k].server ==>
              t.call.name in agents || t.call.name !in tools || tools[t.call.name].executor == "server"
    ensures forall k :: 0 <= k < |records| ==>
              && multiset(records[k].client) + multiset(CallsOf(records[k].server)) == multiset(records[k].reply.calls)
              && InOrderOf(records[k].client, records[k].reply.calls)
              && InOrderOf(CallsOf(records[k].server), records[k].reply.calls)
    ensures forall k, t :: 0 <= k < |records| && t in records[k].server ==> Outcome(w, tools, agents, ctx, t)
    ensures forall i :: old(|w.ran|) <= i < |w.ran| ==>
              && w.ran[i] in tools && tools[w.ran[i]].executor == "server"
              && (tools[w.ran[i]].requiresApproval ==> w.ran[i] in ctx.approved)
    ensures forall k :: 0 <= k < |prompts| ==>
              old(messages.items) <= prompts[k] && WellFormed(prompts[k][|old(messages.items)|..])
    ensures old(messages.items) <= messages.items && WellFormed(messages.items[|old(messages.items)|..])
    ensures error.None? ==> Follow(Between, events) == Finished(|prompts|)
    ensures error.Some? ==> Follow(Between, events) == Between
    ensures w.delegations <= old(w.delegations) + ServerCalls(records)
    ensures w.passes <= old(w.passes) + |prompts| + cap * ServerCalls(records)
  {
    hide AllEvents, AllMessages, ServerCalls, Follow, WellFormed, History, RanAll, SpentAll, StartedAll, Continued,
         Tokens, Outcome, InOrderOf, CallsOf;
    var router := Top(tools, agents);
    events, error, records, prompts := RunToolLoop(w, router, messages, ctx, maxIters);
    RunAllowed(w, router, ctx, records, old(|w.ran|), old(w.passes));
    RunBounded(w, router, ctx, records, old(|w.ran|), old(w.passes), cap);
    RunOutcomes(w, tools, agents, ctx, records, old(|w.ran|), old(w.passes));
    PromptGrammar(old(messages.items), prompts, records);
    EndingGrammar(w, records, error, events, old(w.passes), maxIters);
    TranscriptGrammar(records);
    assert messages.items[|old(messages.items)|..] == AllMessages(records);
  }

  lemma PromptGrammar(original: seq<Message>, prompts: seq<seq<Message>>, ps: seq<PassRecord>)
    requires Prompted(original, prompts, ps)
    ensures forall k :: 0 <= k < |prompts| ==> original <= prompts[k] && WellFormed(prompts[k][|original|..])
  {
    hide AllMessages, WellFormed;
    forall k | 0 <= k < |prompts| ensures original <= prompts[k] && WellFormed(prompts[k][|original|..]) {
      TranscriptGrammar(ps[..k]);
      assert prompts[k][|original|..] == AllMessages(ps[..k]);
    }
  }

  lemma EndingGrammar(w: World, ps: seq<PassRecord>, error: Option<string>, events: seq<Event>, from: nat,
                      maxIters: nat)
    requires Ending(w, ps, error, events, from, maxIters)
    ensures Follow(Between, events) == if error.None? then Finished(|ps|) else Between
  {
    hide AllEvents, Follow, Continued, Tokens, PromptTokens, CompletionTokens, SpentAll;
    EventGrammar(ps);
    if error.None? {
      FollowAppend(Between, AllEvents(ps), [Finish(ps)]);
      FollowOne(Between, Finish(ps));
    } else {
      var deltas := w.replies(from + |ps| + SpentAll(ps)).deltas;
      OnlyTokens(deltas);
      FollowAppend(Between, AllEvents(ps), Tokens(deltas));
      FollowStay(Between, Tokens(deltas));
    }
  }
}
