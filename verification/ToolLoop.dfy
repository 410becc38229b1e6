/** The bounded, gated and audited tool loop of an agent. The model and the tools answer as they like. */
module ToolLoop {
  import opened Domain
  import Policy

  datatype Invocation = Invocation(id: string, name: string, path: string)

  /** One answer of the provider; `Raises` is an exception from the call itself. */
  datatype ModelTurn = Answers(toolCalls: seq<Invocation>) | Raises

  /** Which of the platform's own writes around a call raises, if any. */
  datatype Fault = NoFault | InCallEvent | InRecord | InResultEvent | InChange | InChangeEvent

  /** What running a tool produced; an exception inside a tool is a result that is not ok. */
  datatype ToolRun = ToolRun(ok: bool, path: string, fault: Fault)

  datatype Message =
    | UserText
    | Assistant(calls: seq<Invocation>)
    | ToolResults(blocks: seq<(string, bool)>)     // tool_use_id, is_error

  datatype AuditRecord = AuditRecord(call: Invocation, ok: bool)

  datatype FileChange = FileChange(call: Invocation, path: string)

  /** Allowlist of this agent, tool registry and policy engine. */
  datatype Gates = Gates(allowed: string -> bool, known: string -> bool,
      mutating: string -> bool, engine: Policy.Engine)

  datatype Gate = NotAllowed | UnknownTool | BlockedByPolicy | Open

  predicate PathBlocked(engine: Policy.Engine, path: string) {
    exists i :: 0 <= i < |engine.rules| && engine.rules[i].action == Policy.Block && engine.hits(engine.rules[i], path)
  }

  function GateOf(g: Gates, call: Invocation): Gate {
    if !g.allowed(call.name) then NotAllowed
    else if !g.known(call.name) then UnknownTool
    else if g.mutating(call.name) && PathBlocked(g.engine, call.path) then BlockedByPolicy
    else Open
  }

  /** One attempted call and, if it came to that, what the tool did. */
  datatype Attempt = Attempt(call: Invocation, run: ToolRun)

  predicate Succeeded(g: Gates, a: Attempt) {
    GateOf(g, a.call) == Open && a.run.ok
  }

  predicate ChangesFile(g: Gates, a: Attempt) {
    Succeeded(g, a) && g.mutating(a.call.name) && a.run.path != ""
  }

  /** How an attempt leaves the loop: it goes on, the policy stops the task, or a write raises. */
  datatype Stop = Goes | Blocked | Raised

  function StopOf(g: Gates, a: Attempt): Stop {
    var gate := GateOf(g, a.call);
    if a.run.fault == InCallEvent && (gate == BlockedByPolicy || gate == Open) then Raised
    else if a.run.fault == InRecord || a.run.fault == InResultEvent then Raised
    else if (a.run.fault == InChange || a.run.fault == InChangeEvent) && ChangesFile(g, a) then Raised
    else if gate == BlockedByPolicy then Blocked
    else Goes
  }

  /** The audit record is written before anything raises. */
  predicate Audited(g: Gates, a: Attempt) {
    StopOf(g, a) != Raised || a.run.fault in {InResultEvent, InChange, InChangeEvent}
  }

  function Records(g: Gates, log: seq<Attempt>): seq<AuditRecord> {
    if log == [] then []
    else
      var a := log[|log| - 1];
      Records(g, log[..|log| - 1]) + if Audited(g, a) then [AuditRecord(a.call, Succeeded(g, a))] else []
  }

  /** Only a successful permitted write leaves a file change behind, once it is audited. */
  function Changes(g: Gates, log: seq<Attempt>): seq<FileChange> {
    if log == [] then []
    else
      var a := log[|log| - 1];
      Changes(g, log[..|log| - 1]) +
      if ChangesFile(g, a) && (StopOf(g, a) == Goes || a.run.fault == InChangeEvent)
      then [FileChange(a.call, a.run.path)] else []
  }

  // The same in terms of the gates: what is forbidden, what may run, and which writes are reached

  /** An available tool that would write to a path some blocking rule matches. */
  predicate Forbidden(g: Gates, call: Invocation) {
    && g.allowed(call.name) && g.known(call.name) && g.mutating(call.name)
    && exists i :: 0 <= i < |g.engine.rules| && g.engine.rules[i].action == Policy.Block &&
         g.engine.hits(g.engine.rules[i], call.path)
  }

  predicate MayRun(g: Gates, call: Invocation) {
    g.allowed(call.name) && g.known(call.name) && !Forbidden(g, call)
  }

  /** The tool wrote a file, so a file change is due. */
  predicate Writes(g: Gates, call: Invocation, run: ToolRun) {
    MayRun(g, call) && g.mutating(call.name) && run.ok && run.path != ""
  }

  /** A forbidden call of which every write on the way went through: the policy stops the task. */
  predicate EndsByPolicy(g: Gates, a: Attempt) {
    Forbidden(g, a.call) && a.run.fault != InCallEvent && a.run.fault != InRecord && a.run.fault != InResultEvent
  }

  /** A write that is reached raises: the event of a call with a tool, a record, its event, a due file change. */
  predicate EndsByWrite(g: Gates, a: Attempt) {
    || a.run.fault == InRecord || a.run.fault == InResultEvent
    || (a.run.fault == InCallEvent && (Forbidden(g, a.call) || MayRun(g, a.call)))
    || ((a.run.fault == InChange || a.run.fault == InChangeEvent) && Writes(g, a.call, a.run))
  }

  lemma StopOfIs(g: Gates, a: Attempt)
    ensures StopOf(g, a) == Blocked <==> EndsByPolicy(g, a)
    ensures StopOf(g, a) == Raised <==> EndsByWrite(g, a)
    ensures Succeeded(g, a) <==> MayRun(g, a.call) && a.run.ok
    ensures GateOf(g, a.call) == Open <==> MayRun(g, a.call)
  {
  }

  /** What the model answers in each turn, and what its calls meet. */
  datatype Env = Env(g: Gates, model: nat -> ModelTurn, tools: (nat, nat) -> ToolRun)

  function Attempts(env: Env, turn: nat, calls: seq<Invocation>): seq<Attempt> {
    seq(|calls|, k requires 0 <= k < |calls| => Attempt(calls[k], env.tools(turn, k)))
  }

  /** All attempts that the tool turns of a conversation ask for. */
  function Tried(env: Env, messages: seq<Message>): seq<Attempt> {
    if messages == [] then []
    else
      var n := |messages| - 1;
      Tried(env, messages[..n]) + if messages[n].Assistant? then Attempts(env, (n + 1) / 2, messages[n].calls) else []
  }

  predicate FromUser(m: Message) {
    !m.Assistant?
  }

  /** `results` answers the calls of this turn: the same ids in the same order, an error for each that failed. */
  predicate Replies(env: Env, turn: nat, calls: seq<Invocation>, results: Message) {
    && results.ToolResults? && |results.blocks| == |calls|
    && forall k :: 0 <= k < |calls| ==>
         && results.blocks[k].0 == calls[k].id
         && (results.blocks[k].1 <==> !(MayRun(env.g, calls[k]) && env.tools(turn, k).ok))
  }

  /** User and assistant alternate, starting with the user; turn by turn the assistant asks for what the model
      answers, and every answered tool turn is answered in full. */
  ghost predicate Conversation(env: Env, messages: seq<Message>) {
    && messages != [] && messages[0] == UserText
    && (forall i :: 0 <= i < |messages| ==> (FromUser(messages[i]) <==> i % 2 == 0))
    && (forall i :: 0 <= i < |messages| && messages[i].Assistant? ==>
          messages[i].calls != [] && env.model((i + 1) / 2) == Answers(messages[i].calls))
    && (forall i :: 0 < i < |messages| && messages[i - 1].Assistant? ==>
          Replies(env, i / 2, messages[i - 1].calls, messages[i]))
  }

  /** Every attempt goes on, except that a stopped loop stops at its last one. */
  ghost predicate StopsAtEnd(g: Gates, log: seq<Attempt>, stop: Stop) {
    && (stop != Goes ==> log != [] && StopOf(g, log[|log| - 1]) == stop)
    && forall i :: 0 <= i < |log| && StopOf(g, log[i]) != Goes ==> stop != Goes && i == |log| - 1
  }

  /** The conversation is well formed and the log holds exactly the calls that were attempted: all that the
      model asked for, or, when the loop was stopped, a non-empty start of the last turn as well. */
  ghost predicate Accounted(env: Env, messages: seq<Message>, log: seq<Attempt>, stop: Stop) {
    && Conversation(env, messages) && StopsAtEnd(env.g, log, stop)
    && (stop != Goes <==> messages[|messages| - 1].Assistant?)
    && (stop == Goes ==> log == Tried(env, messages))
    && (stop != Goes ==> Tried(env, messages[..|messages| - 1]) < log <= Tried(env, messages))
  }

  datatype Exit = EndTurn | Exhausted | PolicyStop | ModelFailure | WriteFailure

  function ExitStop(exit: Exit): Stop {
    match exit
    case PolicyStop => Blocked
    case WriteFailure => Raised
    case _ => Goes
  }

  class Agent {
    const gates: Gates
    const maxToolTurns: nat
    var audit: seq<AuditRecord>
    var changes: seq<FileChange>

    constructor (gates: Gates, maxToolTurns: nat)
      ensures this.gates == gates && this.maxToolTurns == maxToolTurns && audit == [] && changes == []
    {
      this.gates, this.maxToolTurns, this.audit, this.changes := gates, maxToolTurns, [], [];
    }

    /** Three gates; one audit record on every way out on which it can still be written. */
    method ExecuteTool(call: Invocation, run: ToolRun) returns (stop: Stop, ok: bool)
      modifies this`audit, this`changes
      ensures stop == Blocked <==> EndsByPolicy(gates, Attempt(call, run))
      ensures stop == Raised <==> EndsByWrite(gates, Attempt(call, run))
      ensures stop == Goes ==> (ok <==> MayRun(gates, call) && run.ok)
      ensures audit == old(audit) +
        if run.fault == InRecord || (run.fault == InCallEvent && (Forbidden(gates, call) || MayRun(gates, call)))
        then [] else [AuditRecord(call, MayRun(gates, call) && run.ok)]
      ensures changes == old(changes) +
        if Writes(gates, call, run) && (run.fault == NoFault || run.fault == InChangeEvent)
        then [FileChange(call, run.path)] else []
    {
      if !gates.allowed(call.name) || !gates.known(call.name) {
        stop := Audit(call, false, run.fault);
        return stop, false;
      }
      if gates.mutating(call.name) {
        var decision := Policy.CheckPathWritable(gates.engine, call.path);
        GateIsPathBlocked(gates.engine, call.path, decision);
        if decision.action == Policy.Block {
          if run.fault == InCallEvent { return Raised, false; }
          stop := Audit(call, false, run.fault);
          return if stop == Raised then Raised else Blocked, false;
        }
      }
      stop, ok := Perform(call, run);
    }

    /** All gates are open: event, tool, record, file change. */
    method Perform(call: Invocation, run: ToolRun) returns (stop: Stop, ok: bool)
      requires MayRun(gates, call)
      modifies this`audit, this`changes
      ensures stop == if EndsByWrite(gates, Attempt(call, run)) then Raised else Goes
      ensures stop == Goes ==> ok == run.ok
      ensures audit == old(audit) +
        if run.fault == InRecord || run.fault == InCallEvent then [] else [AuditRecord(call, run.ok)]
      ensures changes == old(changes) +
        if Writes(gates, call, run) && (run.fault == NoFault || run.fault == InChangeEvent)
        then [FileChange(call, run.path)] else []
    {
      if run.fault == InCallEvent { return Raised, false; }
      stop := Audit(call, run.ok, run.fault);
      ok := run.ok;
      if stop == Goes && run.ok && gates.mutating(call.name) && run.path != "" {
        if run.fault == InChange { return Raised, ok; }
        changes := changes + [FileChange(call, run.path)];
        if run.fault == InChangeEvent { return Raised, ok; }
      }
    }

    /** The record, then the event about it. */
    method Audit(call: Invocation, ok: bool, fault: Fault) returns (stop: Stop)
      modifies this`audit
      ensures stop == if fault == InRecord || fault == InResultEvent then Raised else Goes
      ensures audit == old(audit) + if fault == InRecord then [] else [AuditRecord(call, ok)]
    {
      if fault == InRecord { return Raised; }
      audit := audit + [AuditRecord(call, ok)];
      stop := if fault == InResultEvent then Raised else Goes;
    }

    /** The tables hold what they held before, plus exactly what the log says. */
    ghost predicate Written(audit0: seq<AuditRecord>, changes0: seq<FileChange>, log: seq<Attempt>)
      reads this
    {
      audit == audit0 + Records(gates, log) && changes == changes0 + Changes(gates, log)
    }

    /** One call more, in the tables and in the log. */
    method Try(call: Invocation, run: ToolRun, ghost log: seq<Attempt>,
               ghost audit0: seq<AuditRecord>, ghost changes0: seq<FileChange>) returns (stop: Stop, ok: bool)
      requires Written(audit0, changes0, log)
      modifies this`audit, this`changes
      ensures Written(audit0, changes0, log + [Attempt(call, run)])
      ensures stop == StopOf(gates, Attempt(call, run)) && (stop == Goes ==> (ok <==> MayRun(gates, call) && run.ok))
    {
      ghost var a := Attempt(call, run);
      StopOfIs(gates, a);
      OneAttempt(gates, a);
      Appended(gates, log, a);
      hide StopOf, EndsByPolicy, EndsByWrite, MayRun, Forbidden, Writes, Records, Changes;
      stop, ok := ExecuteTool(call, run);
    }

    /** One tool turn: the calls run in order until one of them stops the loop. */
    method RunCalls(ghost env: Env, turn: nat, calls: seq<Invocation>, tools: (nat, nat) -> ToolRun)
        returns (stop: Stop, blocks: seq<(string, bool)>, ghost log: seq<Attempt>)
      requires env.g == gates && env.tools == tools
      modifies this`audit, this`changes
      ensures Written(old(audit), old(changes), log)
      ensures log <= Attempts(env, turn, calls) && StopsAtEnd(gates, log, stop)
      ensures stop == Goes ==> log == Attempts(env, turn, calls) && Replies(env, turn, calls, ToolResults(blocks))
    {
      blocks, log := [], [];
      assert Written(old(audit), old(changes), log);
      for k := 0 to |calls|
        invariant Written(old(audit), old(changes), log)
        invariant |log| == k && Answered(env, turn, calls, log, blocks)
      {
        hide Written, Answered, MayRun, StopOf, Attempts;
        var halt, ok := Try(calls[k], tools(turn, k), log, old(audit), old(changes));
        ghost var a := Attempt(calls[k], tools(turn, k));
        if halt != Goes {
          AnsweredThenStopped(env, turn, calls, log, blocks, a);
          return halt, blocks, log + [a];
        }
        AnsweredMore(env, turn, calls, log, blocks, a);
        log := log + [a];
        blocks := blocks + [(calls[k].id, !ok)];
      }
      stop := Goes;
    }

    /** The assistant message, its calls, and their results unless one of them stopped the loop. */
    method ToolTurn(ghost env: Env, turn: nat, messages: seq<Message>, calls: seq<Invocation>,
                    tools: (nat, nat) -> ToolRun)
        returns (stop: Stop, messages': seq<Message>, ghost log: seq<Attempt>)
      requires env.g == gates && env.tools == tools
      requires Conversation(env, messages) && |messages| == 2 * turn - 1
      requires calls != [] && env.model(turn) == Answers(calls)
      modifies this`audit, this`changes
      ensures Conversation(env, messages') && (stop != Goes <==> messages'[|messages'| - 1].Assistant?)
      ensures |messages'| == |messages| + (if stop != Goes then 1 else 2) && messages'[..|messages|] == messages
      ensures Tried(env, messages') == Tried(env, messages) + Attempts(env, turn, calls)
      ensures Written(old(audit), old(changes), log) && StopsAtEnd(gates, log, stop)
      ensures log <= Attempts(env, turn, calls) && (stop == Goes ==> log == Attempts(env, turn, calls))
    {
      hide Conversation, Written, Tried, Attempts, StopsAtEnd, Replies;
      AssistantTurn(env, turn, messages, calls);
      var blocks;
      stop, blocks, log := RunCalls(env, turn, calls, tools);
      messages' := messages + [Assistant(calls)];
      if stop == Goes {
        AnsweredTurn(env, turn, messages, calls, ToolResults(blocks));
        messages' := messages' + [ToolResults(blocks)];
      }
    }

    method Turn(ghost env: Env, turn: nat, messages: seq<Message>, calls: seq<Invocation>,
                tools: (nat, nat) -> ToolRun, ghost log: seq<Attempt>,
                ghost audit0: seq<AuditRecord>, ghost changes0: seq<FileChange>)
        returns (stop: Stop, messages': seq<Message>, ghost log': seq<Attempt>)
      requires env.g == gates && env.tools == tools && calls != [] && env.model(turn) == Answers(calls)
      requires Accounted(env, messages, log, Goes) && |messages| == 2 * turn - 1 && Written(audit0, changes0, log)
      modifies this`audit, this`changes
      ensures Accounted(env, messages', log', stop) && Written(audit0, changes0, log')
      ensures |messages'| == |messages| + if stop != Goes then 1 else 2
    {
      AccountedTalks(env, messages, log, Goes);
      hide Accounted, Records, Changes, Conversation, Tried, Attempts, StopsAtEnd;
      ghost var more;
      stop, messages', more := ToolTurn(env, turn, messages, calls, tools);
      Advance(env, turn, messages, log, calls, messages', more, stop);
      Joined(gates, log, more);
      log' := log + more;
      Regroup(audit0, Records(gates, log), Records(gates, more));
      Regroup(changes0, Changes(gates, log), Changes(gates, more));
    }

    /** For every model and tools; what each way out means is stated exactly. */
    method Run(model: nat -> ModelTurn, tools: (nat, nat) -> ToolRun)
        returns (exit: Exit, turns: nat, messages: seq<Message>, ghost log: seq<Attempt>)
      modifies this`audit, this`changes
      ensures turns <= maxToolTurns && Accounted(Env(gates, model, tools), messages, log, ExitStop(exit))
      ensures Written(old(audit), old(changes), log)
      ensures exit == PolicyStop <==> log != [] && EndsByPolicy(gates, log[|log| - 1])
      ensures exit == WriteFailure <==> log != [] && EndsByWrite(gates, log[|log| - 1])
      ensures forall i :: 0 <= i < |log| - 1 ==> !EndsByPolicy(gates, log[i]) && !EndsByWrite(gates, log[i])
      ensures exit == EndTurn ==> turns > 0 && model(turns) == Answers([]) && |messages| == 2 * turns - 1
      ensures exit == ModelFailure ==> turns > 0 && model(turns).Raises? && |messages| == 2 * turns - 1
      ensures exit == Exhausted ==> turns == maxToolTurns && |messages| == 2 * turns + 1
      ensures exit == PolicyStop || exit == WriteFailure ==> |messages| == 2 * turns
    {
      hide Accounted, Written, EndsByPolicy, EndsByWrite;
      exit, turns, messages, log := Talk(model, tools);
      if ExitStop(exit) == Goes {
        NoEnd(Env(gates, model, tools), messages, log);
      } else {
        HowItEnds(Env(gates, model, tools), messages, log, ExitStop(exit));
      }
    }

    method Talk(model: nat -> ModelTurn, tools: (nat, nat) -> ToolRun)
        returns (exit: Exit, turns: nat, messages: seq<Message>, ghost log: seq<Attempt>)
      modifies this`audit, this`changes
      ensures turns <= maxToolTurns && Accounted(Env(gates, model, tools), messages, log, ExitStop(exit))
      ensures Written(old(audit), old(changes), log)
      ensures exit == EndTurn ==> turns > 0 && model(turns) == Answers([]) && |messages| == 2 * turns - 1
      ensures exit == ModelFailure ==> turns > 0 && model(turns).Raises? && |messages| == 2 * turns - 1
      ensures exit == Exhausted ==> turns == maxToolTurns && |messages| == 2 * turns + 1
      ensures exit == PolicyStop || exit == WriteFailure ==> |messages| == 2 * turns
    {
      ghost var env := Env(gates, model, tools);
      messages, log, turns := [UserText], [], 0;
      Greeting(env);
      assert Written(audit, changes, log);
      hide Accounted, Written;
      while turns < maxToolTurns
        invariant turns <= maxToolTurns && |messages| == 2 * turns + 1
        invariant Accounted(env, messages, log, Goes) && Written(old(audit), old(changes), log)
      {
        turns := turns + 1;
        var response := model(turns);
        if response.Raises? {
          return ModelFailure, turns, messages, log;
        }
        if response.toolCalls == [] {
          return EndTurn, turns, messages, log;
        }
        var stop;
        stop, messages, log := Turn(env, turns, messages, response.toolCalls, tools, log, old(audit), old(changes));
        if stop != Goes {
          return if stop == Blocked then PolicyStop else WriteFailure, turns, messages, log;
        }
      }
      exit := Exhausted;
    }
  }

  /** A stopped loop is stopped by its last attempt, in the way the gates and the writes say. */
  lemma HowItEnds(env: Env, messages: seq<Message>, log: seq<Attempt>, stop: Stop)
    requires Accounted(env, messages, log, stop) && stop != Goes
    ensures log != []
    ensures stop == Blocked <==> EndsByPolicy(env.g, log[|log| - 1])
    ensures stop == Raised <==> EndsByWrite(env.g, log[|log| - 1])
    ensures forall i :: 0 <= i < |log| - 1 ==> !EndsByPolicy(env.g, log[i]) && !EndsByWrite(env.g, log[i])
  {
    hide Conversation, Tried, StopOf, EndsByPolicy, EndsByWrite;
    StopOfIs(env.g, log[|log| - 1]);
    forall i | 0 <= i < |log| - 1 ensures !EndsByPolicy(env.g, log[i]) && !EndsByWrite(env.g, log[i]) {
      StopOfIs(env.g, log[i]);
    }
  }

  lemma NoEnd(env: Env, messages: seq<Message>, log: seq<Attempt>)
    requires Accounted(env, messages, log, Goes)
    ensures forall i :: 0 <= i < |log| ==> !EndsByPolicy(env.g, log[i]) && !EndsByWrite(env.g, log[i])
  {
    hide Conversation, Tried, StopOf, EndsByPolicy, EndsByWrite;
    forall i | 0 <= i < |log| ensures !EndsByPolicy(env.g, log[i]) && !EndsByWrite(env.g, log[i]) {
      StopOfIs(env.g, log[i]);
    }
  }

  /** The first calls all went on, and each is answered with its id and its error flag. */
  ghost predicate Answered(env: Env, turn: nat, calls: seq<Invocation>, log: seq<Attempt>,
                           blocks: seq<(string, bool)>) {
    && |log| == |blocks| && log <= Attempts(env, turn, calls)
    && (forall k :: 0 <= k < |log| ==>
          && blocks[k].0 == calls[k].id && (blocks[k].1 <==> !(MayRun(env.g, calls[k]) && env.tools(turn, k).ok))
          && StopOf(env.g, log[k]) == Goes)
  }

  lemma AnsweredMore(env: Env, turn: nat, calls: seq<Invocation>, log: seq<Attempt>,
                     blocks: seq<(string, bool)>, a: Attempt)
    requires Answered(env, turn, calls, log, blocks) && |log| < |calls|
    requires a == Attempt(calls[|log|], env.tools(turn, |log|)) && StopOf(env.g, a) == Goes
    ensures Answered(env, turn, calls, log + [a], blocks + [(a.call.id, !(MayRun(env.g, a.call) && a.run.ok))])
  {
    hide StopOf, MayRun;
  }

  lemma AnsweredThenStopped(env: Env, turn: nat, calls: seq<Invocation>, log: seq<Attempt>,
                            blocks: seq<(string, bool)>, a: Attempt)
    requires Answered(env, turn, calls, log, blocks) && |log| < |calls|
    requires a == Attempt(calls[|log|], env.tools(turn, |log|)) && StopOf(env.g, a) != Goes
    ensures log + [a] <= Attempts(env, turn, calls) && StopsAtEnd(env.g, log + [a], StopOf(env.g, a))
  {
    hide StopOf, MayRun;
  }

  lemma AccountedTalks(env: Env, messages: seq<Message>, log: seq<Attempt>, stop: Stop)
    requires Accounted(env, messages, log, stop)
    ensures Conversation(env, messages)
  {
  }

  lemma Advance(env: Env, turn: nat, before: seq<Message>, log: seq<Attempt>, calls: seq<Invocation>,
                after: seq<Message>, more: seq<Attempt>, stop: Stop)
    requires Accounted(env, before, log, Goes) && Conversation(env, after)
    requires stop != Goes <==> after[|after| - 1].Assistant?
    requires |after| == |before| + (if stop != Goes then 1 else 2) && after[..|before|] == before
    requires Tried(env, after) == Tried(env, before) + Attempts(env, turn, calls) && StopsAtEnd(env.g, more, stop)
    requires more <= Attempts(env, turn, calls) && (stop == Goes ==> more == Attempts(env, turn, calls))
    ensures Accounted(env, after, log + more, stop)
  {
    hide Conversation, Tried, Attempts, StopsAtEnd;
    StopsLater(env.g, log, more, stop);
  }

  lemma Greeting(env: Env)
    ensures Accounted(env, [UserText], [], Goes)
    ensures Records(env.g, []) == [] && Changes(env.g, []) == []
  {
    assert [UserText][..0] == [];
  }

  lemma AssistantTurn(env: Env, turn: nat, messages: seq<Message>, calls: seq<Invocation>)
    requires Conversation(env, messages) && |messages| == 2 * turn - 1
    requires calls != [] && env.model(turn) == Answers(calls)
    ensures var m := messages + [Assistant(calls)];
      && Conversation(env, m) && Tried(env, m) == Tried(env, messages) + Attempts(env, turn, calls)
      && m[..|messages|] == messages && !messages[|messages| - 1].Assistant?
  {
    hide Attempts, Replies;
    var m := messages + [Assistant(calls)];
    assert m[..|messages|] == messages;
    AssistantSpeaks(env, turn, messages, calls);
    hide Conversation;
    assert m[|m| - 1] == Assistant(calls) && (|m| - 1 + 1) / 2 == turn;
  }

  lemma AssistantSpeaks(env: Env, turn: nat, messages: seq<Message>, calls: seq<Invocation>)
    requires Conversation(env, messages) && |messages| == 2 * turn - 1
    requires calls != [] && env.model(turn) == Answers(calls)
    ensures Conversation(env, messages + [Assistant(calls)]) && !messages[|messages| - 1].Assistant?
  {
    hide Replies;
    assert FromUser(messages[|messages| - 1]);
    var m := messages + [Assistant(calls)];
    forall i | 0 < i < |m| && m[i - 1].Assistant? ensures Replies(env, i / 2, m[i - 1].calls, m[i]) {
      assert i < |messages| && m[i - 1] == messages[i - 1] && m[i] == messages[i];
    }
  }

  lemma AnsweredTurn(env: Env, turn: nat, messages: seq<Message>, calls: seq<Invocation>, results: Message)
    requires Conversation(env, messages) && |messages| == 2 * turn - 1 && Replies(env, turn, calls, results)
    requires calls != [] && env.model(turn) == Answers(calls)
    ensures var m := messages + [Assistant(calls)] + [results];
      && Conversation(env, m) && Tried(env, m) == Tried(env, messages) + Attempts(env, turn, calls)
      && !m[|m| - 1].Assistant?
  {
    hide Conversation, Replies, Attempts;
    AssistantTurn(env, turn, messages, calls);
    var asked := messages + [Assistant(calls)];
    assert asked[|asked| - 1] == Assistant(calls) && (asked + [results])[..|asked|] == asked;
    AnswerHeard(env, asked, calls, results);
  }

  lemma AnswerHeard(env: Env, asked: seq<Message>, calls: seq<Invocation>, results: Message)
    requires Conversation(env, asked) && asked[|asked| - 1] == Assistant(calls)
    requires Replies(env, |asked| / 2, calls, results)
    ensures Conversation(env, asked + [results]) && results.ToolResults?
  {
    var m := asked + [results];
    assert results.ToolResults? && !FromUser(asked[|asked| - 1]);
    hide Replies;
    forall i | 0 < i < |m| && m[i - 1].Assistant? ensures Replies(env, i / 2, m[i - 1].calls, m[i]) {
      if i < |asked| { assert m[i - 1] == asked[i - 1] && m[i] == asked[i]; }
    }
  }

  /** The pre-write gate blocks a path exactly when a blocking rule matches it. */
  lemma GateIsPathBlocked(engine: Policy.Engine, path: string, d: Policy.Decision)
    requires Policy.Decides(engine, [path], "", None, false, d)
    ensures d.action == Policy.Block <==> PathBlocked(engine, path)
  {
    Policy.ActionReaches(engine, [path], "", None, false, d, 2);
    forall r | Policy.HitsAny(engine, r, [path]) ensures engine.hits(r, path) {}
    if i :| 0 <= i < |engine.rules| && engine.rules[i].action == Policy.Block && engine.hits(engine.rules[i], path) {
      assert engine.hits(engine.rules[i], [path][0]);
    }
  }

  lemma StopsLater(g: Gates, log: seq<Attempt>, more: seq<Attempt>, stop: Stop)
    requires StopsAtEnd(g, log, Goes) && StopsAtEnd(g, more, stop)
    ensures StopsAtEnd(g, log + more, stop)
    ensures stop != Goes ==> more != []
  {
  }

  /** What the tables gain by one attempt. */
  lemma OneAttempt(g: Gates, a: Attempt)
    ensures Records(g, [a]) ==
      if a.run.fault == InRecord || (a.run.fault == InCallEvent && (Forbidden(g, a.call) || MayRun(g, a.call)))
      then [] else [AuditRecord(a.call, MayRun(g, a.call) && a.run.ok)]
    ensures Changes(g, [a]) ==
      if Writes(g, a.call, a.run) && (a.run.fault == NoFault || a.run.fault == InChangeEvent)
      then [FileChange(a.call, a.run.path)] else []
  {
    assert [a][..0] == [];
  }

  lemma Appended(g: Gates, log: seq<Attempt>, a: Attempt)
    ensures Records(g, log + [a]) == Records(g, log) + Records(g, [a])
    ensures Changes(g, log + [a]) == Changes(g, log) + Changes(g, [a])
  {
    assert (log + [a])[..|log|] == log && [a][..0] == [];
  }

  lemma Joined(g: Gates, log: seq<Attempt>, more: seq<Attempt>)
    ensures Records(g, log + more) == Records(g, log) + Records(g, more)
    ensures Changes(g, log + more) == Changes(g, log) + Changes(g, more)
  {
    RecordsJoined(g, log, more);
    ChangesJoined(g, log, more);
  }

  lemma {:induction false} RecordsJoined(g: Gates, log: seq<Attempt>, more: seq<Attempt>)
    ensures Records(g, log + more) == Records(g, log) + Records(g, more)
  {
    hide Audited, Succeeded;
    if more == [] {
      assert log + more == log;
    } else {
      var n := |more| - 1;
      RecordsJoined(g, log, more[..n]);
      assert (log + more)[..|log| + n] == log + more[..n];
    }
  }

  lemma {:induction false} ChangesJoined(g: Gates, log: seq<Attempt>, more: seq<Attempt>)
    ensures Changes(g, log + more) == Changes(g, log) + Changes(g, more)
  {
    hide StopOf, ChangesFile;
    if more == [] {
      assert log + more == log;
    } else {
      var n := |more| - 1;
      ChangesJoined(g, log, more[..n]);
      assert (log + more)[..|log| + n] == log + more[..n];
    }
  }

  lemma {:induction false} RecordsOfGoing(g: Gates, log: seq<Attempt>)
    requires forall i :: 0 <= i < |log| ==> StopOf(g, log[i]) == Goes
    ensures |Records(g, log)| == |log|
    ensures forall i :: 0 <= i < |log| ==> Records(g, log)[i] == AuditRecord(log[i].call, Succeeded(g, log[i]))
  {
    if log != [] { RecordsOfGoing(g, log[..|log| - 1]); }
  }

  /** On every exit each attempted call has exactly one record, in order, saying whether it was let through and
      succeeded, except that the last one has none if and only if the event before its record, or the record
      itself, raised. */
  lemma OneRecordPerCall(g: Gates, log: seq<Attempt>, stop: Stop)
    requires StopsAtEnd(g, log, stop)
    ensures var r := Records(g, log);
      && |r| <= |log|
      && (forall i :: 0 <= i < |r| ==> r[i] == AuditRecord(log[i].call, MayRun(g, log[i].call) && log[i].run.ok))
      && |r| == (if log != [] && Unrecorded(g, log[|log| - 1]) then |log| - 1 else |log|)
  {
    forall i | 0 <= i < |log| ensures Succeeded(g, log[i]) <==> MayRun(g, log[i].call) && log[i].run.ok {
      StopOfIs(g, log[i]);
    }
    if log != [] {
      var n := |log| - 1;
      RecordedIff(g, log[n]);
      hide StopOf, Succeeded, MayRun, Unrecorded, Audited;
      RecordsOfGoing(g, log[..n]);
    }
  }

  predicate Unrecorded(g: Gates, a: Attempt) {
    a.run.fault == InRecord || (a.run.fault == InCallEvent && (Forbidden(g, a.call) || MayRun(g, a.call)))
  }

  lemma RecordedIff(g: Gates, a: Attempt)
    ensures Audited(g, a) <==> !Unrecorded(g, a)
  {
  }

  /** Every recorded change belongs to an attempt that passed all gates with a mutating tool, succeeded and was
      audited, and every such attempt that names a path is recorded unless that very write raised. */
  lemma {:induction false} ChangesExact(g: Gates, log: seq<Attempt>, c: FileChange)
    ensures c in Changes(g, log) <==>
      exists i :: 0 <= i < |log| && log[i].call == c.call && Recorded(g, log[i], c.path)
  {
    if log != [] {
      var n := |log| - 1;
      ChangesExact(g, log[..n], c);
      assert forall i :: 0 <= i < n ==> log[..n][i] == log[i];
    }
  }

  predicate Recorded(g: Gates, a: Attempt, path: string) {
    && a.run.ok && a.run.path == path != "" && a.run.fault !in {InCallEvent, InRecord, InResultEvent, InChange}
    && g.allowed(a.call.name) && g.known(a.call.name) && g.mutating(a.call.name) && !PathBlocked(g.engine, a.call.path)
  }
}
