/** `ask`, `runLoop` and `emitFallback` of `apps/api/src/retrieval/agentic-qa.service.ts`: the events of
    one question, from the agent loop through the queue to the caller.

    Closing the trace does not throw; citations are not modelled.  */
module AskAgent {
  import opened AgentLoop
  import Q = AsyncQueues

  const MAX_LLM_TURNS := 6
  const MAX_TOOL_CALLS := 4

  datatype Status = Started | Done | Failed

  datatype Event = ToolStep(tool: string, status: Status) | Answer(answer: string) | ErrorEvent(message: string)

  /** `RetrievalService.answerQuestion` */
  datatype OneShot = Gives(answer: string) | Rejects(message: string)

  /** One question: the agent's world, whether the tool server comes up, and the one-shot answer. */
  datatype Question = Question(world: World, connects: bool, oneShot: OneShot)

  /** Where `runLoop` stands.  `requests` and `results` count what the generator did meanwhile. */
  datatype Progress = Progress(pushed: seq<Event>, toolCallCount: nat, lastText: string, stepIndex: nat, capped: bool,
    thrown: bool, invoked: seq<Call>, requests: nat, results: seq<ToolResult>)

  function Finished(result: ToolResult): Event {
    ToolStep(result.call.name, if result.isError then Failed else Done)
  }

  /** The loop body of `runLoop` for one step of the generator. */
  function Consume(p: Progress, s: Step): Progress {
    match s
    case Request(_) => p.(requests := p.requests + 1)
    case Text(text) => p.(lastText := text)
    case ToolCall(call) =>
      var next := p.(toolCallCount := p.toolCallCount + 1, pushed := p.pushed + [ToolStep(call.name, Started)]);
      if next.toolCallCount > MAX_TOOL_CALLS then next.(capped := true) else next.(invoked := p.invoked + [call])
    case ToolDone(result) => p.(pushed := p.pushed + [Finished(result)], results := p.results + [result])
    case Usage => p.(stepIndex := p.stepIndex + 1)
    case Throws => p.(thrown := true)
  }

  /** Leaving the loop leaves the rest of the generator unused. */
  function ConsumeAll(steps: seq<Step>): Progress {
    ConsumeFrom(Progress([], 0, "", 0, false, false, [], 0, []), steps)
  }

  function ConsumeFrom(start: Progress, steps: seq<Step>): Progress {
    if steps == [] then start else ConsumeUnlessStopped(ConsumeFrom(start, steps[..|steps| - 1]), steps[|steps| - 1])
  }

  function ConsumeUnlessStopped(p: Progress, s: Step): Progress {
    if p.capped || p.thrown then p else Consume(p, s)
  }

  /** `emitFallback` */
  function Fallback(q: Question): Event {
    match q.oneShot
    case Gives(answer) => Answer(answer)
    case Rejects(message) => ErrorEvent(message)
  }

  function LoopOf(q: Question): Progress {
    ConsumeAll(LoopFrom(q.world, 0, MAX_LLM_TURNS, []))
  }

  /** Everything pushed for one question. */
  function Produced(q: Question): seq<Event> {
    if !q.connects then [Fallback(q)]
    else
      var p := LoopOf(q);
      p.pushed + [if p.thrown || p.capped || p.lastText == "" then Fallback(q) else Answer(p.lastText)]
  }

  lemma {:induction false} StoppedStays(steps: seq<Step>, n: nat)
    requires n <= |steps| && (ConsumeAll(steps[..n]).capped || ConsumeAll(steps[..n]).thrown)
    ensures ConsumeAll(steps) == ConsumeAll(steps[..n])
    decreases |steps|
  {
    if n < |steps| {
      assert steps[..|steps| - 1][..n] == steps[..n];
      StoppedStays(steps[..|steps| - 1], n);
    } else {
      assert steps[..n] == steps;
    }
  }

  /** `for await (const event of ...)` */
  method ConsumeLoop(steps: seq<Step>)
    returns (pushed: seq<Event>, invoked: seq<Call>, lastText: string, stepIndex: nat, stepCapExceeded: bool,
      thrown: bool)
    ensures var p := ConsumeAll(steps);
      pushed == p.pushed && invoked == p.invoked && lastText == p.lastText && stepIndex == p.stepIndex
        && stepCapExceeded == p.capped && thrown == p.thrown
  {
    var toolCallCount := 0;
    ghost var requests, results := 0, [];
    pushed, invoked, lastText, stepIndex, stepCapExceeded, thrown := [], [], "", 0, false, false;
    for i := 0 to |steps|
      invariant ConsumeAll(steps[..i]) ==
        Progress(pushed, toolCallCount, lastText, stepIndex, false, false, invoked, requests, results)
      invariant !stepCapExceeded && !thrown
    {
      assert steps[..i + 1][..i] == steps[..i];
      match steps[i] {
        case ToolCall(call) =>
          toolCallCount := toolCallCount + 1;
          pushed := pushed + [ToolStep(call.name, Started)];
          if toolCallCount > MAX_TOOL_CALLS {
            stepCapExceeded := true;
            StoppedStays(steps, i + 1);
            return;
          }
          invoked := invoked + [call];
        case ToolDone(result) =>
          pushed := pushed + [Finished(result)];
          results := results + [result];
        case Text(text) => lastText := text;
        case Usage => stepIndex := stepIndex + 1;
        case Throws =>
          thrown := true;
          StoppedStays(steps, i + 1);
          return;
        case Request(_) => requests := requests + 1;
      }
    }
    assert steps[..|steps|] == steps;
  }

  /** `runLoop`, with the `catch` of `ask` around it. */
  method RunLoop(q: Question) returns (events: seq<Event>, invoked: seq<Call>, okChunks: nat)
    ensures events == Produced(q)
    ensures q.connects ==> invoked == LoopOf(q).invoked && okChunks == LoopOf(q).stepIndex
    ensures !q.connects ==> invoked == [] && okChunks == 0
  {
    if !q.connects {
      return [Fallback(q)], [], 0;
    }
    var steps := RunAgentLoop(q.world, MAX_LLM_TURNS);
    var pushed, calls, lastText, stepIndex, stepCapExceeded, thrown := ConsumeLoop(steps);
    if thrown || stepCapExceeded || lastText == "" {
      return pushed + [Fallback(q)], calls, stepIndex;
    }
    return pushed + [Answer(lastText)], calls, stepIndex;
  }

  // ---------------------------------------------------------------------------
  // What the caller is promised
  // ---------------------------------------------------------------------------

  lemma {:induction false} ToolBudget(steps: seq<Step>)
    ensures var p := ConsumeAll(steps);
      && |p.invoked| <= MAX_TOOL_CALLS
      && p.toolCallCount == |p.invoked| + (if p.capped then 1 else 0)
      && (p.capped ==> |p.invoked| == MAX_TOOL_CALLS)
      && forall e :: e in p.pushed ==> e.ToolStep?
  {
    if steps != [] {
      ToolBudget(steps[..|steps| - 1]);
    }
  }

  /** One answer or one error, and it is the last event. */
  ghost predicate EndsWithAnswer(events: seq<Event>) {
    && events != []
    && !events[|events| - 1].ToolStep?
    && forall i :: 0 <= i < |events| - 1 ==> events[i].ToolStep?
  }

  /** Whatever the model and the tools do, even when they throw. */
  lemma {:induction false} AlwaysAnswers(q: Question)
    ensures EndsWithAnswer(Produced(q))
    ensures |LoopOf(q).invoked| <= 4
    ensures var b := Audit(Account(0, [], true), LoopFrom(q.world, 0, 6, []));
      b.answered && b.requests <= 6
  {
    ToolBudget(LoopFrom(q.world, 0, MAX_LLM_TURNS, []));
    AgentLoopAnswers(q.world, MAX_LLM_TURNS);
  }

  // ---------------------------------------------------------------------------
  // Steps come in pairs, and turns are metered, up to where the loop is cut short
  // ---------------------------------------------------------------------------

  /** A started and a finished step for each result. */
  function Pairs(results: seq<ToolResult>): seq<Event> {
    if results == [] then []
    else
      var last := results[|results| - 1];
      Pairs(results[..|results| - 1]) + [ToolStep(last.call.name, Started), Finished(last)]
  }

  /** Every tool started has finished; `open` turns are requested and not yet metered. */
  ghost predicate Tidy(p: Progress, open: nat) {
    && !p.capped && !p.thrown && p.requests == p.stepIndex + open
    && p.pushed == Pairs(p.results) && Asked(p.results) == p.invoked
  }

  /** In the middle of a call: one tool was started and has not finished. */
  ghost predicate Dangling(p: Progress) {
    p.requests == p.stepIndex + 1 && exists name :: p.pushed == Pairs(p.results) + [ToolStep(name, Started)]
  }

  /** What the calls of a turn leave behind. */
  ghost predicate AfterCalls(p: Progress, ok: bool) {
    !p.thrown && if p.capped || !ok then Dangling(p) else Tidy(p, 1)
  }

  lemma {:induction false} ConsumeAppend(start: Progress, steps: seq<Step>, more: seq<Step>)
    ensures ConsumeFrom(start, steps + more) == ConsumeFrom(ConsumeFrom(start, steps), more)
  {
    if more == [] {
      assert steps + more == steps;
    } else {
      var init := more[..|more| - 1];
      ConsumeAppend(start, steps, init);
      assert (steps + more)[..|steps + more| - 1] == steps + init;
    }
  }

  lemma ConsumeOne(p: Progress, s: Step)
    ensures ConsumeFrom(p, [s]) == ConsumeUnlessStopped(p, s)
  {
    assert [s][..0] == [];
    assert ConsumeFrom(p, []) == p;
  }

  lemma {:induction false} StoppedIgnores(p: Progress, steps: seq<Step>)
    requires p.capped || p.thrown
    ensures ConsumeFrom(p, steps) == p
  {
    if steps != [] {
      StoppedIgnores(p, steps[..|steps| - 1]);
    }
  }

  /** One call: finished, or dangling because the tool threw, or because of the cap. */
  lemma CallConsumed(p: Progress, call: Call, outcome: ToolOutcome)
    requires Tidy(p, 1)
    ensures AfterCalls(ConsumeFrom(p, CallSteps(call, outcome)), outcome.Returned?)
  {
    var q := Consume(p, ToolCall(call));
    ConsumeOne(p, ToolCall(call));
    assert q.pushed == Pairs(q.results) + [ToolStep(call.name, Started)];
    if outcome.Returned? {
      var result := ResultOf(call, outcome);
      ConsumeAppend(p, [ToolCall(call)], [ToolDone(result)]);
      ConsumeOne(q, ToolDone(result));
      PairsSnoc(p.results, result);
      AskedSnoc(p.results, call, outcome);
    }
  }

  lemma PairsSnoc(results: seq<ToolResult>, result: ToolResult)
    ensures Pairs(results + [result]) == Pairs(results) + [ToolStep(result.call.name, Started)] + [Finished(result)]
  {
    assert (results + [result])[..|results|] == results;
  }

  lemma {:induction false} CallsConsumed(w: World, iteration: nat, calls: seq<Call>, p: Progress)
    requires Tidy(p, 1)
    ensures var run := RunCalls(w, iteration, calls);
      AfterCalls(ConsumeFrom(p, run.steps), run.ok)
  {
    if calls != [] {
      var n := |calls| - 1;
      var before := RunCalls(w, iteration, calls[..n]);
      var q := ConsumeFrom(p, before.steps);
      CallsConsumed(w, iteration, calls[..n], p);
      if before.ok {
        var steps := CallSteps(calls[n], w.tool(iteration, n, calls[n]));
        ConsumeAppend(p, before.steps, steps);
        if q.capped {
          StoppedIgnores(q, steps);
        } else {
          CallConsumed(q, calls[n], w.tool(iteration, n, calls[n]));
        }
      }
    }
  }

  /** How a loop ends: in order, or cut short in its last turn. */
  ghost predicate Ends(p: Progress) {
    if p.capped || p.thrown then p.requests == p.stepIndex + 1 && (Dangling(p) || p.pushed == Pairs(p.results))
    else Tidy(p, 0)
  }

  lemma TurnConsumed(w: World, iteration: nat, results: seq<ToolResult>, p: Progress)
    requires Tidy(p, 0)
    ensures var turn := OneTurn(w, iteration, results);
      var q := ConsumeFrom(p, turn.steps);
      Ends(q) && (turn.more && !q.capped ==> Tidy(q, 0))
  {
    match w.turn(iteration, results)
    case TurnThrows =>
      OpeningConsumed(p, results, "");
      TurnEnds(p, results, "", Calls([], [], true), Throws);
      assert [Request(results), Throws] == Opening(results, "") + [] + [Throws];
    case Turn(text, calls) =>
      var run := RunCalls(w, iteration, calls);
      OpeningConsumed(p, results, text);
      CallsConsumed(w, iteration, calls, ConsumeFrom(p, Opening(results, text)));
      TurnEnds(p, results, text, run, if run.ok && w.metered(iteration) then Usage else Throws);
  }

  lemma TurnEnds(p: Progress, results: seq<ToolResult>, text: string, run: Calls, last: Step)
    requires Tidy(p, 0) && (last.Throws? || (last.Usage? && run.ok))
    requires AfterCalls(ConsumeFrom(ConsumeFrom(p, Opening(results, text)), run.steps), run.ok)
    ensures var q := ConsumeFrom(p, Opening(results, text) + run.steps + [last]);
      Ends(q) && (last.Usage? && !q.capped ==> Tidy(q, 0))
  {
    TurnCloses(p, results, text, run.steps, last);
    LastStep(ConsumeFrom(ConsumeFrom(p, Opening(results, text)), run.steps), run.ok, last);
  }

  lemma LastStep(p: Progress, ok: bool, last: Step)
    requires AfterCalls(p, ok) && (last.Throws? || (last.Usage? && ok))
    ensures var q := ConsumeUnlessStopped(p, last); Ends(q) && (last.Usage? && !q.capped ==> Tidy(q, 0))
  {
  }

  lemma TurnCloses(p: Progress, results: seq<ToolResult>, text: string, steps: seq<Step>, last: Step)
    ensures ConsumeFrom(p, Opening(results, text) + steps + [last]) ==
      ConsumeUnlessStopped(ConsumeFrom(ConsumeFrom(p, Opening(results, text)), steps), last)
  {
    ConsumeAppend(p, Opening(results, text), steps);
    ConsumeAppend(p, Opening(results, text) + steps, [last]);
    ConsumeOne(ConsumeFrom(p, Opening(results, text) + steps), last);
  }

  lemma OpeningConsumed(p: Progress, results: seq<ToolResult>, text: string)
    requires Tidy(p, 0)
    ensures Tidy(ConsumeFrom(p, Opening(results, text)), 1)
  {
    ConsumeOne(p, Request(results));
    if text != "" {
      var q := ConsumeFrom(p, [Request(results)]);
      ConsumeAppend(p, [Request(results)], [AgentLoop.Text(text)]);
      ConsumeOne(q, AgentLoop.Text(text));
    } else {
      assert Opening(results, text) == [Request(results)];
    }
  }

  lemma {:induction false} LoopConsumed(w: World, iteration: nat, max: nat, results: seq<ToolResult>, p: Progress)
    requires Tidy(p, 0) && iteration <= max
    ensures Ends(ConsumeFrom(p, LoopFrom(w, iteration, max, results)))
    decreases max - iteration
  {
    if iteration < max {
      var turn := OneTurn(w, iteration, results);
      var q := ConsumeFrom(p, turn.steps);
      TurnConsumed(w, iteration, results, p);
      if turn.more {
        var rest := LoopFrom(w, iteration + 1, max, turn.results);
        ConsumeAppend(p, turn.steps, rest);
        if q.capped || q.thrown {
          StoppedIgnores(q, rest);
        } else {
          LoopConsumed(w, iteration + 1, max, turn.results, q);
        }
      } else {
        assert LoopFrom(w, iteration, max, results) == turn.steps;
      }
    }
  }

  // ---------------------------------------------------------------------------
  // The turn limit
  // ---------------------------------------------------------------------------

  /** Each turn that went on to another has used up a tool call. */
  ghost predicate Spends(p: Progress, open: nat) {
    && p.requests <= p.toolCallCount + open && p.requests <= 5
    && p.toolCallCount <= 5 && (p.toolCallCount == 5 ==> p.capped)
  }

  lemma {:induction false} CallsSpend(w: World, iteration: nat, calls: seq<Call>, p: Progress)
    requires Spends(p, 1) && !p.capped && !p.thrown
    ensures var (run, q) := (RunCalls(w, iteration, calls), ConsumeFrom(p, RunCalls(w, iteration, calls).steps));
      && Spends(q, 1) && q.requests == p.requests && !q.thrown
      && (run.ok ==> q.capped || q.toolCallCount == p.toolCallCount + |calls|)
  {
    if calls != [] {
      var n := |calls| - 1;
      var before := RunCalls(w, iteration, calls[..n]);
      CallsSpend(w, iteration, calls[..n], p);
      if before.ok {
        var (q, steps) := (ConsumeFrom(p, before.steps), CallSteps(calls[n], w.tool(iteration, n, calls[n])));
        ConsumeAppend(p, before.steps, steps);
        if q.capped {
          StoppedIgnores(q, steps);
        } else {
          CallSpends(q, calls[n], w.tool(iteration, n, calls[n]));
        }
      }
    }
  }

  lemma CallSpends(p: Progress, call: Call, outcome: ToolOutcome)
    requires Spends(p, 1) && !p.capped && !p.thrown
    ensures var q := ConsumeFrom(p, CallSteps(call, outcome));
      && Spends(q, 1) && q.requests == p.requests && !q.thrown
      && (outcome.Returned? ==> q.capped || q.toolCallCount == p.toolCallCount + 1)
  {
    ConsumeOne(p, ToolCall(call));
    if outcome.Returned? {
      var result := ResultOf(call, outcome);
      ConsumeAppend(p, [ToolCall(call)], [ToolDone(result)]);
      ConsumeOne(ConsumeFrom(p, [ToolCall(call)]), ToolDone(result));
    }
  }

  lemma OpeningSpends(p: Progress, results: seq<ToolResult>, text: string)
    requires Spends(p, 0) && !p.capped && !p.thrown
    ensures var q := ConsumeFrom(p, Opening(results, text));
      Spends(q, 1) && !q.capped && !q.thrown && q.requests == p.requests + 1 && q.toolCallCount == p.toolCallCount
  {
    ConsumeOne(p, Request(results));
    if text != "" {
      var q := ConsumeFrom(p, [Request(results)]);
      ConsumeAppend(p, [Request(results)], [AgentLoop.Text(text)]);
      ConsumeOne(q, AgentLoop.Text(text));
    } else {
      assert Opening(results, text) == [Request(results)];
    }
  }

  /** A turn makes one request at most, and does not go on without a tool call. */
  lemma TurnSpends(w: World, iteration: nat, results: seq<ToolResult>, p: Progress)
    requires Spends(p, 0) && !p.capped && !p.thrown
    ensures var turn := OneTurn(w, iteration, results);
      var q := ConsumeFrom(p, turn.steps);
      Spends(q, 1) && (turn.more && !q.capped && !q.thrown ==> Spends(q, 0))
  {
    match w.turn(iteration, results)
    case TurnThrows =>
      OpeningSpends(p, results, "");
      ClosingSpends(p, results, "", Calls([], [], true), Throws, []);
      assert [Request(results), Throws] == Opening(results, "") + [] + [Throws];
    case Turn(text, calls) =>
      var run := RunCalls(w, iteration, calls);
      OpeningSpends(p, results, text);
      CallsSpend(w, iteration, calls, ConsumeFrom(p, Opening(results, text)));
      ClosingSpends(p, results, text, run, if run.ok && w.metered(iteration) then Usage else Throws, calls);
  }

  lemma ClosingSpends(p: Progress, results: seq<ToolResult>, text: string, run: Calls, last: Step, calls: seq<Call>)
    requires Spends(p, 0) && !p.capped && !p.thrown && (last.Throws? || (last.Usage? && run.ok))
    requires var o := ConsumeFrom(p, Opening(results, text));
      var r := ConsumeFrom(o, run.steps);
      && Spends(r, 1) && r.requests == o.requests && !r.thrown
      && (run.ok ==> r.capped || r.toolCallCount == o.toolCallCount + |calls|)
    ensures var q := ConsumeFrom(p, Opening(results, text) + run.steps + [last]);
      Spends(q, 1) && (last.Usage? && calls != [] && !q.capped && !q.thrown ==> Spends(q, 0))
  {
    OpeningSpends(p, results, text);
    TurnCloses(p, results, text, run.steps, last);
  }

  lemma {:induction false} LoopSpends(w: World, iteration: nat, max: nat, results: seq<ToolResult>, p: Progress)
    requires Spends(p, 0) && !p.capped && !p.thrown && iteration <= max
    ensures Spends(ConsumeFrom(p, LoopFrom(w, iteration, max, results)), 1)
    decreases max - iteration
  {
    if iteration < max {
      var turn := OneTurn(w, iteration, results);
      var q := ConsumeFrom(p, turn.steps);
      TurnSpends(w, iteration, results, p);
      if turn.more {
        var rest := LoopFrom(w, iteration + 1, max, turn.results);
        ConsumeAppend(p, turn.steps, rest);
        if q.capped || q.thrown {
          StoppedIgnores(q, rest);
        } else {
          LoopSpends(w, iteration + 1, max, turn.results, q);
        }
      } else {
        assert LoopFrom(w, iteration, max, results) == turn.steps;
      }
    }
  }

  /** The limit of six turns is never reached: a turn goes on to another only after a tool call, and the fifth
      tool call ends the loop, so however many turns were allowed, at most five requests are made. */
  lemma {:induction false} TurnLimitNeverReached(w: World, max: nat)
    ensures ConsumeAll(LoopFrom(w, 0, max, [])).requests <= 5
  {
    LoopSpends(w, 0, max, [], Progress([], 0, "", 0, false, false, [], 0, []));
  }

  function ToolCalls(steps: seq<Step>): nat {
    if steps == [] then 0
    else ToolCalls(steps[..|steps| - 1]) + if steps[|steps| - 1].ToolCall? then 1 else 0
  }

  lemma {:induction false} CutExactly(steps: seq<Step>)
    ensures var p := ConsumeAll(steps);
      && (p.capped || p.thrown <==> ToolCalls(steps) > MAX_TOOL_CALLS || Throws in steps)
      && (!p.capped && !p.thrown ==> p.toolCallCount == ToolCalls(steps))
  {
    if steps != [] {
      var before := steps[..|steps| - 1];
      CutExactly(before);
      assert steps == before + [steps[|steps| - 1]];
    }
  }

  /** All that the generator would do for one question, if it were run to its end. */
  function StepsOf(q: Question): seq<Step> {
    LoopFrom(q.world, 0, MAX_LLM_TURNS, [])
  }

  /** Every turn is metered exactly when the generator has at most four tool calls in it and does not
      throw; otherwise all but the last are.  Tool steps come as started and finished pairs, and only
      a cut can leave one unfinished. */
  lemma {:induction false} MeteredUnlessCut(q: Question)
    ensures var (p, cut) := (LoopOf(q), ToolCalls(StepsOf(q)) > MAX_TOOL_CALLS || Throws in StepsOf(q));
      && (p.stepIndex == p.requests <==> !cut)
      && p.requests <= p.stepIndex + 1
      && (p.pushed == Pairs(p.results) || (cut && Dangling(p)))
  {
    LoopConsumed(q.world, 0, MAX_LLM_TURNS, [], Progress([], 0, "", 0, false, false, [], 0, []));
    CutExactly(StepsOf(q));
  }

  lemma {:induction false} CallsBegin(w: World, iteration: nat, calls: seq<Call>, n: nat)
    requires n <= |calls|
    ensures RunCalls(w, iteration, calls[..n]).steps <= RunCalls(w, iteration, calls).steps
    decreases |calls|
  {
    if n < |calls| {
      assert calls[..|calls| - 1][..n] == calls[..n];
      CallsBegin(w, iteration, calls[..|calls| - 1], n);
    } else {
      assert calls[..n] == calls;
    }
  }

  ghost predicate AllReturn(w: World, iteration: nat, calls: seq<Call>) {
    forall i :: 0 <= i < |calls| ==> w.tool(iteration, i, calls[i]).Returned?
  }

  /** Within the budget, calls that return are all invoked. */
  lemma {:induction false} BudgetSuffices(w: World, iteration: nat, calls: seq<Call>, p: Progress)
    requires Tidy(p, 1) && p.toolCallCount + |calls| <= MAX_TOOL_CALLS && AllReturn(w, iteration, calls)
    ensures var (run, q) := (RunCalls(w, iteration, calls), ConsumeFrom(p, RunCalls(w, iteration, calls).steps));
      && run.ok && Tidy(q, 1) && q.toolCallCount == p.toolCallCount + |calls|
      && q.invoked == p.invoked + calls && q.requests == p.requests
  {
    if calls != [] {
      var n := |calls| - 1;
      var (before, outcome) := (RunCalls(w, iteration, calls[..n]), w.tool(iteration, n, calls[n]));
      var q := ConsumeFrom(p, before.steps);
      BudgetSuffices(w, iteration, calls[..n], p);
      CallWithinBudget(q, calls[n], outcome);
      ConsumeAppend(p, before.steps, CallSteps(calls[n], outcome));
      assert p.invoked + calls[..n] + [calls[n]] == p.invoked + calls;
    }
  }

  lemma CallWithinBudget(p: Progress, call: Call, outcome: ToolOutcome)
    requires Tidy(p, 1) && p.toolCallCount < MAX_TOOL_CALLS && outcome.Returned?
    ensures var q := ConsumeFrom(p, CallSteps(call, outcome));
      && Tidy(q, 1) && q.toolCallCount == p.toolCallCount + 1
      && q.invoked == p.invoked + [call] && q.requests == p.requests
  {
    CallConsumed(p, call, outcome);
    OneCallMore(p, call, outcome);
  }

  lemma OneCallMore(p: Progress, call: Call, outcome: ToolOutcome)
    requires Tidy(p, 1)
    ensures var q := ConsumeFrom(p, CallSteps(call, outcome));
      && q.toolCallCount == p.toolCallCount + 1 && q.requests == p.requests && q.stepIndex == p.stepIndex
      && (q.capped <==> p.toolCallCount >= MAX_TOOL_CALLS)
      && q.invoked == if q.capped then p.invoked else p.invoked + [call]
  {
    ConsumeOne(p, ToolCall(call));
    if outcome.Returned? {
      var result := ResultOf(call, outcome);
      ConsumeAppend(p, [ToolCall(call)], [ToolDone(result)]);
      ConsumeOne(Consume(p, ToolCall(call)), ToolDone(result));
    }
  }

  lemma FifthCallCaps(w: World, iteration: nat, calls: seq<Call>, p: Progress)
    requires Tidy(p, 1) && p.toolCallCount == 0 && |calls| > MAX_TOOL_CALLS
    requires AllReturn(w, iteration, calls[..MAX_TOOL_CALLS])
    ensures var q := ConsumeFrom(p, RunCalls(w, iteration, calls).steps);
      && q.capped && q.invoked == p.invoked + calls[..MAX_TOOL_CALLS] && q.requests == p.requests
        && q.stepIndex == p.stepIndex
      && Dangling(q)
  {
    var (four, five, all) := (calls[..MAX_TOOL_CALLS], calls[..MAX_TOOL_CALLS + 1],
      RunCalls(w, iteration, calls).steps);
    var (call, steps) := (calls[MAX_TOOL_CALLS], RunCalls(w, iteration, four).steps);
    BudgetSuffices(w, iteration, four, p);
    assert five[..MAX_TOOL_CALLS] == four;
    var q := ConsumeFrom(p, steps);
    ConsumeAppend(p, steps, CallSteps(call, w.tool(iteration, MAX_TOOL_CALLS, call)));
    OneCallMore(q, call, w.tool(iteration, MAX_TOOL_CALLS, call));
    CallsBegin(w, iteration, calls, MAX_TOOL_CALLS + 1);
    var fifth := RunCalls(w, iteration, five).steps;
    StoppedEarly(p, fifth, all);
    CallsConsumed(w, iteration, calls, p);
  }

  /** A first turn that asks for five tools or more, the first four of which return, is cut before its
      usage is reported: four tools ran, a fifth has started for ever, and no turn is metered. */
  lemma {:induction false} FifthToolIsUnmetered(q: Question)
    requires q.world.turn(0, []).Turn?
    requires var calls := q.world.turn(0, []).calls;
      |calls| > MAX_TOOL_CALLS && AllReturn(q.world, 0, calls[..MAX_TOOL_CALLS])
    ensures var p := LoopOf(q);
      p.capped && p.requests == 1 && p.stepIndex == 0 && p.invoked == q.world.turn(0, []).calls[..MAX_TOOL_CALLS]
        && Dangling(p)
  {
    var start := Progress([], 0, "", 0, false, false, [], 0, []);
    var Turn(text, calls) := q.world.turn(0, []);
    TurnBegins(q);
    OpeningCounts(start, text);
    FifthCallCaps(q.world, 0, calls, ConsumeFrom(start, Opening([], text)));
    ConsumeAppend(start, Opening([], text), RunCalls(q.world, 0, calls).steps);
    StoppedEarly(start, Opening([], text) + RunCalls(q.world, 0, calls).steps, StepsOf(q));
  }

  lemma TurnBegins(q: Question)
    requires q.world.turn(0, []).Turn?
    ensures var turn := q.world.turn(0, []);
      Opening([], turn.text) + RunCalls(q.world, 0, turn.calls).steps <= StepsOf(q)
  {
    assert OneTurn(q.world, 0, []).steps <= StepsOf(q);
  }

  lemma StoppedEarly(p: Progress, steps: seq<Step>, all: seq<Step>)
    requires steps <= all && (ConsumeFrom(p, steps).capped || ConsumeFrom(p, steps).thrown)
    ensures ConsumeFrom(p, all) == ConsumeFrom(p, steps)
  {
    assert all == steps + all[|steps|..];
    ConsumeAppend(p, steps, all[|steps|..]);
    StoppedIgnores(ConsumeFrom(p, steps), all[|steps|..]);
  }

  lemma OpeningCounts(p: Progress, text: string)
    requires Tidy(p, 0)
    ensures var q := ConsumeFrom(p, Opening([], text));
      Tidy(q, 1) && q.requests == p.requests + 1 && q.stepIndex == p.stepIndex && q.invoked == p.invoked
        && q.toolCallCount == p.toolCallCount
  {
    OpeningConsumed(p, [], text);
    ConsumeOne(p, Request([]));
    if text != "" {
      ConsumeAppend(p, [Request([])], [AgentLoop.Text(text)]);
      ConsumeOne(ConsumeFrom(p, [Request([])]), AgentLoop.Text(text));
    } else {
      assert Opening([], text) == [Request([])];
    }
  }

  /** Such a question: a search asked for five times at once. */
  function FiveSearches(): Question {
    Question(World((iteration, results) => Turn("", seq(5, i => Call("id", "search"))),
                   (iteration, i, call) => Returned(false, "found"), iteration => true), true, Gives("one-shot"))
  }

  lemma {:induction false} FiveSearchesAreUnmetered()
    ensures var p := LoopOf(FiveSearches());
      p.requests == 1 && p.stepIndex == 0 && |p.invoked| == 4 && p.pushed != Pairs(p.results)
    ensures Produced(FiveSearches())[|Produced(FiveSearches())| - 1] == Answer("one-shot")
  {
    FifthToolIsUnmetered(FiveSearches());
  }

  /** `answer` is the last text among the steps; "" when there is none. */
  ghost predicate LastText(steps: seq<Step>, answer: string) {
    || (answer == "" && forall i :: 0 <= i < |steps| ==> !steps[i].Text?)
    || exists i :: 0 <= i < |steps| && steps[i] == AgentLoop.Text(answer) && NoTextAfter(steps, i)
  }

  ghost predicate NoTextAfter(steps: seq<Step>, i: nat) {
    forall j :: i < j < |steps| ==> !steps[j].Text?
  }

  lemma {:induction false} LastTextKept(steps: seq<Step>)
    ensures var p := ConsumeAll(steps); !p.capped && !p.thrown ==> LastText(steps, p.lastText)
  {
    if steps != [] {
      var n := |steps| - 1;
      LastTextKept(steps[..n]);
      if !ConsumeAll(steps).capped && !ConsumeAll(steps).thrown {
        LastTextSnoc(steps[..n], steps[n], ConsumeAll(steps[..n]).lastText);
        assert steps == steps[..n] + [steps[n]];
      }
    }
  }

  lemma LastTextSnoc(steps: seq<Step>, s: Step, answer: string)
    requires LastText(steps, answer)
    ensures LastText(steps + [s], if s.Text? then s.text else answer)
  {
    var all := steps + [s];
    if s.Text? {
      assert all[|steps|] == s && NoTextAfter(all, |steps|);
    } else if answer == "" && forall i :: 0 <= i < |steps| ==> !steps[i].Text? {
      assert forall i :: 0 <= i < |all| ==> !all[i].Text?;
    } else {
      var i :| 0 <= i < |steps| && steps[i] == AgentLoop.Text(answer) && NoTextAfter(steps, i);
      assert all[i] == AgentLoop.Text(answer) && NoTextAfter(all, i);
    }
  }

  /** The last event, read off the generator's steps: the agent's last text, when the tools came up, nothing
      was cut and there is one; in every other case what the one-shot answer gives. */
  lemma {:induction false} FinalEvent(q: Question)
    ensures var (events, steps) := (Produced(q), LoopFrom(q.world, 0, 6, []));
      var last := events[|events| - 1];
      if q.connects && ToolCalls(steps) <= 4 && Throws !in steps
        && (exists i :: 0 <= i < |steps| && steps[i].Text? && steps[i].text != "" && NoTextAfter(steps, i))
      then last.Answer? && LastText(steps, last.answer)
      else last == match q.oneShot case Gives(answer) => Answer(answer) case Rejects(message) => ErrorEvent(message)
  {
    var steps := StepsOf(q);
    CutExactly(steps);
    LastTextKept(steps);
    if LastText(steps, LoopOf(q).lastText) {
      OneLastText(steps, LoopOf(q).lastText);
    }
  }

  lemma OneLastText(steps: seq<Step>, answer: string)
    requires LastText(steps, answer)
    ensures answer != "" <==>
      exists i :: 0 <= i < |steps| && steps[i].Text? && steps[i].text != "" && NoTextAfter(steps, i)
  {
    if i :| 0 <= i < |steps| && steps[i] == AgentLoop.Text(answer) && NoTextAfter(steps, i) {
      forall j | 0 <= j < |steps| && steps[j].Text? && NoTextAfter(steps, j) ensures j == i {
      }
    }
  }

  /** The tool events of a question that is not cut: for each result in turn, a start and then `done`, or
      `failed` when the tool reported an error. */
  lemma {:induction false} ToolEvents(results: seq<ToolResult>)
    ensures |Pairs(results)| == 2 * |results|
    ensures forall i :: 0 <= i < |results| ==>
      && Pairs(results)[2 * i] == ToolStep(results[i].call.name, Started)
      && Pairs(results)[2 * i + 1] == ToolStep(results[i].call.name, if results[i].isError then Failed else Done)
  {
    if results != [] {
      var n := |results| - 1;
      ToolEvents(results[..n]);
      forall i | 0 <= i < |results|
        ensures Pairs(results)[2 * i] == ToolStep(results[i].call.name, Started)
        ensures Pairs(results)[2 * i + 1] == ToolStep(results[i].call.name, if results[i].isError then Failed else Done)
      {
        if i < n {
          assert Pairs(results)[2 * i] == Pairs(results[..n])[2 * i];
          assert Pairs(results)[2 * i + 1] == Pairs(results[..n])[2 * i + 1];
        }
      }
    }
  }

  /** In every interleaving of the loop's pushes, the close and the caller's reads, what has been
      yielded is a first part of the events, in order; and after the close the rest follows. */
  lemma {:induction false} AskYieldsEverything(q: Question, events: seq<Q.Event<Event>>, n: nat)
    requires Q.NoLatePush(events) && Q.Pushed(events) <= Produced(q)
    ensures Q.Run(events).yielded <= Produced(q)
    ensures Q.Closes(events) && Q.Pushed(events) == Produced(q) && n >= |Q.Run(events).items| + 2 ==>
      Q.Resumed(Q.Run(events), n).reader.Ended? && Q.Resumed(Q.Run(events), n).yielded == Produced(q)
  {
    Q.RunConserves(events);
    var s := Q.Run(events);
    assert s.yielded + Q.InFlight(s) + s.items == s.yielded + (Q.InFlight(s) + s.items);
    if Q.Closes(events) && Q.Pushed(events) == Produced(q) && n >= |s.items| + 2 {
      Q.ClosedDrains(s, Produced(q), n);
    }
  }
}
