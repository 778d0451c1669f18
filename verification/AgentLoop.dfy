/** The agent loop: `runAgentLoop` of `packages/llm/src/router.ts`.  What the model, the tools and the
    usage sink do is a parameter; each of them may throw.  */
module AgentLoop {

  datatype Call = Call(id: string, name: string)

  datatype ToolResult = ToolResult(call: Call, isError: bool, content: string)

  datatype Turn = Turn(text: string, calls: seq<Call>) | TurnThrows

  datatype ToolOutcome = Returned(isError: bool, content: string) | ToolThrows

  datatype World = World(
    turn: (nat, seq<ToolResult>) -> Turn,
    tool: (nat, nat, Call) -> ToolOutcome,           // by iteration, position among its calls, and call
    metered: nat -> bool)                          // the usage sink accepts the turn

  // ---------------------------------------------------------------------------
  // Router.runAgentLoop
  // ---------------------------------------------------------------------------

  /** What the generator does, in order.  After `ToolCall` it invokes the tool, if it is resumed. */
  datatype Step =
    | Request(results: seq<ToolResult>)
    | Text(text: string)
    | ToolCall(call: Call)
    | ToolDone(result: ToolResult)
    | Usage
    | Throws

  datatype Calls = Calls(steps: seq<Step>, results: seq<ToolResult>, ok: bool)

  /** The calls of one turn, up to the first tool that throws. */
  function RunCalls(w: World, iteration: nat, calls: seq<Call>): Calls {
    if calls == [] then Calls([], [], true)
    else
      var before := RunCalls(w, iteration, calls[..|calls| - 1]);
      var call := calls[|calls| - 1];
      if !before.ok then before
      else
        var outcome := w.tool(iteration, |calls| - 1, call);
        Calls(before.steps + CallSteps(call, outcome),
              before.results + if outcome.Returned? then [ResultOf(call, outcome)] else [],
              outcome.Returned?)
  }

  function ResultOf(call: Call, outcome: ToolOutcome): ToolResult
    requires outcome.Returned?
  {
    ToolResult(call, outcome.isError, outcome.content)
  }

  function CallSteps(call: Call, outcome: ToolOutcome): seq<Step> {
    [ToolCall(call)] + if outcome.Returned? then [ToolDone(ResultOf(call, outcome))] else []
  }

  function Opening(results: seq<ToolResult>, text: string): seq<Step> {
    [Request(results)] + if text == "" then [] else [Text(text)]
  }

  /** One iteration: its steps, and the results for the next when there is one. */
  datatype TurnRun = TurnRun(steps: seq<Step>, results: seq<ToolResult>, more: bool)

  function OneTurn(w: World, iteration: nat, results: seq<ToolResult>): TurnRun {
    match w.turn(iteration, results)
    case TurnThrows => TurnRun([Request(results), Throws], [], false)
    case Turn(text, calls) =>
      var run := RunCalls(w, iteration, calls);
      if run.ok && w.metered(iteration)
        then TurnRun(Opening(results, text) + run.steps + [Usage], run.results, calls != [])
      else TurnRun(Opening(results, text) + run.steps + [Throws], [], false)
  }

  function LoopFrom(w: World, iteration: nat, max: nat, results: seq<ToolResult>): seq<Step>
    decreases max - iteration
  {
    if iteration >= max then []
    else
      var turn := OneTurn(w, iteration, results);
      turn.steps + if turn.more then LoopFrom(w, iteration + 1, max, turn.results) else []
  }

  /** `for (const call of result.toolCalls)` */
  method InvokeTools(w: World, iteration: nat, calls: seq<Call>)
    returns (steps: seq<Step>, results: seq<ToolResult>, ok: bool)
    ensures Calls(steps, results, ok) == RunCalls(w, iteration, calls)
  {
    steps, results, ok := [], [], true;
    for i := 0 to |calls|
      invariant ok && Calls(steps, results, ok) == RunCalls(w, iteration, calls[..i])
    {
      assert calls[..i + 1][..i] == calls[..i];
      var call := calls[i];
      ghost var before := steps;
      steps := steps + [ToolCall(call)];
      var outcome := w.tool(iteration, i, call);
      if outcome.ToolThrows? {
        assert steps == before + CallSteps(call, outcome);
        ok := false;
        ThrowEndsCalls(w, iteration, calls, i + 1);
        return;
      }
      var result := ResultOf(call, outcome);
      steps := steps + [ToolDone(result)];
      assert steps == before + CallSteps(call, outcome);
      results := results + [result];
    }
    assert calls[..|calls|] == calls;
  }

  lemma {:induction false} ThrowEndsCalls(w: World, iteration: nat, calls: seq<Call>, n: nat)
    requires n <= |calls| && !RunCalls(w, iteration, calls[..n]).ok
    ensures RunCalls(w, iteration, calls) == RunCalls(w, iteration, calls[..n])
    decreases |calls|
  {
    if n < |calls| {
      assert calls[..|calls| - 1][..n] == calls[..n];
      ThrowEndsCalls(w, iteration, calls[..|calls| - 1], n);
    } else {
      assert calls[..n] == calls;
    }
  }

  method RunTurn(w: World, iteration: nat, toolResults: seq<ToolResult>)
    returns (steps: seq<Step>, nextToolResults: seq<ToolResult>, more: bool)
    ensures TurnRun(steps, nextToolResults, more) == OneTurn(w, iteration, toolResults)
  {
    steps := [Request(toolResults)];
    var result := w.turn(iteration, toolResults);
    if result.TurnThrows? {
      return steps + [Throws], [], false;
    }
    if result.text != "" {
      steps := steps + [Text(result.text)];
    }
    var callSteps, results, ok := InvokeTools(w, iteration, result.calls);
    steps := steps + callSteps;
    if !ok || !w.metered(iteration) {
      return steps + [Throws], [], false;
    }
    return steps + [Usage], results, result.calls != [];
  }

  /** `runAgentLoop`, run to its end. */
  method RunAgentLoop(w: World, maxIterations: nat) returns (steps: seq<Step>)
    ensures steps == LoopFrom(w, 0, maxIterations, [])
  {
    ghost var all := LoopFrom(w, 0, maxIterations, []);
    steps := [];
    var toolResults: seq<ToolResult> := [];
    var more := true;
    for iteration := 0 to maxIterations
      invariant more && all == steps + LoopFrom(w, iteration, maxIterations, toolResults)
    {
      LoopUnfolds(w, iteration, maxIterations, toolResults, steps);
      var turnSteps;
      turnSteps, toolResults, more := RunTurn(w, iteration, toolResults);
      steps := steps + turnSteps;
      if !more {
        return;
      }
    }
  }

  lemma LoopUnfolds(w: World, iteration: nat, max: nat, results: seq<ToolResult>, before: seq<Step>)
    requires iteration < max
    ensures var turn := OneTurn(w, iteration, results);
      before + LoopFrom(w, iteration, max, results) ==
      if turn.more then before + turn.steps + LoopFrom(w, iteration + 1, max, turn.results) else before + turn.steps
  {
  }

  // ---------------------------------------------------------------------------
  // Each turn answers the calls of the one before
  // ---------------------------------------------------------------------------

  /** Running account: the requests so far, the calls since the last one, and whether every request
      carried one result for each call since the request before it, in their order. */
  datatype Account = Account(requests: nat, since: seq<Call>, answered: bool)

  function Asked(results: seq<ToolResult>): seq<Call> {
    if results == [] then [] else Asked(results[..|results| - 1]) + [results[|results| - 1].call]
  }

  function Note(a: Account, s: Step): Account {
    match s
    case Request(results) => Account(a.requests + 1, [], a.answered && Asked(results) == a.since)
    case ToolCall(call) => a.(since := a.since + [call])
    case _ => a
  }

  function Audit(a: Account, steps: seq<Step>): Account {
    if steps == [] then a else Note(Audit(a, steps[..|steps| - 1]), steps[|steps| - 1])
  }

  lemma AuditSnoc(a: Account, steps: seq<Step>, s: Step)
    ensures Audit(a, steps + [s]) == Note(Audit(a, steps), s)
  {
    assert (steps + [s])[..|steps|] == steps;
  }

  lemma {:induction false} AuditAppend(a: Account, steps: seq<Step>, more: seq<Step>)
    ensures Audit(a, steps + more) == Audit(Audit(a, steps), more)
  {
    if more == [] {
      assert steps + more == steps;
    } else {
      var init, last := more[..|more| - 1], more[|more| - 1];
      AuditAppend(a, steps, init);
      AuditSnoc(a, steps + init, last);
      assert steps + more == steps + init + [last];
    }
  }

  /** Running these calls asked nothing, and the results, if all ran, are for exactly them. */
  ghost predicate Answers(a: Account, calls: seq<Call>, run: Calls) {
    var b := Audit(a, run.steps);
    b.requests == a.requests && b.answered == a.answered && (run.ok ==> Asked(run.results) == b.since == calls)
  }

  lemma {:induction false} CallsAnswered(w: World, iteration: nat, a: Account, calls: seq<Call>)
    requires a.since == []
    ensures Answers(a, calls, RunCalls(w, iteration, calls))
  {
    if calls != [] {
      var n := |calls| - 1;
      CallsAnswered(w, iteration, a, calls[..n]);
      if RunCalls(w, iteration, calls[..n]).ok {
        OneMoreAnswered(a, calls[..n], RunCalls(w, iteration, calls[..n]), calls[n], w.tool(iteration, n, calls[n]));
        assert calls[..n] + [calls[n]] == calls;
      }
    }
  }

  lemma OneMoreAnswered(a: Account, calls: seq<Call>, before: Calls, call: Call, outcome: ToolOutcome)
    requires Answers(a, calls, before) && before.ok
    ensures Answers(a, calls + [call],
                    Calls(before.steps + CallSteps(call, outcome),
                          before.results + if outcome.Returned? then [ResultOf(call, outcome)] else [],
                          outcome.Returned?))
  {
    AuditAppend(a, before.steps, CallSteps(call, outcome));
    CallAudited(Audit(a, before.steps), call, outcome);
    AskedSnoc(before.results, call, outcome);
  }

  lemma CallAudited(a: Account, call: Call, outcome: ToolOutcome)
    ensures Audit(a, CallSteps(call, outcome)) == a.(since := a.since + [call])
  {
    AuditSnoc(a, [], ToolCall(call));
    assert [] + [ToolCall(call)] == [ToolCall(call)];
    if outcome.Returned? {
      AuditSnoc(a, [ToolCall(call)], ToolDone(ResultOf(call, outcome)));
    }
  }

  lemma AskedSnoc(results: seq<ToolResult>, call: Call, outcome: ToolOutcome)
    ensures outcome.Returned? ==> Asked(results + [ResultOf(call, outcome)]) == Asked(results) + [call]
  {
  }

  lemma OpeningAudited(a: Account, results: seq<ToolResult>, text: string)
    ensures Audit(a, Opening(results, text)) == Note(a, Request(results))
  {
    AuditSnoc(a, [], Request(results));
    assert [] + [Request(results)] == [Request(results)];
    if text != "" {
      AuditSnoc(a, [Request(results)], Text(text));
    }
  }

  lemma TurnAudited(a: Account, results: seq<ToolResult>, text: string, steps: seq<Step>, last: Step)
    requires last.Usage? || last.Throws?
    ensures Audit(a, Opening(results, text) + steps + [last]) == Audit(Note(a, Request(results)), steps)
  {
    OpeningAudited(a, results, text);
    AuditAppend(a, Opening(results, text), steps);
    AuditSnoc(a, Opening(results, text) + steps, last);
  }

  lemma TurnAnswered(w: World, iteration: nat, a: Account, results: seq<ToolResult>)
    requires a.answered && a.since == Asked(results)
    ensures var turn := OneTurn(w, iteration, results);
      var b := Audit(a, turn.steps);
      b.requests == a.requests + 1 && b.answered && (turn.more ==> b.since == Asked(turn.results))
  {
    match w.turn(iteration, results)
    case TurnThrows =>
      TurnAudited(a, results, "", [], Throws);
      assert [Request(results), Throws] == Opening(results, "") + [] + [Throws];
    case Turn(text, calls) =>
      var run := RunCalls(w, iteration, calls);
      CallsAnswered(w, iteration, Note(a, Request(results)), calls);
      TurnAudited(a, results, text, run.steps, Usage);
      TurnAudited(a, results, text, run.steps, Throws);
  }

  lemma {:induction false} LoopAnswered(w: World, iteration: nat, max: nat, results: seq<ToolResult>, a: Account)
    requires a.answered && a.since == Asked(results) && iteration <= max
    ensures var b := Audit(a, LoopFrom(w, iteration, max, results));
      b.answered && b.requests <= a.requests + max - iteration
    decreases max - iteration
  {
    if iteration < max {
      var turn := OneTurn(w, iteration, results);
      TurnAnswered(w, iteration, a, results);
      if turn.more {
        var rest := LoopFrom(w, iteration + 1, max, turn.results);
        LoopAnswered(w, iteration + 1, max, turn.results, Audit(a, turn.steps));
        AuditAppend(a, turn.steps, rest);
      } else {
        assert LoopFrom(w, iteration, max, results) == turn.steps;
      }
    }
  }

  /** Whatever the provider does: at most `max` requests, and each carries exactly the results of
      the calls of the turn before, same ids, same order. */
  lemma {:induction false} AgentLoopAnswers(w: World, max: nat)
    ensures var b := Audit(Account(0, [], true), LoopFrom(w, 0, max, [])); b.answered && b.requests <= max
  {
    LoopAnswered(w, 0, max, [], Account(0, [], true));
  }

  // ---------------------------------------------------------------------------
  // What is handed back
  // ---------------------------------------------------------------------------

  /** When all calls of a turn return, the results are what the tools said, call by call. */
  lemma {:induction false} ResultsAreOutcomes(w: World, iteration: nat, calls: seq<Call>)
    ensures var run := RunCalls(w, iteration, calls);
      && (run.ok <==> forall i :: 0 <= i < |calls| ==> w.tool(iteration, i, calls[i]) != ToolThrows)
      && (run.ok ==>
            && |run.results| == |calls|
            && forall i :: 0 <= i < |calls| ==>
                 && run.results[i].call == calls[i]
                 && w.tool(iteration, i, calls[i]) == Returned(run.results[i].isError, run.results[i].content))
  {
    if calls != [] {
      var n := |calls| - 1;
      ResultsAreOutcomes(w, iteration, calls[..n]);
      if !RunCalls(w, iteration, calls[..n]).ok {
        var i :| 0 <= i < n && w.tool(iteration, i, calls[..n][i]) == ToolThrows;
        assert calls[i] == calls[..n][i];
      }
    }
  }

  /** A turn whose calls all return, and that is metered, is followed by a request that carries exactly what
      the tools said, if it asked for any. */
  lemma {:induction false} NextRequestCarriesOutcomes(w: World, iteration: nat, max: nat, results: seq<ToolResult>)
    requires iteration + 1 < max && w.turn(iteration, results).Turn? && w.metered(iteration)
    requires var calls := w.turn(iteration, results).calls;
      calls != [] && forall i :: 0 <= i < |calls| ==> w.tool(iteration, i, calls[i]) != ToolThrows
    ensures var (calls, steps) := (w.turn(iteration, results).calls, OneTurn(w, iteration, results).steps);
      exists next: seq<ToolResult> ::
        && |next| == |calls|
        && (forall i :: 0 <= i < |calls| ==>
              && next[i].call == calls[i]
              && w.tool(iteration, i, calls[i]) == Returned(next[i].isError, next[i].content))
        && steps + [Request(next)] <= LoopFrom(w, iteration, max, results)
  {
    var calls := w.turn(iteration, results).calls;
    ResultsAreOutcomes(w, iteration, calls);
    var next := RunCalls(w, iteration, calls).results;
    var turn := OneTurn(w, iteration, results);
    assert turn.more && turn.results == next;
    BeginsWithRequest(w, iteration + 1, max, next);
    assert turn.steps + [Request(next)] <= turn.steps + LoopFrom(w, iteration + 1, max, next);
  }

  lemma BeginsWithRequest(w: World, iteration: nat, max: nat, results: seq<ToolResult>)
    requires iteration < max
    ensures [Request(results)] <= LoopFrom(w, iteration, max, results)
  {
    assert [Request(results)] <= OneTurn(w, iteration, results).steps;
  }
}
