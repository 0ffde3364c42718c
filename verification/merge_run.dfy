/** The life of one launched merge: the console sink, the stop button and
    the process listener. The sink is an append-only sequence of tagged
    lines; process output, stop presses and the exit notification are the
    events that drive it. */
module MergeRun {
  import opened Text

  /** `ConsoleViewContentType.SYSTEM_OUTPUT` versus `NORMAL_OUTPUT`. */
  datatype Tag = System | Normal

  /** What a console line says; the literal wording is not modelled, only
      its kind and the values it interpolates. */
  datatype Body =
    | Header(commandLine: string)                 // "执行命令: <command>"
    | Chunk(text: string)                         // one piece of process output
    | Stopped                                     // "⛔ 已终止执行"
    | Merged(current: string, target: string)     // "✅ 成功合并 current → target"
    | MergeFailed(exitCode: int)                  // "❌ 合并失败，退出码：code"

  datatype Line = Line(tag: Tag, body: Body)

  /** `handler.isProcessTerminated` is false while `Running`. */
  datatype Phase = Running | Terminated(exitCode: int)

  datatype RunState = RunState(
    current: string,
    target: string,
    phase: Phase,
    destroyRequested: bool,
    sink: seq<Line>)

  datatype Event =
    | Output(text: string)      // `onTextAvailable`
    | StopPressed               // the stop action's `actionPerformed`
    | Exit(code: int)           // `processTerminated`

  /** The state right after launch: running, and the header line naming the
      command, its tokens joined by single spaces, already printed. */
  function Start(current: string, target: string, command: seq<string>): RunState
  {
    RunState(current, target, Running, false, [Line(System, Header(Join(command, ' ')))])
  }

  /** The console header is the first line and, when no token contains a
      space, splitting it on spaces gives back exactly the command. */
  lemma HeaderNamesCommand(current: string, target: string, command: seq<string>)
    requires |command| > 0
    requires forall i :: 0 <= i < |command| ==> ' ' !in command[i]
    ensures Start(current, target, command).sink[0].tag == System
    ensures Start(current, target, command).sink[0].body.Header?
    ensures Split(Start(current, target, command).sink[0].body.commandLine, ' ') == command
  {
    SplitJoin(command, ' ');
  }

  /** The stop action's `update`: enabled exactly while not terminated. */
  predicate StopEnabled(s: RunState)
  {
    !s.phase.Terminated?
  }

  /** The line printed on termination, chosen by the exit code alone. */
  function ExitLine(current: string, target: string, code: int): (l: Line)
    ensures l.tag == System
    ensures l.body.Merged? <==> code == 0
    ensures l.body.Merged? ==> l.body.current == current && l.body.target == target
    ensures !l.body.Merged? ==> l.body == MergeFailed(code)
  {
    if code == 0 then Line(System, Merged(current, target))
    else Line(System, MergeFailed(code))
  }

  /** One event. The listener itself checks nothing: output is printed and
      exit is reported whatever the phase; only the stop action looks at
      whether the process has terminated. */
  function Step(s: RunState, e: Event): (t: RunState)
    ensures t.current == s.current && t.target == s.target
    ensures |s.sink| <= |t.sink| <= |s.sink| + 1 && t.sink[..|s.sink|] == s.sink
    ensures |t.sink| == |s.sink| <==> e.StopPressed? && !StopEnabled(s)
    ensures e.StopPressed? && !StopEnabled(s) ==> t == s
    ensures !e.Exit? ==> t.phase == s.phase
    ensures e.Exit? ==> t.phase == Terminated(e.code) && !StopEnabled(t)
    ensures e.StopPressed? ==> (t.destroyRequested <==> s.destroyRequested || StopEnabled(s))
    ensures !e.StopPressed? ==> t.destroyRequested == s.destroyRequested
    ensures |t.sink| > |s.sink| ==> (t.sink[|s.sink|].tag == Normal <==> e.Output?)
    ensures e.Output? ==> t.sink[|s.sink|].body == Chunk(e.text)
    ensures e.StopPressed? && StopEnabled(s) ==> t.sink[|s.sink|].body == Stopped
    ensures e.Exit? ==> t.sink[|s.sink|] == ExitLine(s.current, s.target, e.code)
  {
    match e
    case Output(text) =>
      s.(sink := s.sink + [Line(Normal, Chunk(text))])
    case StopPressed =>
      if StopEnabled(s) then s.(destroyRequested := true, sink := s.sink + [Line(System, Stopped)])
      else s
    case Exit(code) =>
      s.(phase := Terminated(code), sink := s.sink + [ExitLine(s.current, s.target, code)])
  }

  /** The state after a sequence of events, in delivery order. */
  function Run(s: RunState, events: seq<Event>): RunState
  {
    if |events| == 0 then s
    else Step(Run(s, events[..|events| - 1]), events[|events| - 1])
  }

  // Views of a sink and of an event sequence.

  /** The text of the process-output lines, in sink order. */
  function Chunks(lines: seq<Line>): seq<string>
  {
    if |lines| == 0 then []
    else
      var last := lines[|lines| - 1];
      Chunks(lines[..|lines| - 1]) + (if last.body.Chunk? then [last.body.text] else [])
  }

  /** Number of lines reporting the process's exit. */
  function ExitReports(lines: seq<Line>): nat
  {
    if |lines| == 0 then 0
    else
      var last := lines[|lines| - 1];
      ExitReports(lines[..|lines| - 1]) + (if last.body.Merged? || last.body.MergeFailed? then 1 else 0)
  }

  /** Number of "terminated by the user" lines. */
  function StopReports(lines: seq<Line>): nat
  {
    if |lines| == 0 then 0
    else StopReports(lines[..|lines| - 1]) + (if lines[|lines| - 1].body.Stopped? then 1 else 0)
  }

  /** The text of the output events, in delivery order. */
  function Outputs(events: seq<Event>): seq<string>
  {
    if |events| == 0 then []
    else
      var last := events[|events| - 1];
      Outputs(events[..|events| - 1]) + (if last.Output? then [last.text] else [])
  }

  function Exits(events: seq<Event>): nat
  {
    if |events| == 0 then 0
    else Exits(events[..|events| - 1]) + (if events[|events| - 1].Exit? then 1 else 0)
  }

  function Stops(events: seq<Event>): nat
  {
    if |events| == 0 then 0
    else Stops(events[..|events| - 1]) + (if events[|events| - 1].StopPressed? then 1 else 0)
  }

  predicate NoExit(events: seq<Event>)
  {
    forall i :: 0 <= i < |events| ==> !events[i].Exit?
  }

  /** The order the process handler delivers its own events in: nothing from
      the process after its exit. Stop presses come from the user and may
      fall anywhere. */
  predicate HandlerOrder(events: seq<Event>)
  {
    forall i, j :: 0 <= i < j < |events| && events[i].Exit? ==> events[j].StopPressed?
  }

  // Properties of runs.

  lemma ViewsSnoc(lines: seq<Line>, l: Line)
    ensures Chunks(lines + [l]) == Chunks(lines) + (if l.body.Chunk? then [l.body.text] else [])
    ensures StopReports(lines + [l]) == StopReports(lines) + (if l.body.Stopped? then 1 else 0)
    ensures ExitReports(lines + [l]) == ExitReports(lines) + (if l.body.Merged? || l.body.MergeFailed? then 1 else 0)
  {
    assert (lines + [l])[..|lines|] == lines;
  }

  /** What one event does to the three views of the sink. */
  lemma StepViews(s: RunState, e: Event)
    ensures Chunks(Step(s, e).sink) == Chunks(s.sink) + (if e.Output? then [e.text] else [])
    ensures StopReports(Step(s, e).sink) == StopReports(s.sink) + (if e.StopPressed? && StopEnabled(s) then 1 else 0)
    ensures ExitReports(Step(s, e).sink) == ExitReports(s.sink) + (if e.Exit? then 1 else 0)
  {
    match e
    case Output(text) => ViewsSnoc(s.sink, Line(Normal, Chunk(text)));
    case StopPressed =>
      if StopEnabled(s) {
        ViewsSnoc(s.sink, Line(System, Stopped));
      }
    case Exit(code) => ViewsSnoc(s.sink, ExitLine(s.current, s.target, code));
  }

  /** The sink only grows: what was printed stays, and the branches never change. */
  lemma {:induction false} RunAppendsOnly(s: RunState, events: seq<Event>)
    ensures Run(s, events).current == s.current && Run(s, events).target == s.target
    ensures |s.sink| <= |Run(s, events).sink| && Run(s, events).sink[..|s.sink|] == s.sink
  {
    if |events| > 0 {
      RunAppendsOnly(s, events[..|events| - 1]);
    }
  }

  /** Every output chunk reaches the sink, in arrival order, and nothing else
      is printed as process output. */
  lemma {:induction false} RunChunks(s: RunState, events: seq<Event>)
    ensures Chunks(Run(s, events).sink) == Chunks(s.sink) + Outputs(events)
  {
    if |events| > 0 {
      var init := events[..|events| - 1];
      RunChunks(s, init);
      StepViews(Run(s, init), events[|events| - 1]);
    }
  }

  /** Every exit event prints exactly one report, whatever preceded it. */
  lemma {:induction false} RunExitReports(s: RunState, events: seq<Event>)
    ensures ExitReports(Run(s, events).sink) == ExitReports(s.sink) + Exits(events)
  {
    if |events| > 0 {
      var init := events[..|events| - 1];
      RunExitReports(s, init);
      StepViews(Run(s, init), events[|events| - 1]);
    }
  }

  /** The run is still going exactly when it was and no exit event arrived. */
  lemma {:induction false} RunPhase(s: RunState, events: seq<Event>)
    ensures StopEnabled(Run(s, events)) <==> StopEnabled(s) && NoExit(events)
  {
    if |events| > 0 {
      var init := events[..|events| - 1];
      RunPhase(s, init);
      if !NoExit(init) {
        var i :| 0 <= i < |init| && init[i].Exit?;
        assert events[i].Exit?;
      }
    }
  }

  /** While the process runs, each stop press prints exactly one
      "terminated" line: two presses before the exit print two. */
  lemma {:induction false} RunStopReports(s: RunState, events: seq<Event>)
    requires StopEnabled(s)
    requires NoExit(events)
    ensures StopReports(Run(s, events).sink) == StopReports(s.sink) + Stops(events)
    ensures Stops(events) > 0 ==> Run(s, events).destroyRequested
  {
    if |events| > 0 {
      var init := events[..|events| - 1];
      assert NoExit(init) by {
        forall i | 0 <= i < |init| ensures !init[i].Exit? {
          assert init[i] == events[i];
        }
      }
      RunStopReports(s, init);
      RunPhase(s, init);
      StepViews(Run(s, init), events[|events| - 1]);
    }
  }

  /** Once terminated, stop presses change nothing at all. */
  lemma {:induction false} StopsAfterExitIgnored(s: RunState, presses: seq<Event>)
    requires !StopEnabled(s)
    requires forall i :: 0 <= i < |presses| ==> presses[i].StopPressed?
    ensures Run(s, presses) == s
  {
    if |presses| > 0 {
      StopsAfterExitIgnored(s, presses[..|presses| - 1]);
    }
  }

  /** Running a sequence in two parts is running it in one. */
  lemma {:induction false} RunConcat(s: RunState, a: seq<Event>, b: seq<Event>)
    ensures Run(s, a + b) == Run(Run(s, a), b)
  {
    if |b| > 0 {
      RunConcat(s, a, b[..|b| - 1]);
      assert (a + b)[..|a + b| - 1] == a + b[..|b| - 1];
    } else {
      assert a + b == a;
    }
  }

  /** The handler's delivery order allows at most one exit. */
  lemma {:induction false} HandlerOrderExitsAtMostOnce(events: seq<Event>)
    requires HandlerOrder(events)
    ensures Exits(events) <= 1
    ensures Exits(events) == 0 <==> NoExit(events)
  {
    if |events| > 0 {
      var init := events[..|events| - 1];
      assert HandlerOrder(init) by {
        forall i, j | 0 <= i < j < |init| && init[i].Exit? ensures init[j].StopPressed? {
          assert init[i] == events[i] && init[j] == events[j];
        }
      }
      HandlerOrderExitsAtMostOnce(init);
      if !NoExit(init) {
        var i :| 0 <= i < |init| && init[i].Exit?;
        assert events[i].Exit?;
      }
    }
  }

  /** Every trace in handler order that holds an exit splits at its first
      exit into exit-free events, the exit, and stop presses only. */
  lemma HandlerOrderSplit(events: seq<Event>) returns (k: nat)
    requires HandlerOrder(events)
    requires !NoExit(events)
    ensures k < |events| && events[k].Exit?
    ensures NoExit(events[..k])
    ensures forall i :: k < i < |events| ==> events[i].StopPressed?
    ensures events == events[..k] + [Exit(events[k].code)] + events[k + 1..]
  {
    var j :| 0 <= j < |events| && events[j].Exit?;
    k := 0;
    while k < j && !events[k].Exit?
      invariant k <= j
      invariant forall i :: 0 <= i < k ==> !events[i].Exit?
    {
      k := k + 1;
    }
    assert NoExit(events[..k]) by {
      forall i | 0 <= i < k ensures !events[..k][i].Exit? {
        assert events[..k][i] == events[i];
      }
    }
    assert events == events[..k] + [events[k]] + events[k + 1..];
  }

  /** Whatever the handler delivers, a trace with an exit ends the run with
      that exit's single report and disables the stop button. */
  lemma HandlerRunCompletes(current: string, target: string, command: seq<string>, events: seq<Event>)
      returns (code: int)
    requires HandlerOrder(events)
    requires !NoExit(events)
    ensures Exit(code) in events
    ensures var t := Run(Start(current, target, command), events);
      && |t.sink| >= 2
      && ExitReports(t.sink) == 1
      && t.sink[|t.sink| - 1] == ExitLine(current, target, code)
      && t.phase == Terminated(code)
  {
    var k := HandlerOrderSplit(events);
    code := events[k].code;
    var before, after := events[..k], events[k + 1..];
    assert forall i :: 0 <= i < |after| ==> after[i] == events[k + 1 + i];
    CompletedRun(current, target, command, before, code, after);
  }

  /** A whole run as the handler delivers it: output and stop presses, then
      the exit, then possibly more presses on the disabled button. The sink
      opens with the command header, holds every chunk in order, one
      "terminated" line per press before the exit, and ends with the one
      exit report. */
  lemma CompletedRun(current: string, target: string, command: seq<string>,
                     before: seq<Event>, code: int, after: seq<Event>)
    requires NoExit(before)
    requires forall i :: 0 <= i < |after| ==> after[i].StopPressed?
    ensures var t := Run(Start(current, target, command), before + [Exit(code)] + after);
      && |t.sink| >= 2
      && t.sink[0] == Line(System, Header(Join(command, ' ')))
      && Chunks(t.sink) == Outputs(before)
      && StopReports(t.sink) == Stops(before)
      && ExitReports(t.sink) == 1
      && t.sink[|t.sink| - 1] == ExitLine(current, target, code)
      && t.phase == Terminated(code)
      && !StopEnabled(t)
  {
    var s0 := Start(current, target, command);
    var mid := Run(s0, before);
    BeforeExit(current, target, command, before);
    ExitThenPresses(mid, code, after);
    RunConcat(s0, before, [Exit(code)] + after);
    assert before + [Exit(code)] + after == before + ([Exit(code)] + after);
    var t := Step(mid, Exit(code));
    assert Run(s0, before + [Exit(code)] + after) == t;
    ExitStepViews(mid, code);
    assert t.sink[0] == mid.sink[0];
  }

  /** Up to the exit: header first, chunks and stop lines as delivered, no
      exit report yet, still running. */
  lemma BeforeExit(current: string, target: string, command: seq<string>, before: seq<Event>)
    requires NoExit(before)
    ensures var m := Run(Start(current, target, command), before);
      && m.current == current && m.target == target
      && |m.sink| >= 1
      && m.sink[0] == Line(System, Header(Join(command, ' ')))
      && Chunks(m.sink) == Outputs(before)
      && StopReports(m.sink) == Stops(before)
      && ExitReports(m.sink) == 0
      && StopEnabled(m)
  {
    var s0 := Start(current, target, command);
    RunAppendsOnly(s0, before);
    RunChunks(s0, before);
    RunStopReports(s0, before);
    RunExitReports(s0, before);
    RunPhase(s0, before);
    assert s0.sink[..0] == [];
    assert Exits(before) == 0 by {
      NoExitCountsZero(before);
    }
  }

  lemma {:induction false} NoExitCountsZero(events: seq<Event>)
    requires NoExit(events)
    ensures Exits(events) == 0
  {
    if |events| > 0 {
      var init := events[..|events| - 1];
      assert forall i :: 0 <= i < |init| ==> init[i] == events[i];
      NoExitCountsZero(init);
    }
  }

  /** The exit step adds the report and leaves the other views alone. */
  lemma ExitStepViews(m: RunState, code: int)
    ensures var t := Step(m, Exit(code));
      && |t.sink| == |m.sink| + 1
      && t.sink[..|m.sink|] == m.sink
      && Chunks(t.sink) == Chunks(m.sink)
      && StopReports(t.sink) == StopReports(m.sink)
      && ExitReports(t.sink) == ExitReports(m.sink) + 1
  {
    StepViews(m, Exit(code));
  }

  /** After the exit, the remaining presses are ignored. */
  lemma ExitThenPresses(m: RunState, code: int, after: seq<Event>)
    requires forall i :: 0 <= i < |after| ==> after[i].StopPressed?
    ensures Run(m, [Exit(code)] + after) == Step(m, Exit(code))
  {
    RunConcat(m, [Exit(code)], after);
    assert [Exit(code)][..0] == [];
    StopsAfterExitIgnored(Step(m, Exit(code)), after);
  }

  /** A user stop does not produce an outcome of its own: it prints its line,
      and the exit that follows is reported by code as usual, a failure for
      any nonzero code and a success for zero. */
  lemma StopThenExit(s: RunState, code: int)
    requires StopEnabled(s)
    ensures Run(s, [StopPressed, Exit(code)]).sink
      == s.sink + [Line(System, Stopped), ExitLine(s.current, s.target, code)]
    ensures code != 0 ==> Run(s, [StopPressed, Exit(code)]).sink[|s.sink| + 1].body == MergeFailed(code)
  {
    var events := [StopPressed, Exit(code)];
    assert events[..1] == [StopPressed];
    assert events[..1][..0] == [];
    var stopped := Step(s, StopPressed);
    assert Run(s, events[..1]) == stopped;
    assert stopped.sink == s.sink + [Line(System, Stopped)];
    assert Run(s, events) == Step(stopped, Exit(code));
  }

  /** A process that exits with no output: the header, then the report. */
  lemma ExitRightAfterStart(current: string, target: string, command: seq<string>, code: int)
    ensures Run(Start(current, target, command), [Exit(code)]).sink
      == [ Line(System, Header(Join(command, ' '))),
           Line(System, if code == 0 then Merged(current, target) else MergeFailed(code)) ]
  {
    assert [Exit(code)][..0] == [];
  }
}
