/**
  The command console (`CommandConsole` in src/components/CommandConsole.tsx) as a state
  machine over the input line, the response log, the command log and the position in the
  command log that the arrow keys have reached (-1 when not navigating). Every submitted line
  goes to the keyword interpreter. Notifications are modelled as the value that decides them;
  rendering, focus and scrolling are not modelled.
 */
module Console {
  import opened Options
  import opened Text
  import opened Responses
  import Keywords

  datatype State = State(input: string, responses: seq<Response>, commands: seq<string>, index: int)

  /** The state the component mounts with. */
  const Initial := State("", [], [], -1)

  /** The navigation position is -1 or a position counted back from the newest command. */
  predicate Valid(s: State) {
    -1 <= s.index <= |s.commands| - 1
  }

  /** What the user can do: type, press Enter (or click Execute), press an arrow key, press
      any other key, or click the clear button. */
  datatype Event = Typed(text: string) | Enter | ArrowUp | ArrowDown | OtherKey | ClearButton

  /** A notification as the toast shows it. */
  datatype Notice = Notice(title: string, description: string, destructive: bool)

  datatype Outcome = Outcome(state: State, notice: Option<Notice>)

  /** The notification raised after a command: only errors and warnings raise one, and only an
      error's is destructive. */
  function Notify(r: Response): (n: Option<Notice>)
    ensures n.Some? <==> r.status == Error || r.status == Warning
    ensures n.Some? ==> n.value.description == r.message
    ensures n.Some? ==> (n.value.destructive <==> r.status == Error)
    ensures n.Some? ==> (n.value.title == "Command Error" <==> r.status == Error)
  {
    if r.status == Error || r.status == Warning then
      Some(Notice(if r.status == Error then "Command Error" else "Command Warning", r.message,
                  r.status == Error))
    else None
  }

  /** The response the console appends for a line, which it trims before evaluating. */
  function Answer(line: string): Response {
    Keywords.Process(Trim(line))
  }

  /** `handleSendCommand`: a blank line changes nothing; any other line is trimmed, evaluated and
      appended to both logs, and the input and the navigation position are reset. */
  function Submit(s: State): (o: Outcome)
    ensures Trim(s.input) == [] ==> o == Outcome(s, None)
    ensures Trim(s.input) != [] ==>
              && o.state.commands == s.commands + [Trim(s.input)]
              && o.state.responses == s.responses + [Answer(s.input)]
              && o.state.input == "" && o.state.index == -1
              && o.notice == Notify(Answer(s.input))
  {
    var line := Trim(s.input);
    if line == [] then Outcome(s, None)
    else
      var r := Keywords.Process(line);
      Outcome(State("", s.responses + [r], s.commands + [line], -1), Notify(r))
  }

  /** ArrowUp: one step back to an older command, loading it; a no-op at the oldest one. */
  function Up(s: State): (t: State)
    requires Valid(s)
    ensures Valid(t)
    ensures t.responses == s.responses && t.commands == s.commands
    ensures s.index < |s.commands| - 1 ==>
              t.index == s.index + 1 && t.input == s.commands[|s.commands| - 1 - t.index]
    ensures s.index == |s.commands| - 1 ==> t == s
  {
    if s.index < |s.commands| - 1 then
      var i := s.index + 1;
      s.(index := i, input := s.commands[|s.commands| - 1 - i])
    else s
  }

  /** ArrowDown: one step forward to a newer command, loading it; from the newest it leaves
      navigation with an empty line; a no-op when not navigating. */
  function Down(s: State): (t: State)
    requires Valid(s)
    ensures Valid(t)
    ensures t.responses == s.responses && t.commands == s.commands
    ensures s.index > 0 ==> t.index == s.index - 1 && t.input == s.commands[|s.commands| - 1 - t.index]
    ensures s.index == 0 ==> t.index == -1 && t.input == ""
    ensures s.index == -1 ==> t == s
  {
    if s.index > 0 then
      var i := s.index - 1;
      s.(index := i, input := s.commands[|s.commands| - 1 - i])
    else if s.index == 0 then s.(index := -1, input := "")
    else s
  }

  /** `clearConsole`: empties the response log only; the command log, the navigation position
      and the input stay, and a fixed notice is raised. */
  function Clear(s: State): (o: Outcome)
    ensures o.state.responses == []
    ensures o.state.commands == s.commands && o.state.index == s.index && o.state.input == s.input
    ensures o.notice.Some? && !o.notice.value.destructive
  {
    Outcome(s.(responses := []), Some(Notice("Console Cleared", "Command history has been cleared", false)))
  }

  /** One user event. Every event keeps the navigation position valid. */
  function Step(s: State, e: Event): (o: Outcome)
    requires Valid(s)
    ensures Valid(o.state)
    ensures e.OtherKey? ==> o == Outcome(s, None)
    ensures e.Typed? ==> o == Outcome(s.(input := e.text), None)
  {
    match e
    case Typed(text) => Outcome(s.(input := text), None)
    case Enter => Submit(s)
    case ArrowUp => Outcome(Up(s), None)
    case ArrowDown => Outcome(Down(s), None)
    case OtherKey => Outcome(s, None)
    case ClearButton => Clear(s)
  }

  /** The state after a sequence of events; every state reached from a valid one is valid. */
  function Run(s: State, events: seq<Event>): (t: State)
    requires Valid(s)
    ensures Valid(t)
    ensures |t.commands| >= |s.commands|
    decreases |events|
  {
    if events == [] then s else Run(Step(s, events[0]).state, events[1..])
  }

  // ---------------------------------------------------------------- navigation

  /** `k` presses of one arrow key. */
  function Ups(s: State, k: nat): (t: State)
    requires Valid(s)
    ensures Valid(t) && t.commands == s.commands && t.responses == s.responses
    decreases k
  {
    if k == 0 then s else Ups(Up(s), k - 1)
  }

  function Downs(s: State, k: nat): (t: State)
    requires Valid(s)
    ensures Valid(t) && t.commands == s.commands && t.responses == s.responses
    decreases k
  {
    if k == 0 then s else Downs(Down(s), k - 1)
  }

  function Min(a: int, b: int): int {
    if a <= b then a else b
  }

  /** `k` ArrowUps climb `k` entries back, stopping at the oldest. */
  lemma {:induction false} UpsClimb(s: State, k: nat)
    requires Valid(s)
    ensures Ups(s, k).index == Min(s.index + k, |s.commands| - 1)
    decreases k
  {
    if k > 0 {
      UpsClimb(Up(s), k - 1);
    }
  }

  /** `k` ArrowDowns from a navigating position come back `k` entries, and once they get past
      the newest entry navigation has ended with an empty line. */
  lemma {:induction false} DownsDescend(s: State, k: nat)
    requires Valid(s) && s.index >= 0
    ensures Downs(s, k).index == if k <= s.index then s.index - k else -1
    ensures k > s.index ==> Downs(s, k).input == ""
    decreases k
  {
    if k > 0 {
      if s.index == 0 {
        assert Down(s).index == -1 && Down(s).input == "";
        NeutralStaysPut(Down(s), k - 1);
      } else {
        DownsDescend(Down(s), k - 1);
      }
    }
  }

  /** Outside navigation, ArrowDown does nothing. */
  lemma {:induction false} NeutralStaysPut(s: State, k: nat)
    requires Valid(s) && s.index == -1
    ensures Downs(s, k) == s
    decreases k
  {
    if k > 0 {
      NeutralStaysPut(Down(s), k - 1);
    }
  }

  /** From outside navigation with at least one command logged, any number of ArrowUps followed
      by as many ArrowDowns ends outside navigation with an empty line, both logs untouched. */
  lemma UpsThenDownsReturn(s: State, k: nat)
    requires Valid(s) && s.index == -1 && |s.commands| >= 1 && k >= 1
    ensures var t := Downs(Ups(s, k), k);
      t.index == -1 && t.input == "" && t.commands == s.commands && t.responses == s.responses
  {
    UpsClimb(s, k);
    DownsDescend(Ups(s, k), k);
  }

  // ---------------------------------------------------------------- the two logs

  /** Each logged response is the keyword interpreter's answer to the command logged at the same
      position. */
  predicate Consistent(s: State) {
    Answers(s.responses, s.commands)
  }

  predicate Answers(responses: seq<Response>, commands: seq<string>) {
    |responses| == |commands| &&
    forall i :: 0 <= i < |responses| ==> responses[i] == Keywords.Process(commands[i])
  }

  /** The mounted console is outside navigation with both logs empty, hence in step. */
  lemma InitialValid()
    ensures Valid(Initial) && Consistent(Initial)
  {
  }

  /** Logging a command together with its answer keeps the logs in step. */
  lemma AnswersGrow(responses: seq<Response>, commands: seq<string>, line: string)
    requires Answers(responses, commands)
    ensures Answers(responses + [Keywords.Process(line)], commands + [line])
  {
    var rs, cs := responses + [Keywords.Process(line)], commands + [line];
    forall i | 0 <= i < |rs| ensures rs[i] == Keywords.Process(cs[i]) {
      if i < |responses| {
        assert rs[i] == responses[i] && cs[i] == commands[i];
      }
    }
  }

  /** Every event except the clear button keeps the two logs in step. */
  lemma StepKeepsLogsInStep(s: State, e: Event)
    requires Valid(s) && Consistent(s) && !e.ClearButton?
    ensures Consistent(Step(s, e).state)
  {
    if e.Enter? && Trim(s.input) != [] {
      AnswersGrow(s.responses, s.commands, Trim(s.input));
    }
  }

  /** A session that never clicks the clear button, started from the mounted state, shows every
      command's answer next to it. */
  lemma {:induction false} RunWithoutClearKeepsLogsInStep(s: State, events: seq<Event>)
    requires Valid(s) && Consistent(s)
    requires forall i :: 0 <= i < |events| ==> !events[i].ClearButton?
    ensures Consistent(Run(s, events))
    decreases |events|
  {
    if events != [] {
      StepKeepsLogsInStep(s, events[0]);
      RunWithoutClearKeepsLogsInStep(Step(s, events[0]).state, events[1..]);
    }
  }

  /** Clearing with at least one command logged leaves the two logs out of step. */
  lemma ClearBreaksLogs(s: State)
    requires |s.commands| >= 1
    ensures !Consistent(Clear(s).state)
    ensures |Clear(s).state.responses| < |Clear(s).state.commands|
  {
  }

  /** The command shown above each response: the command log is read at the response's position,
      and a position past its end shows nothing. */
  function Shown(s: State): (lines: seq<(Option<string>, Response)>)
    ensures |lines| == |s.responses|
    ensures forall i :: 0 <= i < |lines| ==> lines[i].1 == s.responses[i]
    ensures forall i :: 0 <= i < |lines| ==> (lines[i].0.Some? <==> i < |s.commands|)
  {
    seq(|s.responses|, i requires 0 <= i < |s.responses| =>
      (if i < |s.commands| then Some(s.commands[i]) else None, s.responses[i]))
  }

  /** While the logs are in step, every response is shown under the command it answers. */
  lemma ShownInStepPairsAnswers(s: State)
    requires Consistent(s)
    ensures forall i :: 0 <= i < |Shown(s)| ==>
              Shown(s)[i].0 == Some(s.commands[i]) && Shown(s)[i].1 == Keywords.Process(s.commands[i])
  {
  }

  /** After a clear, the next response is shown under the oldest logged command rather than the
      one it answers. */
  lemma ClearThenSubmitShowsOldestCommand(s: State)
    requires Valid(s) && |s.commands| >= 1 && Trim(s.input) != []
    ensures var t := Submit(Clear(s).state).state;
      && |Shown(t)| == 1
      && Shown(t)[0] == (Some(s.commands[0]), Answer(s.input))
      && t.commands[|t.commands| - 1] == Trim(s.input)
  {
  }
}
