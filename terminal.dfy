/** The terminal dock of Terminal.py: a command history navigated with the
    arrow keys, and a FIFO queue of shell commands of which at most one runs
    at a time. The worker thread is replaced by an explicit completion event
    (`OnCommandDone`) that carries the output the worker reported. */
module Terminal {
  import opened PyString

  /** The colour class `add_log` is called with. */
  datatype Kind = Info | Debug | Error | Command

  /** One `add_log` call (the prompt, which shows `os.getcwd()`, is left out). */
  datatype Entry = Entry(kind: Kind, message: string)

  /** A queued `(command, on_finished)` pair; the callback is named by an
      identifier, `None` standing for `on_finished=None`. */
  datatype Job = Job(command: string, callback: Option<nat>)

  /** The keys `eventFilter` is asked about. */
  datatype Key = ArrowUp | ArrowDown | OtherKey

  /** The terminal's observable state:
      - `history`, `historyIndex`: `command_history` and `history_index`;
      - `input`: the text of the command line;
      - `queue`: the contents of `command_queue`, front first;
      - `active`: `command_thread_active`;
      - `running`: the job of the last worker started (`workers[-1]`);
      - `log`: the output display;
      - `callbacks`: the `on_finished(cmd)` calls made so far, in order. */
  datatype Snapshot = Snapshot(
    history: seq<string>,
    historyIndex: int,
    input: string,
    queue: seq<Job>,
    active: bool,
    running: Job,
    log: seq<Entry>,
    callbacks: seq<(nat, string)>)

  /** No entry of `xs` equals the next one. */
  predicate NoAdjacentRepeats(xs: seq<string>) {
    forall i :: 0 <= i < |xs| - 1 ==> xs[i] != xs[i + 1]
  }

  /** The stripped commands of `jobs`. */
  function Commands(jobs: seq<Job>): (r: seq<string>)
    ensures |r| == |jobs|
    ensures forall i :: 0 <= i < |jobs| ==> r[i] == Strip(jobs[i].command)
  {
    seq(|jobs|, i requires 0 <= i < |jobs| => Strip(jobs[i].command))
  }

  /** The jobs not yet finished: the running one (when a command is active),
      then the queue in order. */
  function Pending(s: Snapshot): seq<Job> {
    (if s.active then [s.running] else []) + s.queue
  }

  /** The history cursor stays within `-1 <= history_index < len(history)`;
      entries are non-empty and no entry repeats the next one. */
  predicate HistoryOk(history: seq<string>, index: int) {
    && -1 <= index < |history|
    && (forall i :: 0 <= i < |history| ==> history[i] != [])
    && NoAdjacentRepeats(history)
  }

  /** No queued command repeats the one before it, counting the running
      command (when one is active and non-empty) as the one before the front. */
  predicate QueueOk(queue: seq<Job>, active: bool, running: Job) {
    && NoAdjacentRepeats(Commands(queue))
    && (active && running.command != [] && queue != [] ==>
          Strip(queue[0].command) != Strip(running.command))
  }

  /** What every event preserves: the two conditions above, and a command
      waits in the queue only while another one runs. */
  predicate Valid(s: Snapshot) {
    && HistoryOk(s.history, s.historyIndex)
    && QueueOk(s.queue, s.active, s.running)
    && (!s.active ==> s.queue == [])
  }

  /** Starting the front job keeps the queue condition. */
  lemma QueuePop(queue: seq<Job>, active: bool, running: Job)
    requires QueueOk(queue, active, running) && queue != []
    ensures QueueOk(queue[1..], true, queue[0])
  {
    var q := Commands(queue[1..]);
    forall i | 0 <= i < |q| - 1 ensures q[i] != q[i + 1] {
      assert q[i] == Commands(queue)[i + 1] && q[i + 1] == Commands(queue)[i + 2];
    }
    if |queue| > 1 {
      assert Commands(queue)[0] != Commands(queue)[1];
    }
  }

  /** Appending a job that repeats neither the last queued command nor the
      running one keeps the queue condition. */
  lemma QueuePush(queue: seq<Job>, active: bool, running: Job, job: Job)
    requires QueueOk(queue, active, running)
    requires queue != [] ==> Strip(queue[|queue| - 1].command) != Strip(job.command)
    requires queue == [] && active && running.command != [] ==> Strip(running.command) != Strip(job.command)
    ensures QueueOk(queue + [job], active, running)
  {
    var q := Commands(queue + [job]);
    forall i | 0 <= i < |q| - 1 ensures q[i] != q[i + 1] {
      if i + 1 < |queue| {
        assert q[i] == Commands(queue)[i] && q[i + 1] == Commands(queue)[i + 1];
      }
    }
  }

  function Initial(): Snapshot {
    Snapshot([], -1, "", [], false, Job("", None), [], [])
  }

  // ---------------------------------------------------------------------
  // History navigation (`eventFilter`)

  /** Up moves one entry further back while there is one, showing it. */
  function HistoryUp(s: Snapshot): Snapshot {
    if s.historyIndex + 1 < |s.history| then
      var k := s.historyIndex + 1;
      s.(historyIndex := k, input := if 0 <= k then s.history[k] else s.input)
    else s
  }

  /** Down moves one entry forward while the cursor is on an entry; reaching
      -1 clears the command line. */
  function HistoryDown(s: Snapshot): Snapshot {
    if s.historyIndex >= 0 then
      var k := s.historyIndex - 1;
      s.(historyIndex := k,
         input := if k == -1 then "" else if k < |s.history| then s.history[k] else s.input)
    else s
  }

  function KeyPress(s: Snapshot, key: Key): Snapshot {
    match key
    case ArrowUp => HistoryUp(s)
    case ArrowDown => HistoryDown(s)
    case OtherKey => s
  }

  // ---------------------------------------------------------------------
  // The command queue

  /** `process_next_command`: start the front job unless one is active or the
      queue is empty. */
  function Dispatched(s: Snapshot): (r: Snapshot)
    ensures r.history == s.history && r.historyIndex == s.historyIndex
    ensures r.input == s.input && r.callbacks == s.callbacks
  {
    if s.active || s.queue == [] then s
    else s.(queue := s.queue[1..], active := true, running := s.queue[0],
            log := s.log + [Entry(Command, s.queue[0].command)])
  }

  /** `run_command`'s first guard: the command equals the running one. */
  predicate RepeatsRunning(s: Snapshot, command: string) {
    s.active && s.running.command != [] && Strip(s.running.command) == Strip(command)
  }

  /** `run_command`'s second guard: the command equals the last queued one. */
  predicate RepeatsLastQueued(s: Snapshot, command: string) {
    s.queue != [] && Strip(s.queue[|s.queue| - 1].command) == Strip(command)
  }

  /** `run_command(command, on_finished)`. */
  function Enqueued(s: Snapshot, command: string, callback: Option<nat>): (r: Snapshot)
    ensures r.history == s.history && r.historyIndex == s.historyIndex
    ensures r.input == s.input && r.callbacks == s.callbacks
  {
    if RepeatsRunning(s, command) then
      s.(log := s.log + [Entry(Debug, "Ignored: '" + command + "' is already running.")])
    else if RepeatsLastQueued(s, command) then
      s.(log := s.log + [Entry(Debug, "Ignored duplicate queued command: " + command)])
    else
      Dispatched(s.(queue := s.queue + [Job(command, callback)]))
  }

  /** `on_command_done(cmd)` for the running job, after the worker reported
      `output`: the flag is cleared, the callback runs, the next job starts. */
  function Completed(s: Snapshot, output: seq<Entry>): Snapshot {
    var cb := s.running.callback;
    var calls := if cb.Some? then s.callbacks + [(cb.value, s.running.command)] else s.callbacks;
    Dispatched(s.(active := false, log := s.log + output, callbacks := calls))
  }

  /** The message `help` prints. */
  const HelpText := "Available commands: make clean, make build, cd, clear, etc."

  /** `execute_specific_command(cmd, args)` for the tokens `shlex.split` gave.
      No token means `cmd` is None and the join raises, so nothing runs;
      `cd` only touches the working directory, which is not modelled. */
  function SpecificCommand(s: Snapshot, tokens: seq<string>): (r: Snapshot)
    ensures r.history == s.history && r.historyIndex == s.historyIndex
    ensures r.input == s.input && r.callbacks == s.callbacks
  {
    if tokens == [] then s
    else if tokens[0] == "clear" then s.(log := [])
    else if tokens[0] == "help" then s.(log := s.log + [Entry(Info, HelpText)])
    else if tokens[0] == "cd" then s
    else Enqueued(s, Join(tokens, " "), None)
  }

  /** `execute_input_command`: the stripped command line, when non-empty,
      goes to the front of the history unless it is already there, the cursor
      resets and the line is cleared; then the command is executed.
      `tokens` is what `shlex.split` returns, or None when it raises. */
  function Submitted(s: Snapshot, tokens: Option<seq<string>>): Snapshot {
    var command := Strip(s.input);
    if command == [] then s
    else
      var history := if s.history == [] || s.history[0] != command then [command] + s.history else s.history;
      var t := s.(history := history, historyIndex := -1, input := "");
      if tokens.Some? then SpecificCommand(t, tokens.value) else t
  }

  // ---------------------------------------------------------------------
  // Properties

  lemma InitialValid()
    ensures Valid(Initial()) && Pending(Initial()) == []
  {
  }

  /** Up never leaves the history bounds, shows the entry it moves to, and
      does nothing at the oldest entry. */
  lemma HistoryUpValid(s: Snapshot)
    requires Valid(s)
    ensures Valid(HistoryUp(s))
    ensures s.historyIndex + 1 < |s.history| ==>
              HistoryUp(s).historyIndex == s.historyIndex + 1 &&
              HistoryUp(s).input == s.history[s.historyIndex + 1]
    ensures s.historyIndex + 1 >= |s.history| ==> HistoryUp(s) == s
  {
  }

  /** Down never leaves the history bounds; reaching -1 clears the line,
      otherwise the line shows the entry; at -1 it does nothing. */
  lemma HistoryDownValid(s: Snapshot)
    requires Valid(s)
    ensures Valid(HistoryDown(s))
    ensures s.historyIndex == 0 ==> HistoryDown(s).historyIndex == -1 && HistoryDown(s).input == ""
    ensures s.historyIndex > 0 ==>
              HistoryDown(s).historyIndex == s.historyIndex - 1 &&
              HistoryDown(s).input == s.history[s.historyIndex - 1]
    ensures s.historyIndex == -1 ==> HistoryDown(s) == s
  {
  }

  /** Down undoes Up: the cursor comes back and the line shows what the
      cursor's old position shows (an empty line at -1). */
  lemma DownUndoesUp(s: Snapshot)
    requires Valid(s) && s.historyIndex + 1 < |s.history|
    ensures HistoryDown(HistoryUp(s)).historyIndex == s.historyIndex
    ensures HistoryDown(HistoryUp(s)).input ==
              if s.historyIndex == -1 then "" else s.history[s.historyIndex]
  {
  }

  /** Up undoes Down when the cursor was on an entry. */
  lemma UpUndoesDown(s: Snapshot)
    requires Valid(s) && s.historyIndex >= 0
    ensures HistoryUp(HistoryDown(s)).historyIndex == s.historyIndex
    ensures HistoryUp(HistoryDown(s)).input == s.history[s.historyIndex]
  {
  }

  lemma DispatchedValid(s: Snapshot)
    requires Valid(s)
    ensures Valid(Dispatched(s)) && Pending(Dispatched(s)) == Pending(s)
  {
  }

  /** At most one command runs: dispatch only starts a job when none is
      active, and then starts the front of the queue. */
  lemma DispatchStartsFront(s: Snapshot)
    ensures s.active || s.queue == [] ==> Dispatched(s) == s
    ensures !s.active && s.queue != [] ==>
              Dispatched(s).active && Dispatched(s).running == s.queue[0] &&
              Dispatched(s).queue == s.queue[1..]
  {
  }

  /** A command repeating the running one, or the last queued one, changes
      nothing but the log. */
  lemma DuplicateDropped(s: Snapshot, command: string, callback: Option<nat>)
    requires RepeatsRunning(s, command) || RepeatsLastQueued(s, command)
    ensures Enqueued(s, command, callback).queue == s.queue
    ensures Enqueued(s, command, callback).active == s.active
    ensures Enqueued(s, command, callback).running == s.running
    ensures Enqueued(s, command, callback).history == s.history
    ensures Pending(Enqueued(s, command, callback)) == Pending(s)
    ensures |Enqueued(s, command, callback).log| == |s.log| + 1
  {
  }

  /** Non-repeating commands are queued at the back (FIFO), the invariant
      holds, and an idle terminal starts the command at once. */
  lemma EnqueuedFifo(s: Snapshot, command: string, callback: Option<nat>)
    requires Valid(s)
    requires !RepeatsRunning(s, command) && !RepeatsLastQueued(s, command)
    ensures Valid(Enqueued(s, command, callback))
    ensures Pending(Enqueued(s, command, callback)) == Pending(s) + [Job(command, callback)]
    ensures !s.active ==> Enqueued(s, command, callback).running == Job(command, callback)
  {
    var job := Job(command, callback);
    QueuePush(s.queue, s.active, s.running, job);
    if !s.active {
      QueuePop(s.queue + [job], s.active, s.running);
      assert (s.queue + [job])[1..] == [];
    }
  }

  /** Every event keeps the invariant. */
  lemma EnqueuedValid(s: Snapshot, command: string, callback: Option<nat>)
    requires Valid(s)
    ensures Valid(Enqueued(s, command, callback))
  {
    if !RepeatsRunning(s, command) && !RepeatsLastQueued(s, command) {
      EnqueuedFifo(s, command, callback);
    }
  }

  /** Completion finishes the running job and starts the next in line: the
      pending jobs lose their front, the callback (if any) is recorded with
      the command, and the invariant holds. */
  lemma CompletedFifo(s: Snapshot, output: seq<Entry>)
    requires Valid(s) && s.active
    ensures Valid(Completed(s, output))
    ensures Pending(Completed(s, output)) == Pending(s)[1..]
    ensures Completed(s, output).callbacks ==
              s.callbacks + (if s.running.callback.Some? then [(s.running.callback.value, s.running.command)] else [])
    ensures s.queue != [] ==> Completed(s, output).active && Completed(s, output).running == s.queue[0]
    ensures s.queue == [] ==> !Completed(s, output).active
  {
    assert Pending(s)[1..] == s.queue;
    if s.queue != [] {
      QueuePop(s.queue, s.active, s.running);
      assert Pending(Completed(s, output)) == [s.queue[0]] + s.queue[1..];
    }
  }

  /** Submitting an empty (or all-blank) line changes nothing. */
  lemma BlankLineIgnored(s: Snapshot, tokens: Option<seq<string>>)
    requires Strip(s.input) == []
    ensures Submitted(s, tokens) == s
  {
  }

  /** Submitting a command puts it at the front of the history unless it is
      already there, resets the cursor and clears the line. */
  lemma SubmittedHistory(s: Snapshot, tokens: Option<seq<string>>)
    requires Strip(s.input) != []
    ensures Submitted(s, tokens).history ==
              if s.history != [] && s.history[0] == Strip(s.input) then s.history
              else [Strip(s.input)] + s.history
    ensures Submitted(s, tokens).history[0] == Strip(s.input)
    ensures Submitted(s, tokens).historyIndex == -1
    ensures Submitted(s, tokens).input == ""
  {
  }

  /** A submitted command other than `clear`, `help` and `cd` is queued as
      the space-joined tokens, like a call of `run_command` without callback. */
  lemma SubmittedRuns(s: Snapshot, tokens: seq<string>)
    requires Valid(s) && Strip(s.input) != []
    requires tokens != [] && tokens[0] != "clear" && tokens[0] != "help" && tokens[0] != "cd"
    ensures var command := Join(tokens, " ");
            var before := Submitted(s, None);
            Submitted(s, Some(tokens)) == Enqueued(before, command, None) &&
            (!RepeatsRunning(before, command) && !RepeatsLastQueued(before, command) ==>
               Pending(Submitted(s, Some(tokens))) == Pending(s) + [Job(command, None)])
  {
    var before := Submitted(s, None);
    var command := Join(tokens, " ");
    if !RepeatsRunning(before, command) && !RepeatsLastQueued(before, command) {
      SubmittedValid(s, None);
      EnqueuedFifo(before, command, None);
    }
  }

  lemma {:induction false} SubmittedValid(s: Snapshot, tokens: Option<seq<string>>)
    requires Valid(s)
    ensures Valid(Submitted(s, tokens))
  {
    var command := Strip(s.input);
    if command != [] {
      var history := if s.history == [] || s.history[0] != command then [command] + s.history else s.history;
      var t := s.(history := history, historyIndex := -1, input := "");
      assert NoAdjacentRepeats(history) by {
        if history != s.history {
          forall i | 0 <= i < |history| - 1 ensures history[i] != history[i + 1] {
            if i > 0 { assert history[i] == s.history[i - 1] && history[i + 1] == s.history[i]; }
          }
        }
      }
      assert Valid(t);
      if tokens.Some? && tokens.value != [] && tokens.value[0] != "clear" && tokens.value[0] != "help" && tokens.value[0] != "cd" {
        EnqueuedValid(t, Join(tokens.value, " "), None);
      }
    }
  }

  // ---------------------------------------------------------------------
  // The dock itself

  class Terminal {
    var history: seq<string>
    var historyIndex: int
    var input: string
    var queue: seq<Job>
    var active: bool
    var running: Job
    var log: seq<Entry>
    var callbacks: seq<(nat, string)>

    function State(): Snapshot
      reads this
    {
      Snapshot(history, historyIndex, input, queue, active, running, log, callbacks)
    }

    constructor ()
      ensures State() == Initial()
    {
      history, historyIndex, input := [], -1, "";
      queue, active, running := [], false, Job("", None);
      log, callbacks := [], [];
    }

    /** The history part of `eventFilter`; arrow keys are consumed. */
    method EventFilter(key: Key) returns (handled: bool)
      modifies this`historyIndex, this`input
      ensures State() == KeyPress(old(State()), key)
      ensures handled == !key.OtherKey?
    {
      handled := false;
      if key.ArrowUp? {
        if historyIndex + 1 < |history| {
          historyIndex := historyIndex + 1;
          if 0 <= historyIndex { input := history[historyIndex]; }
        }
        handled := true;
      } else if key.ArrowDown? {
        if historyIndex >= 0 {
          historyIndex := historyIndex - 1;
          if historyIndex == -1 {
            input := "";
          } else if historyIndex < |history| {
            input := history[historyIndex];
          }
        }
        handled := true;
      }
    }

    method AddLog(kind: Kind, message: string)
      modifies this`log
      ensures log == old(log) + [Entry(kind, message)]
    {
      log := log + [Entry(kind, message)];
    }

    method ProcessNextCommand()
      modifies this`queue, this`active, this`running, this`log
      ensures State() == Dispatched(old(State()))
    {
      if active || queue == [] {
        return;
      }
      var job := queue[0];
      queue := queue[1..];
      active := true;
      AddLog(Command, job.command);
      running := job;
    }

    method RunCommand(command: string, callback: Option<nat>)
      modifies this`queue, this`active, this`running, this`log
      ensures State() == Enqueued(old(State()), command, callback)
    {
      if active {
        if running.command != [] && Strip(running.command) == Strip(command) {
          AddLog(Debug, "Ignored: '" + command + "' is already running.");
          return;
        }
      }
      if queue != [] {
        var last := queue[|queue| - 1];
        if Strip(last.command) == Strip(command) {
          AddLog(Debug, "Ignored duplicate queued command: " + command);
          return;
        }
      }
      queue := queue + [Job(command, callback)];
      ProcessNextCommand();
    }

    /** The worker of the running job reported `output` and finished. */
    method OnCommandDone(output: seq<Entry>)
      requires active
      modifies this`queue, this`active, this`running, this`log, this`callbacks
      ensures State() == Completed(old(State()), output)
    {
      log := log + output;
      active := false;
      if running.callback.Some? {
        callbacks := callbacks + [(running.callback.value, running.command)];
      }
      ProcessNextCommand();
    }

    method ExecuteSpecificCommand(tokens: seq<string>)
      modifies this`queue, this`active, this`running, this`log
      ensures State() == SpecificCommand(old(State()), tokens)
    {
      if tokens == [] {
        return;
      }
      var cmd := tokens[0];
      if cmd == "clear" {
        log := [];
      } else if cmd == "help" {
        AddLog(Info, HelpText);
      } else if cmd != "cd" {
        RunCommand(Join(tokens, " "), None);
      }
    }

    method ExecuteInputCommand(tokens: Option<seq<string>>)
      modifies this
      ensures State() == Submitted(old(State()), tokens)
    {
      var command := Strip(input);
      if command == [] {
        return;
      }
      if history == [] || history[0] != command {
        history := [command] + history;
      }
      historyIndex := -1;
      input := "";
      if tokens.Some? {
        ExecuteSpecificCommand(tokens.value);
      }
    }
  }
}
