/** The console engine of commands.c: the keystroke processor, the command
    resolver, the outer state machine and the service scheduler.

    The engine's state is first described as a value (`State`) with one
    function per entry point giving the state after it; the class
    `CommandEngine` then performs each entry point in place on its fields and
    arrays and is proved to reach exactly that state. Registries are
    sequences whose length is the index of the NULL sentinel. What goes
    through the output and error writers, and every callback into an
    application, is recorded in order in `trace`. */
module Engine {
  import opened Bytes
  import opened Definitions
  import opened Tokenizer
  import CStrings
  import Scheduler
  import Listing

  /** The fixed part of an engine: its registries, which writers are set, the
      prompt (NULL: none) and the line buffer's capacity `CommandBufferSize`. */
  datatype Config = Config(
    commands: seq<Command>,
    applications: seq<Application>,
    services: seq<Service>,
    hasOutput: bool,
    hasError: bool,
    prompt: Option<seq<byte>>,
    capacity: nat)

  /** What the engine needs of its configuration: a buffer position and a
      string length fit in `unsigned short`, the registries can be walked with
      an `unsigned short` index and the service cursor can be copied to a
      `byte`, and every name is a C string. */
  predicate ConfigOk(c: Config)
  {
    && 1 <= c.capacity <= 0x1_0000
    && |c.commands| < 0x1_0000 && |c.applications| < 0x1_0000 && |c.services| < 0x100
    && (forall i :: 0 <= i < |c.commands| ==> IsCString(c.commands[i].name))
    && (forall i :: 0 <= i < |c.applications| ==> IsCString(c.applications[i].name))
  }

  /** One observable action: a string written through the output or the
      error writer, or a call into an application. */
  datatype Event =
    | Output(text: seq<byte>)
    | Error(text: seq<byte>)
    | AppExecute(app: nat, key: byte)
    | AppStart(app: nat, args: seq<seq<byte>>)
    | AppClose(app: nat)

  /** Everything that changes: the engine's fields, every service's state,
      the contents of the line buffer and of the argument table, and the
      trace. Applications and commands are designated by registry index. */
  datatype State = State(
    status: Status,
    position: nat,
    running: Option<nat>,
    parsed: Option<nat>,
    serviceCount: nat,
    serviceRunning: nat,
    states: seq<byte>,
    buffer: seq<byte>,
    argv: seq<Option<nat>>,
    trace: seq<Event>)

  /** The engine invariant: the line is NUL-terminated at the buffer
      position, which stays below the capacity; the argument table has one
      entry more than `MaxCmdArgs`, the last always NULL; the service count
      is 0 or the number of services, and the cursor is at most that number;
      the focused application and the parsed command are registered. */
  predicate Inv(c: Config, e: State)
  {
    && |e.buffer| == c.capacity && e.position < c.capacity && e.buffer[e.position] == NUL
    && |e.argv| == MaxCmdArgs + 1 && e.argv[MaxCmdArgs] == None
    && |e.states| == |c.services| && e.serviceRunning <= |c.services|
    && (e.serviceCount == 0 || e.serviceCount == |c.services|)
    && (e.running.Some? ==> e.running.value < |c.applications|)
    && (e.parsed.Some? ==> e.parsed.value < |c.commands|)
  }

  /** The state of a freshly configured engine: all statics zero. */
  function Initial(c: Config, initialStates: seq<byte>): (e: State)
  {
    State(Initialize, 0, None, None, 0, 0, initialStates,
          seq(c.capacity, _ => NUL), seq(MaxCmdArgs + 1, _ => None), [])
  }

  lemma InitialInv(c: Config, initialStates: seq<byte>)
    requires ConfigOk(c) && |initialStates| == |c.services|
    ensures Inv(c, Initial(c, initialStates))
  {
  }

  // ---------------------------------------------------------------------
  // Keystrokes (commands.c:102-178, 310-318)
  // ---------------------------------------------------------------------

  const OverflowMessage: seq<byte> := CmdLf + Ascii("Buffer overflow!") + CmdLf

  /** The three error writes for an unsupported character. */
  function Unsupported(k: byte): seq<Event>
  {
    [Error(CmdLf + Ascii("ASCII character 0x")), Error(Listing.HexOf(k)),
     Error(Ascii(" is not supported.") + CmdLf)]
  }

  /** Events are only ever added to the end of the trace. */
  predicate Extends(t0: seq<Event>, t1: seq<Event>)
  {
    |t0| <= |t1| && t1[..|t0|] == t0
  }

  /** `CloseApplication`: OnClose if set, then back to `Initialize` with no
      application focused. */
  function AfterClose(c: Config, e: State): (r: State)
    requires e.running.Some? && e.running.value < |c.applications|
    ensures r == e.(status := Initialize, running := None, trace := r.trace)
    ensures Extends(e.trace, r.trace) && |r.trace| <= |e.trace| + 1
  {
    var j := e.running.value;
    e.(trace := e.trace + (if c.applications[j].hasOnClose then [AppClose(j)] else []),
       status := Initialize, running := None)
  }

  /** A keystroke when the buffer has room: backspace, printable byte or
      unsupported control byte, followed by re-terminating the line. */
  function AfterEdit(e: State, k: byte): (r: State)
    requires e.position + 1 < |e.buffer|
    ensures r == e.(buffer := r.buffer, position := r.position, trace := r.trace)
    ensures |r.buffer| == |e.buffer| && r.position <= e.position + 1 && e.position <= r.position + 1
    ensures r.buffer[r.position] == NUL && Extends(e.trace, r.trace)
  {
    var e1 :=
      if k == BackspaceAscii then
        if e.position > 0 then e.(position := e.position - 1, trace := e.trace + [Output([k])]) else e
      else if k > 31 then
        e.(buffer := e.buffer[e.position := k], position := e.position + 1, trace := e.trace + [Output([k])])
      else e.(trace := e.trace + Unsupported(k));
    e1.(buffer := e1.buffer[e1.position := NUL])
  }

  /** `AddKeystroke`: it leaves the services, the argument table and the
      parsed command alone, and only adds to the trace. */
  function AfterKeystroke(c: Config, e: State, k: byte): (r: State)
    requires Inv(c, e)
    ensures r.states == e.states && r.serviceCount == e.serviceCount && r.serviceRunning == e.serviceRunning
    ensures r.argv == e.argv && r.parsed == e.parsed && |r.buffer| == |e.buffer|
    ensures r.running == e.running || (k == CtrlCAscii && r.running.None?)
    ensures Extends(e.trace, r.trace)
  {
    if e.running.Some? then
      if k != CtrlCAscii then e.(trace := e.trace + [AppExecute(e.running.value, k)])
      else AfterClose(c, e)
    else if k == NUL then e
    else if k == ReturnAscii then
      if e.position != 0 then e.(status := CanParseForCommand)
      else e.(status := Initialize, trace := e.trace + [Output(CmdLf)])
    else if e.position < c.capacity - 1 then AfterEdit(e, k)
    else if c.hasError then e.(trace := e.trace + [Error(OverflowMessage)])
    else e
  }

  /** The keystrokes that reach a writer call without a NULL check need that
      writer to be set (commands.c:126, 141, 154, 163-165). */
  predicate KeystrokeWriters(c: Config, e: State, k: byte)
  {
    e.running.None? && k != NUL ==>
      if k == ReturnAscii then e.position == 0 ==> c.hasOutput
      else if e.position < c.capacity - 1 then
        if k == BackspaceAscii then e.position > 0 ==> c.hasOutput
        else if k > 31 then c.hasOutput
        else c.hasError
      else true
  }

  // ---------------------------------------------------------------------
  // The command line: name and arguments (commands.c:184-248)
  // ---------------------------------------------------------------------

  /** A space or the NUL ends the command name. */
  predicate EndsName(x: byte) { x == SpaceAscii || x == NUL }

  /** The first position at or after `i` holding a space or a NUL. */
  function NameEnd(b: seq<byte>, i: nat): (j: nat)
    requires NulFrom(b, i)
    ensures i <= j < |b| && EndsName(b[j]) && NulFrom(b, j)
    decreases |b| - i
  {
    if EndsName(b[i]) then i else NameEnd(b, i + 1)
  }

  lemma {:induction false} NameEndRun(b: seq<byte>, i: nat)
    requires NulFrom(b, i)
    ensures forall m :: i <= m < NameEnd(b, i) ==> !EndsName(b[m])
    decreases |b| - i
  {
    if !EndsName(b[i]) {
      NameEndRun(b, i + 1);
    }
  }

  /** The first position at or after `i` that is not a space. */
  function SpacesEnd(b: seq<byte>, i: nat): (j: nat)
    requires NulFrom(b, i)
    ensures i <= j < |b| && b[j] != SpaceAscii && NulFrom(b, j)
    decreases |b| - i
  {
    if b[i] != SpaceAscii then i else SpacesEnd(b, i + 1)
  }

  /** The command name: the line's bytes before its first space or NUL. */
  function Name(b: seq<byte>): seq<byte>
    requires NulFrom(b, 0)
  {
    b[..NameEnd(b, 0)]
  }

  /** The raw argument string: what follows the name and the spaces after
      it, or nothing when the name ends the line. */
  function ArgumentText(b: seq<byte>): seq<byte>
    requires NulFrom(b, 0)
  {
    var n := NameEnd(b, 0);
    if b[n] == NUL then [] else RawString(b, SpacesEnd(b, n))
  }

  /** `CheckArguments`: clears the first argument entry, then tokenises what
      follows the name and its spaces, if anything does. */
  function AfterArguments(e: State): (r: State)
    requires NulFrom(e.buffer, 0) && |e.argv| == MaxCmdArgs + 1
    ensures r == e.(buffer := r.buffer, argv := r.argv)
    ensures |r.buffer| == |e.buffer| && |r.argv| == |e.argv|
    ensures e.buffer[NameEnd(e.buffer, 0)] == NUL ==> r.buffer == e.buffer && r.argv == e.argv[0 := None]
  {
    var a := e.argv[0 := None];
    var n := NameEnd(e.buffer, 0);
    if e.buffer[n] == NUL then e.(argv := a)
    else
      var start := SpacesEnd(e.buffer, n);
      var s := RawString(e.buffer, start);
      e.(buffer := Tokenised(e.buffer, start), argv := Pointers(a, start, StoredStarts(s), StoresTerminator(s)))
  }

  /** The argument list a callback receives. */
  function Args(e: State): seq<seq<byte>>
  {
    ArgvView(e.buffer, e.argv, 0)
  }

  /** The first index at or after `i` of `x` in `names`. */
  function FirstIndex(names: seq<seq<byte>>, x: seq<byte>, i: nat): (r: Option<nat>)
    ensures r.Some? ==> i <= r.value < |names|
    decreases |names| - i
  {
    if i >= |names| then None
    else if names[i] == x then Some(i)
    else FirstIndex(names, x, i + 1)
  }

  function CommandNames(c: Config): (r: seq<seq<byte>>)
    ensures |r| == |c.commands|
  {
    seq(|c.commands|, i requires 0 <= i < |c.commands| => c.commands[i].name)
  }

  function ApplicationNames(c: Config): (r: seq<seq<byte>>)
    ensures |r| == |c.applications|
  {
    seq(|c.applications|, i requires 0 <= i < |c.applications| => c.applications[i].name)
  }

  /** `CheckCommand`: the state after resolving the line and the command it
      resolves to. */
  function AfterParse(c: Config, e: State): (p: (State, Option<nat>))
    requires Inv(c, e)
    ensures p.1.Some? ==> p.0 == e && p.1.value < |c.commands|
    ensures p.0.running != e.running ==> p.1.None? && p.0.running.Some? && p.0.running.value < |c.applications|
    ensures p.0.states == e.states && p.0.position == e.position && p.0.status == e.status && p.0.parsed == e.parsed
    ensures Extends(e.trace, p.0.trace)
  {
    var name := Name(e.buffer);
    match FirstIndex(CommandNames(c), name, 0)
    case Some(i) => (e, Some(i))
    case None =>
      match FirstIndex(ApplicationNames(c), name, 0)
      case None => (e, None)
      case Some(j) =>
        var e1 := e.(running := Some(j));
        if c.applications[j].hasOnStart then
          var e2 := AfterArguments(e1);
          (e2.(trace := e2.trace + [AppStart(j, Args(e2))]), None)
        else (e1, None)
  }

  // ---------------------------------------------------------------------
  // Executing, resetting and the outer state machine (commands.c:66-100, 250-308)
  // ---------------------------------------------------------------------

  /** What a command callback sees of the engine. */
  function ViewOf(c: Config, states: seq<byte>): RegistryView
    requires |states| == |c.services|
  {
    RegistryView(
      seq(|c.commands|, i requires 0 <= i < |c.commands| => Entry(c.commands[i].name, c.commands[i].helpText)),
      seq(|c.applications|, i requires 0 <= i < |c.applications| =>
        Entry(c.applications[i].name, c.applications[i].helpText)),
      seq(|c.services|, i requires 0 <= i < |c.services| =>
        ServiceEntry(c.services[i].name, c.services[i].helpText, states[i])))
  }

  /** The writes of a command: its own, then the string it returns, if any. */
  function Outputs(r: CommandResult): seq<Event>
  {
    seq(|r.writes|, i requires 0 <= i < |r.writes| => Output(r.writes[i]))
    + (if r.returned.Some? then [Output(r.returned.value)] else [])
  }

  function NotFound(line: seq<byte>): seq<Event>
  {
    [Error(CmdLf + Ascii("Command '")), Error(line), Error(Ascii("' not found") + CmdLf)]
  }

  /** `ExecuteCommand`. */
  function AfterExecute(c: Config, e: State, command: Option<nat>): (r: State)
    requires Inv(c, e) && (command.Some? ==> command.value < |c.commands|)
    ensures r.position == 0 && |r.buffer| == |e.buffer| && r.buffer[0] == NUL
    ensures r.states == e.states && r.running == e.running && Extends(e.trace, r.trace)
  {
    var e1 :=
      if command.Some? then
        if c.hasOutput then
          var e2 := AfterArguments(e);
          var r := c.commands[command.value].execute(Args(e2), ViewOf(c, e2.states));
          e2.(trace := e2.trace + Outputs(r))
        else e
      else if e.running.Some? then e.(status := CanRead)
      else if c.hasError then e.(trace := e.trace + NotFound(CString(e.buffer, 0)))
      else e;
    e1.(position := 0, buffer := e1.buffer[0 := NUL])
  }

  function Prompt(c: Config, e: State): seq<Event>
  {
    if c.prompt.Some? && e.running.None? then [Output(c.prompt.value)] else []
  }

  /** The `Initialize` case of `DoTasks`. */
  function AfterRestart(c: Config, e: State): (r: State)
    ensures r.status == CanRead && r.serviceCount == |c.services| && r.serviceRunning == 0
    ensures r.buffer == e.buffer && r.position == e.position && r.running == e.running && r.states == e.states
    ensures Extends(e.trace, r.trace) && |r.trace| <= |e.trace| + 1
  {
    e.(serviceCount := |c.services|, serviceRunning := 0, status := CanRead, trace := e.trace + Prompt(c, e))
  }

  function Runs(c: Config): (r: seq<byte -> byte>)
    ensures |r| == |c.services|
  {
    seq(|c.services|, i requires 0 <= i < |c.services| => c.services[i].run)
  }

  /** `ExecuteService`. */
  function AfterService(c: Config, e: State): (r: State)
    requires Inv(c, e)
    ensures r == e.(states := r.states, serviceRunning := r.serviceRunning)
    ensures |r.states| == |e.states| && r.serviceRunning <= |c.services|
  {
    var r := Scheduler.Schedule(e.states, Runs(c), e.serviceCount, e.serviceRunning);
    e.(states := r.states, serviceRunning := r.cursor)
  }

  /** `DoTasks`. */
  function AfterTick(c: Config, e: State): (r: State)
    requires Inv(c, e)
    ensures |r.buffer| == |e.buffer| && Extends(e.trace, r.trace)
    ensures e.status != CanParseForCommand ==> r.running == e.running
    ensures e.status != CanRead ==> r.states == e.states
  {
    match e.status
    case CanParseForCommand =>
      var p := AfterParse(c, e);
      p.0.(parsed := p.1, status := CanExecuteCommand)
    case CanExecuteCommand => AfterRestart(c, AfterExecute(c, e, e.parsed).(parsed := None))
    case Initialize => AfterRestart(c, e)
    case CanRead => AfterService(c, e)
    case CanWrite => e.(status := Initialize)
  }

  /** The prompt is written without a NULL check (commands.c:83). */
  predicate TickWriters(c: Config, e: State)
  {
    ((e.status == Initialize || e.status == CanExecuteCommand) && c.prompt.Some? && e.running.None?)
    ==> c.hasOutput
  }

  // ---------------------------------------------------------------------
  // The invariant is kept
  // ---------------------------------------------------------------------

  lemma ArgumentsKeepInv(c: Config, e: State)
    requires Inv(c, e)
    ensures NulFrom(e.buffer, 0) && Inv(c, AfterArguments(e))
    ensures AfterArguments(e) == e.(buffer := AfterArguments(e).buffer, argv := AfterArguments(e).argv)
  {
    var n := NameEnd(e.buffer, 0);
    if e.buffer[n] != NUL {
      var start := SpacesEnd(e.buffer, n);
      var s := RawString(e.buffer, start);
      TokenisedKeepsNul(e.buffer, start, e.position);
      PointersAt(e.argv[0 := None], start, StoredStarts(s), StoresTerminator(s), MaxCmdArgs);
    }
  }

  lemma EditKeepsInv(c: Config, e: State, k: byte)
    requires Inv(c, e) && e.position < c.capacity - 1
    ensures var r := AfterEdit(e, k);
      && r == e.(buffer := r.buffer, position := r.position, trace := r.trace)
      && |r.buffer| == c.capacity && r.position < c.capacity && r.buffer[r.position] == NUL
  {
  }

  lemma KeystrokeKeepsInv(c: Config, e: State, k: byte)
    requires ConfigOk(c) && Inv(c, e)
    ensures Inv(c, AfterKeystroke(c, e, k))
  {
    if e.running.None? && k != NUL && k != ReturnAscii && e.position < c.capacity - 1 {
      EditKeepsInv(c, e, k);
    }
  }

  lemma ParseKeepsInv(c: Config, e: State)
    requires ConfigOk(c) && Inv(c, e)
    ensures var p := AfterParse(c, e);
      Inv(c, p.0) && (p.1.Some? ==> p.1.value < |c.commands|)
  {
    var name := Name(e.buffer);
    if FirstIndex(CommandNames(c), name, 0).None? {
      var j := FirstIndex(ApplicationNames(c), name, 0);
      if j.Some? {
        ArgumentsKeepInv(c, e.(running := j));
      }
    }
  }

  lemma ExecuteKeepsInv(c: Config, e: State, command: Option<nat>)
    requires ConfigOk(c) && Inv(c, e) && (command.Some? ==> command.value < |c.commands|)
    ensures Inv(c, AfterExecute(c, e, command))
  {
    ArgumentsKeepInv(c, e);
  }

  lemma TickKeepsInv(c: Config, e: State)
    requires ConfigOk(c) && Inv(c, e)
    ensures Inv(c, AfterTick(c, e))
  {
    match e.status
    case CanParseForCommand =>
      ParseKeepsInv(c, e);
    case CanExecuteCommand =>
      ExecuteKeepsInv(c, e, e.parsed);
    case Initialize =>
    case CanRead =>
    case CanWrite =>
  }

  // ---------------------------------------------------------------------
  // Properties
  // ---------------------------------------------------------------------

  /** The line as the resolver reads it: the C string at the buffer's start. */
  function Line(e: State): seq<byte>
  {
    CStringAt(e.buffer, 0)
  }

  /** No NUL before the buffer position: the typed bytes are the line. This
      holds except between resolving an application whose `OnStart`
      tokenised the line and the next reset of the buffer. */
  predicate Clean(e: State)
  {
    forall m :: 0 <= m < e.position && m < |e.buffer| ==> e.buffer[m] != NUL
  }

  lemma CleanLine(e: State)
    requires e.position < |e.buffer| && e.buffer[e.position] == NUL && Clean(e)
    ensures Line(e) == e.buffer[..e.position]
  {
    CStringIs(e.buffer, 0, e.buffer[..e.position]);
  }

  /** The first index of `x` is its first occurrence, and there is none
      exactly when `x` does not occur. */
  lemma {:induction false} FirstIndexIs(names: seq<seq<byte>>, x: seq<byte>, i: nat)
    ensures match FirstIndex(names, x, i)
      case Some(k) => names[k] == x && forall j :: i <= j < k ==> names[j] != x
      case None => forall j :: i <= j < |names| ==> names[j] != x
    decreases |names| - i
  {
    if i < |names| && names[i] != x {
      FirstIndexIs(names, x, i + 1);
    }
  }

  /** A printable byte other than DEL, typed with room on the line and no
      application focused, is stored at the position, which moves past it,
      and echoed. When no NUL precedes the position, it is appended to the
      line. */
  lemma KeystrokeAppends(c: Config, e: State, k: byte)
    requires ConfigOk(c) && Inv(c, e) && e.running.None?
    requires k > 31 && k != BackspaceAscii && e.position < c.capacity - 1
    ensures var r := AfterKeystroke(c, e, k);
      && r.buffer[..r.position] == e.buffer[..e.position] + [k] && r.position == e.position + 1
      && r.status == e.status && r.trace == e.trace + [Output([k])]
      && (Clean(e) ==> Clean(r) && Line(r) == Line(e) + [k])
  {
    var r := AfterKeystroke(c, e, k);
    assert r.buffer[..r.position] == e.buffer[..e.position] + [k];
    if Clean(e) {
      CleanLine(e);
      CleanLine(r);
    }
  }

  /** DEL with room on the line moves the position back over the last
      typed byte and echoes, or does nothing at position 0. When no NUL
      precedes the position, the line loses its last byte. */
  lemma KeystrokeErases(c: Config, e: State)
    requires ConfigOk(c) && Inv(c, e) && e.running.None? && e.position < c.capacity - 1
    ensures var r := AfterKeystroke(c, e, BackspaceAscii);
      && r.status == e.status
      && if e.position > 0 then
           && r.position == e.position - 1 && r.buffer[..r.position] == e.buffer[..e.position - 1]
           && r.trace == e.trace + [Output([BackspaceAscii])]
           && (Clean(e) ==> Clean(r) && Line(r) == Line(e)[..|Line(e)| - 1])
         else r == e
  {
    var r := AfterKeystroke(c, e, BackspaceAscii);
    if e.position > 0 {
      assert r.buffer[..r.position] == e.buffer[..e.position - 1];
      if Clean(e) {
        CleanLine(e);
        CleanLine(r);
        assert r.buffer[..r.position] == e.buffer[..e.position][..e.position - 1];
      }
    } else {
      assert r.buffer == e.buffer;
    }
  }

  /** Any other byte below 32 (CTRL-C included) with room on the line and no
      application focused changes nothing and is reported with its two hex
      digits, which read back as the byte. */
  lemma KeystrokeUnsupported(c: Config, e: State, k: byte)
    requires ConfigOk(c) && Inv(c, e) && e.running.None? && e.position < c.capacity - 1
    requires k <= 31 && k != NUL && k != ReturnAscii
    ensures var r := AfterKeystroke(c, e, k);
      && r == e.(trace := e.trace + Unsupported(k))
      && Listing.ParseHex(Unsupported(k)[1].text) == Some(k)
  {
    assert e.buffer[e.position := NUL] == e.buffer;
    Listing.HexRoundTrip(k);
  }

  /** On a line at its limit every byte but NUL and RETURN, DEL included,
      leaves the line as it is and reports an overflow. */
  lemma KeystrokeAtLimit(c: Config, e: State, k: byte)
    requires ConfigOk(c) && Inv(c, e) && e.running.None? && e.position == c.capacity - 1
    requires k != NUL && k != ReturnAscii
    ensures AfterKeystroke(c, e, k)
      == e.(trace := e.trace + (if c.hasError then [Error(OverflowMessage)] else []))
  {
  }

  /** NUL is ignored; RETURN leaves the line as it is and asks for it to be
      parsed, or re-prompts with a line feed when it is empty. */
  lemma KeystrokeSubmits(c: Config, e: State)
    requires ConfigOk(c) && Inv(c, e) && e.running.None?
    ensures AfterKeystroke(c, e, NUL) == e
    ensures AfterKeystroke(c, e, ReturnAscii)
      == if e.position != 0 then e.(status := CanParseForCommand)
         else e.(status := Initialize, trace := e.trace + [Output(CmdLf)])
  {
  }

  /** With an application focused, every byte but CTRL-C goes to it and
      changes nothing else; CTRL-C closes it (calling `OnClose` once if set)
      and leaves the line as it is. */
  lemma KeystrokeFocused(c: Config, e: State, k: byte)
    requires ConfigOk(c) && Inv(c, e) && e.running.Some?
    ensures var r := AfterKeystroke(c, e, k); var j := e.running.value;
      if k != CtrlCAscii then r == e.(trace := e.trace + [AppExecute(j, k)])
      else r == e.(status := Initialize, running := None,
                   trace := e.trace + (if c.applications[j].hasOnClose then [AppClose(j)] else []))
  {
  }

  /** Keystrokes keep the typed bytes free of NULs. */
  lemma KeystrokeKeepsClean(c: Config, e: State, k: byte)
    requires ConfigOk(c) && Inv(c, e) && Clean(e)
    ensures Clean(AfterKeystroke(c, e, k))
  {
  }

  /** A callee receives the first `MaxCmdArgs` words of what follows the
      name and its spaces, and nothing when the name ends the line. */
  lemma ArgumentsAfterName(c: Config, e: State)
    requires Inv(c, e)
    ensures NulFrom(e.buffer, 0) && Args(AfterArguments(e)) == Arguments(ArgumentText(e.buffer))
  {
    var b := e.buffer;
    var n := NameEnd(b, 0);
    var a := e.argv[0 := None];
    if b[n] == NUL {
      assert Words([]) == [];
    } else {
      var start := SpacesEnd(b, n);
      if !StoresTerminator(RawString(b, start)) {
        UnterminatedCounts(RawString(b, start));
      }
      ArgvViewOfTokenised(b, start, a);
    }
  }

  /** Resolution: commands are searched before applications, each registry
      in order, and the first entry named like the line wins. A command is
      returned with nothing changed; an application is focused, started
      with the arguments if it has `OnStart`, and nothing is returned; with
      no match nothing changes. */
  lemma Resolution(c: Config, e: State)
    requires ConfigOk(c) && Inv(c, e)
    ensures var p := AfterParse(c, e); var name := Name(e.buffer);
      var cs := CommandNames(c); var ans := ApplicationNames(c);
      && (p.1.Some? <==> name in cs)
      && (p.1.Some? ==> p.0 == e && cs[p.1.value] == name && forall j :: 0 <= j < p.1.value ==> cs[j] != name)
      && (name !in cs && name !in ans ==> p.0 == e)
      && (name !in cs && name in ans ==>
            && p.0.running.Some? && ans[p.0.running.value] == name
            && (forall j :: 0 <= j < p.0.running.value ==> ans[j] != name)
            && p.0.status == e.status && p.0.position == e.position
            && p.0.trace == e.trace + (if c.applications[p.0.running.value].hasOnStart
                                       then [AppStart(p.0.running.value, Arguments(ArgumentText(e.buffer)))]
                                       else []))
  {
    var name := Name(e.buffer);
    FirstIndexIs(CommandNames(c), name, 0);
    FirstIndexIs(ApplicationNames(c), name, 0);
    match FirstIndex(ApplicationNames(c), name, 0)
    case None =>
    case Some(j) =>
      ArgumentsAfterName(c, e.(running := Some(j)));
  }

  /** The parse tick runs no command: at most the `OnStart` of the focused
      application is called, and the next tick executes. */
  lemma ParseTickRunsNothing(c: Config, e: State)
    requires ConfigOk(c) && Inv(c, e) && e.status == CanParseForCommand
    ensures var r := AfterTick(c, e);
      && r.status == CanExecuteCommand && r.parsed == FirstIndex(CommandNames(c), Name(e.buffer), 0)
      && (r.trace == e.trace
          || (|r.trace| == |e.trace| + 1 && r.trace[..|e.trace|] == e.trace && r.trace[|e.trace|].AppStart?))
  {
    var name := Name(e.buffer);
    match FirstIndex(CommandNames(c), name, 0)
    case Some(_) =>
    case None =>
      match FirstIndex(ApplicationNames(c), name, 0)
      case None =>
      case Some(j) =>
        var e2 := AfterArguments(e.(running := Some(j)));
        assert (e2.trace + [AppStart(j, Args(e2))])[..|e.trace|] == e.trace;
  }

  /** The execute tick empties the line on every path, clears the parsed
      command and falls through to the reset. It writes the command's output
      computed on the first `MaxCmdArgs` words after the name, or reports
      "not found" only when nothing matched, no application is focused and
      an error writer is set; then the prompt. */
  lemma ExecuteTick(c: Config, e: State)
    requires ConfigOk(c) && Inv(c, e) && e.status == CanExecuteCommand
    ensures var r := AfterTick(c, e);
      && r.position == 0 && Line(r) == [] && Clean(r) && r.parsed == None && r.status == CanRead
      && r.serviceCount == |c.services| && r.serviceRunning == 0
      && r.running == e.running && r.states == e.states
      && r.trace == e.trace
           + (match e.parsed
              case Some(i) =>
                if c.hasOutput then Outputs(c.commands[i].execute(Arguments(ArgumentText(e.buffer)), ViewOf(c, e.states)))
                else []
              case None => if e.running.None? && c.hasError then NotFound(Line(e)) else [])
           + Prompt(c, e)
  {
    ExecuteKeepsInv(c, e, e.parsed);
    var r := AfterTick(c, e);
    CStringIs(r.buffer, 0, []);
    if e.parsed.Some? {
      ArgumentsAfterName(c, e);
      ArgumentsKeepInv(c, e);
    }
  }

  /** `Initialize` moves to `CanRead`, resets the service cursor to 0, counts
      every service, and writes the prompt exactly when there is one and no
      application is focused. */
  lemma RestartTick(c: Config, e: State)
    requires ConfigOk(c) && Inv(c, e) && e.status == Initialize
    ensures AfterTick(c, e) == e.(status := CanRead, serviceCount := |c.services|, serviceRunning := 0,
      trace := e.trace + (if c.prompt.Some? && e.running.None? then [Output(c.prompt.value)] else []))
  {
  }

  /** Any status outside the cycle becomes `Initialize`. */
  lemma OtherTick(c: Config, e: State)
    requires ConfigOk(c) && Inv(c, e) && e.status == CanWrite
    ensures AfterTick(c, e) == e.(status := Initialize)
  {
  }

  /** A reading tick only schedules: before the first reset it does nothing;
      after it, it runs the first service at or after the cursor that is not
      stopped, storing its next state and moving the cursor past it, or, with
      every service stopped, only wraps the cursor. */
  lemma ServiceTick(c: Config, e: State)
    requires ConfigOk(c) && Inv(c, e) && e.status == CanRead
    ensures var r := AfterTick(c, e);
      if e.serviceCount == 0 then r == e
      else match Scheduler.Pick(e.states, e.serviceRunning)
        case Some(k) =>
          r == e.(states := e.states[k := c.services[k].run(e.states[k])], serviceRunning := k + 1)
        case None =>
          && r == e.(serviceRunning := Scheduler.Wrap(e.serviceRunning, |c.services|))
          && (forall i :: 0 <= i < |e.states| ==> e.states[i] == Stopped)
  {
    if e.serviceCount != 0 {
      Scheduler.PickNoneIffAllStopped(e.states, e.serviceRunning);
    }
  }

  /** `t` consecutive ticks. */
  function RunTicks(c: Config, e: State, t: nat): (r: State)
    requires ConfigOk(c) && Inv(c, e)
    ensures Inv(c, r)
    decreases t
  {
    if t == 0 then e
    else
      TickKeepsInv(c, e);
      RunTicks(c, AfterTick(c, e), t - 1)
  }

  /** While reading, the engine's ticks are the scheduler's calls. */
  lemma {:induction false} ReadingTicks(c: Config, e: State, t: nat)
    requires ConfigOk(c) && Inv(c, e) && e.status == CanRead && e.serviceCount == |c.services|
    ensures var r := RunTicks(c, e, t); var g := Scheduler.Ticks(e.states, Runs(c), e.serviceRunning, t);
      && r.status == CanRead && r.serviceCount == |c.services|
      && r.states == g.states && r.serviceRunning == g.cursor
    decreases t
  {
    if t > 0 {
      TickKeepsInv(c, e);
      ReadingTicks(c, AfterTick(c, e), t - 1);
    }
  }

  /** No service starves: once counted, a service that is not stopped is run
      by one of the next `n` ticks, whatever the others do. */
  lemma NoServiceStarves(c: Config, e: State, i: nat) returns (t: nat)
    requires ConfigOk(c) && Inv(c, e) && e.status == CanRead && e.serviceCount == |c.services|
    requires i < |c.services| && e.states[i] != Stopped
    ensures t < |c.services|
    ensures var r := RunTicks(c, e, t);
      && Scheduler.Pick(r.states, r.serviceRunning) == Some(i)
      && AfterTick(c, r).states == r.states[i := c.services[i].run(r.states[i])]
      && AfterTick(c, r).serviceRunning == i + 1
  {
    t := Scheduler.NoStarvation(e.states, Runs(c), e.serviceRunning, i);
    ReadingTicks(c, e, t);
    ServiceTick(c, RunTicks(c, e, t));
  }

  /** Submitting a line naming a command runs it on the next two ticks: the
      first resolves, the second writes what the first command of that name
      computes from the words after the name, then the prompt. */
  lemma CommandLineRuns(c: Config, e: State, i: nat)
    requires ConfigOk(c) && Inv(c, e) && e.status == CanParseForCommand && e.running.None? && c.hasOutput
    requires i < |c.commands| && c.commands[i].name == Name(e.buffer)
    requires forall j :: 0 <= j < i ==> c.commands[j].name != Name(e.buffer)
    ensures var r := RunTicks(c, e, 2);
      && r.trace == e.trace
           + Outputs(c.commands[i].execute(Arguments(ArgumentText(e.buffer)), ViewOf(c, e.states)))
           + (if c.prompt.Some? then [Output(c.prompt.value)] else [])
      && r.status == CanRead && Line(r) == []
  {
    Resolution(c, e);
    assert CommandNames(c)[i] == Name(e.buffer);
    var e1 := e.(parsed := Some(i), status := CanExecuteCommand);
    assert AfterTick(c, e) == e1;
    TwoTicks(c, e);
    ExecuteTick(c, e1);
  }

  lemma TwoTicks(c: Config, e: State)
    requires ConfigOk(c) && Inv(c, e)
    ensures Inv(c, AfterTick(c, e)) && RunTicks(c, e, 2) == AfterTick(c, AfterTick(c, e))
  {
    TickKeepsInv(c, e);
    TickKeepsInv(c, AfterTick(c, e));
  }

  /** Submitting a line naming an application and no command focuses the
      first such application on the next two ticks, starts it with the words
      after the name if it has `OnStart`, writes no prompt and empties the
      line. */
  lemma ApplicationLineStarts(c: Config, e: State, j: nat)
    requires ConfigOk(c) && Inv(c, e) && e.status == CanParseForCommand && e.running.None?
    requires Name(e.buffer) !in CommandNames(c)
    requires j < |c.applications| && c.applications[j].name == Name(e.buffer)
    requires forall i :: 0 <= i < j ==> c.applications[i].name != Name(e.buffer)
    ensures var r := RunTicks(c, e, 2);
      && r.running == Some(j) && r.status == CanRead && Line(r) == []
      && r.trace == e.trace
           + (if c.applications[j].hasOnStart then [AppStart(j, Arguments(ArgumentText(e.buffer)))] else [])
  {
    Resolution(c, e);
    FirstIndexIs(ApplicationNames(c), Name(e.buffer), 0);
    assert ApplicationNames(c)[j] == Name(e.buffer);
    TwoTicks(c, e);
    ExecuteTick(c, AfterTick(c, e));
  }

  /** CTRL-C between the tick that started an application and the execute
      tick skips the reset of the line: the `Initialize` tick that follows
      keeps the buffer, so the next byte typed is appended to the old line. */
  lemma StaleLineKept(c: Config, e: State, x: byte)
    requires ConfigOk(c) && Inv(c, e) && e.running.Some? && e.status == CanExecuteCommand
    requires x > 31 && x != BackspaceAscii && e.position < c.capacity - 1
    ensures var r1 := AfterKeystroke(c, e, CtrlCAscii);
      && Inv(c, r1) && r1.status == Initialize && r1.running.None?
      && var r2 := AfterTick(c, r1);
      && Inv(c, r2) && r2.status == CanRead && r2.buffer == e.buffer && r2.position == e.position
      && var r3 := AfterKeystroke(c, r2, x);
      && r3.buffer[..r3.position] == e.buffer[..e.position] + [x]
  {
    var r1 := AfterKeystroke(c, e, CtrlCAscii);
    KeystrokeFocused(c, e, CtrlCAscii);
    KeystrokeKeepsInv(c, e, CtrlCAscii);
    var r2 := AfterTick(c, r1);
    RestartTick(c, r1);
    TickKeepsInv(c, r1);
    KeystrokeAppends(c, r2, x);
  }

  // ---------------------------------------------------------------------
  // The engine
  // ---------------------------------------------------------------------

  /** `CommandEngine`, with the process-wide `argv` table as an engine-owned
      array of `MaxCmdArgs + 1` entries. */
  class CommandEngine {
    const config: Config
    /** `CommandBuffer`. */
    const buffer: array<byte>
    const argv: array<Option<nat>>
    var status: Status
    var bufferPosition: nat
    var runningApplication: Option<nat>
    var parsedCommand: Option<nat>
    var serviceCount: nat
    var serviceRunning: nat
    /** The `State` field of each registered service. */
    var states: seq<byte>
    var trace: seq<Event>

    function Snap(): State
      reads this, buffer, argv
    {
      State(status, bufferPosition, runningApplication, parsedCommand, serviceCount, serviceRunning,
            states, buffer[..], argv[..], trace)
    }

    ghost predicate Valid()
      reads this, buffer, argv
    {
      ConfigOk(config) && Inv(config, Snap())
    }

    constructor (config: Config, initialStates: seq<byte>)
      requires ConfigOk(config) && |initialStates| == |config.services|
      ensures Valid() && Snap() == Initial(config, initialStates)
      ensures fresh(buffer) && fresh(argv)
    {
      this.config := config;
      buffer := new byte[config.capacity](_ => NUL);
      argv := new Option<nat>[MaxCmdArgs + 1](_ => None);
      status := Initialize;
      bufferPosition := 0;
      runningApplication := None;
      parsedCommand := None;
      serviceCount := 0;
      serviceRunning := 0;
      states := initialStates;
      trace := [];
      new;
      InitialInv(config, initialStates);
    }

    /** `AddKeystroke`. */
    method AddKeystroke(keystroke: byte)
      requires Valid() && KeystrokeWriters(config, Snap(), keystroke)
      modifies this, buffer
      ensures Valid() && Snap() == AfterKeystroke(config, old(Snap()), keystroke)
    {
      KeystrokeKeepsInv(config, Snap(), keystroke);
      if runningApplication.Some? {
        if keystroke != CtrlCAscii {
          trace := trace + [AppExecute(runningApplication.value, keystroke)];
        } else {
          CloseApplication();
        }
        return;
      }
      if keystroke == NUL {
        return;
      }
      if keystroke == ReturnAscii {
        if bufferPosition != 0 {
          status := CanParseForCommand;
        } else {
          status := Initialize;
          trace := trace + [Output(CmdLf)];
        }
        return;
      }
      if bufferPosition < config.capacity - 1 {
        EditLine(keystroke);
        return;
      }
      if config.hasError {
        trace := trace + [Error(OverflowMessage)];
      }
    }

    /** The part of `AddKeystroke` that edits the line when it has room. The
      source's `RETURN` case there is unreachable and left out. */
    method EditLine(keystroke: byte)
      requires Valid() && bufferPosition < config.capacity - 1
      requires keystroke == BackspaceAscii ==> bufferPosition > 0 ==> config.hasOutput
      requires keystroke != BackspaceAscii ==> if keystroke > 31 then config.hasOutput else config.hasError
      modifies this, buffer
      ensures Valid() && Snap() == AfterEdit(old(Snap()), keystroke)
    {
      if keystroke == BackspaceAscii {
        if bufferPosition > 0 {
          bufferPosition := bufferPosition - 1;
          trace := trace + [Output([keystroke])];
        }
      } else if keystroke > 31 {
        buffer[bufferPosition] := keystroke;
        bufferPosition := bufferPosition + 1;
        trace := trace + [Output([keystroke])];
      } else {
        var hex := new byte[3];
        Listing.FillHex(hex, keystroke);
        trace := trace + [Error(CmdLf + Ascii("ASCII character 0x"))] + [Error(hex[..2])]
                 + [Error(Ascii(" is not supported.") + CmdLf)];
      }
      buffer[bufferPosition] := NUL;
    }

    /** `CloseApplication`; the source dereferences the focused application
      without a check. */
    method CloseApplication()
      requires Valid() && runningApplication.Some?
      modifies this
      ensures Valid() && Snap() == AfterClose(config, old(Snap()))
    {
      var j := runningApplication.value;
      if config.applications[j].hasOnClose {
        trace := trace + [AppClose(j)];
      }
      status := Initialize;
      runningApplication := None;
    }

    /** `DoTasks`. */
    method DoTasks()
      requires Valid() && TickWriters(config, Snap())
      modifies this, buffer, argv
      ensures Valid() && Snap() == AfterTick(config, old(Snap()))
    {
      TickKeepsInv(config, Snap());
      match status
      case CanParseForCommand =>
        var command := CheckCommand();
        parsedCommand := command;
        status := CanExecuteCommand;
      case CanExecuteCommand =>
        ExecuteCommand(parsedCommand);
        parsedCommand := None;
        Restart();
      case Initialize =>
        Restart();
      case CanRead =>
        ExecuteService();
      case CanWrite =>
        status := Initialize;
    }

    /** The `Initialize` case of `DoTasks`: counts the services up to the
      sentinel. */
    method Restart()
      requires Valid() && (config.prompt.Some? && runningApplication.None? ==> config.hasOutput)
      modifies this
      ensures Valid() && Snap() == AfterRestart(config, old(Snap()))
    {
      serviceCount := 0;
      serviceRunning := 0;
      status := CanRead;
      if config.prompt.Some? && runningApplication.None? {
        trace := trace + [Output(config.prompt.value)];
      }
      var count := 0;
      while count < |config.services|
        invariant count <= |config.services|
      {
        count := count + 1;
      }
      serviceCount := count;
    }

    /** `CheckArguments`: the name loop returns at a NUL before any space,
      so the argument table is then only cleared. */
    method CheckArguments()
      requires Valid()
      modifies buffer, argv
      ensures Valid() && Snap() == AfterArguments(old(Snap()))
    {
      ArgumentsKeepInv(config, Snap());
      argv[0] := None;
      var p := SkipName(buffer);
      if buffer[p] != NUL {
        p := SkipSpaces(buffer, p);
        var count := StringToArgs(buffer, p, argv);
      }
    }

    /** `CheckCommand`. */
    method CheckCommand() returns (command: Option<nat>)
      requires Valid()
      modifies this, buffer, argv
      ensures Valid() && (Snap(), command) == AfterParse(config, old(Snap()))
    {
      var commandName := CopyName(buffer);
      command := FindName(commandName, CommandNames(config));
      if command.Some? {
        return;
      }
      var app := FindName(commandName, ApplicationNames(config));
      if app.Some? {
        runningApplication := app;
        if config.applications[app.value].hasOnStart {
          CheckArguments();
          trace := trace + [AppStart(app.value, ArgvView(buffer[..], argv[..], 0))];
        }
      }
    }

    /** `ExecuteCommand`. */
    method ExecuteCommand(command: Option<nat>)
      requires Valid() && (command.Some? ==> command.value < |config.commands|)
      modifies this, buffer, argv
      ensures Valid() && Snap() == AfterExecute(config, old(Snap()), command)
    {
      if command.Some? {
        if config.hasOutput {
          CheckArguments();
          var output := config.commands[command.value].execute(ArgvView(buffer[..], argv[..], 0), ViewOf(config, states));
          trace := trace + Outputs(output);
        }
      } else {
        if runningApplication.Some? {
          status := CanRead;
        } else if config.hasError {
          trace := trace + NotFound(CString(buffer[..], 0));
        }
      }
      bufferPosition := 0;
      buffer[bufferPosition] := NUL;
    }

    /** `ExecuteService`. */
    method ExecuteService()
      requires Valid()
      modifies this
      ensures Valid() && Snap() == AfterService(config, old(Snap()))
    {
      if serviceCount != 0 {
        if serviceRunning == |config.services| {
          serviceRunning := 0;
        }
        var next := NextBusy(states, serviceRunning);
        if next.Some? {
          var k := next.value;
          states := states[k := config.services[k].run(states[k])];
          serviceRunning := k + 1;
        }
      }
    }
  }

  /** The name loop of `CheckArguments`: stops at the first space, or returns
      at a NUL met before it. */
  method SkipName(buf: array<byte>) returns (p: nat)
    requires NulFrom(buf[..], 0)
    ensures p == NameEnd(buf[..], 0)
  {
    p := 0;
    while buf[p] != SpaceAscii
      invariant NulFrom(buf[..], p) && NameEnd(buf[..], p) == NameEnd(buf[..], 0)
      decreases buf.Length - p
    {
      if buf[p] == NUL {
        return;
      }
      p := p + 1;
    }
  }

  /** The space loop of `CheckArguments`. Its NUL test can never succeed,
      since the loop only runs on a space, and is left out. */
  method SkipSpaces(buf: array<byte>, from: nat) returns (p: nat)
    requires NulFrom(buf[..], from)
    ensures p == SpacesEnd(buf[..], from)
  {
    p := from;
    while buf[p] == SpaceAscii
      invariant NulFrom(buf[..], p) && SpacesEnd(buf[..], p) == SpacesEnd(buf[..], from)
      decreases buf.Length - p
    {
      p := p + 1;
    }
  }

  /** The walk of `ExecuteService` from `start` past stopped services,
      wrapping at the sentinel, until a service that is not stopped or until
      it is back at the byte copy of `start` it began from. */
  method NextBusy(states: seq<byte>, start: nat) returns (r: Option<nat>)
    requires start < |states| < 0x100
    ensures r == Scheduler.Probe(states, start, 0)
  {
    var n := |states|;
    var reference: byte := start as byte;
    var cursor := start;
    ghost var d := 0;
    while states[cursor] == Stopped
      invariant d < n && cursor == Scheduler.Cyc(start, d, n)
      invariant Scheduler.Probe(states, start, 0) == Scheduler.Probe(states, start, d)
      decreases n - d
    {
      cursor := cursor + 1;
      if cursor == n {
        cursor := 0;
      }
      d := d + 1;
      if cursor == reference as nat {
        return None;
      }
    }
    return Some(cursor);
  }

  /** Copies the name into a fresh buffer and terminates it, as `CheckCommand`
      does with its static string buffer. */
  method CopyName(buf: array<byte>) returns (commandName: array<byte>)
    requires NulFrom(buf[..], 0)
    ensures fresh(commandName) && NulFrom(commandName[..], 0)
    ensures CString(commandName[..], 0) == Name(buf[..])
  {
    var p := 0;
    while buf[p] != SpaceAscii && buf[p] != NUL
      invariant NulFrom(buf[..], p) && NameEnd(buf[..], p) == NameEnd(buf[..], 0)
      decreases buf.Length - p
    {
      p := p + 1;
    }
    var index := p;
    NameEndRun(buf[..], 0);
    commandName := new byte[buf.Length];
    CStrings.StrNCopy(commandName, buf, index);
    commandName[index] := NUL;
    CStringIs(commandName[..], 0, Name(buf[..]));
  }

  /** One of `CheckCommand`'s registry loops: the first entry whose name
      `strcmp` finds equal to the name in `commandName`. */
  method FindName(commandName: array<byte>, names: seq<seq<byte>>) returns (r: Option<nat>)
    requires NulFrom(commandName[..], 0)
    requires forall i :: 0 <= i < |names| ==> IsCString(names[i])
    ensures r == FirstIndex(names, CString(commandName[..], 0), 0)
  {
    ghost var x := CString(commandName[..], 0);
    var i := 0;
    while i < |names|
      invariant i <= |names| && FirstIndex(names, x, 0) == FirstIndex(names, x, i)
    {
      CStringIs(names[i] + [NUL], 0, names[i]);
      var order := CStrings.StrCmp(commandName[..], names[i] + [NUL]);
      if order == 0 {
        return Some(i);
      }
      i := i + 1;
    }
    return None;
  }
}
