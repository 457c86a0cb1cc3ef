/** The example terminal of Example/CommandEngine.c: two background services
    given by their step functions, an example command and an example
    application, and the engine configuration that registers the `help` and
    `clear` commands, the application and both services. */
module Example {
  import opened Bytes
  import opened Definitions
  import opened Engine
  import Scheduler
  import Help

  /** `ServiceExample1Implementation`: a service that cycles forever. */
  function ServiceExample1(state: byte): (r: byte)
    ensures r == 0x01 || r == Stopped
    ensures r == Stopped <==> state > 0x02
  {
    if state == Starting then 0x01
    else if state == 0x01 then 0x01
    else if state == 0x02 then 0x01
    else Stopped
  }

  /** `ServiceExample2Implementation`: a service that runs two steps and stops. */
  function ServiceExample2(state: byte): (r: byte)
    ensures state < 0x02 ==> r == state + 1
    ensures r == Stopped <==> state >= 0x02
  {
    if state == Starting then 0x01
    else if state == 0x01 then 0x02
    else Stopped
  }

  /** `n` steps of a service started in `state`. */
  function Steps(run: byte -> byte, state: byte, n: nat): byte
    decreases n
  {
    if n == 0 then state else Steps(run, run(state), n - 1)
  }

  /** Once past `Starting`, the first service stays in state 0x01. */
  lemma {:induction false} Example1Settles(n: nat)
    ensures Steps(ServiceExample1, 0x01, n) == 0x01
  {
    if n > 0 {
      Example1Settles(n - 1);
    }
  }

  /** Started, the first service never stops. */
  lemma Example1NeverStops(n: nat)
    ensures Steps(ServiceExample1, Starting, n) != Stopped
  {
    if n > 0 {
      Example1Settles(n - 1);
    }
  }

  /** Started, the second service stops after exactly three steps and stays
      stopped. */
  lemma {:induction false} Example2StopsAfterThree(n: nat)
    ensures Steps(ServiceExample2, Starting, n) == Stopped <==> n >= 3
  {
    if n >= 3 {
      assert Steps(ServiceExample2, 0x01, n - 1) == Steps(ServiceExample2, 0x02, n - 2);
      assert Steps(ServiceExample2, 0x02, n - 2) == Steps(ServiceExample2, Stopped, n - 3);
      Example2StaysStopped(n - 3);
    }
  }

  lemma {:induction false} Example2StaysStopped(n: nat)
    ensures Steps(ServiceExample2, Stopped, n) == Stopped
  {
    if n > 0 {
      Example2StaysStopped(n - 1);
    }
  }

  const Done: seq<byte> := CmdCrlf + Ascii("Done.") + CmdCrlf

  /** `ExampleCommand`: registered under no help text, and answering "Done."
      whatever its arguments. It is defined but not in the command registry. */
  const ExampleCommand: Command := Command(
    Ascii("example-command"),
    (args: seq<seq<byte>>, v: RegistryView) => CommandResult([], Some(Done)),
    None)

  /** `ClearCommand` (command_clear.c): returns the clear-screen string. */
  const ClearCommand: Command := Command(
    Ascii("clear"),
    (args: seq<seq<byte>>, v: RegistryView) => CommandResult([], Some(CmdClearScreen)),
    Some(Ascii("Clears the console.")))

  /** `ExampleApplication`, with all three callbacks set. */
  const ExampleApplication: Application :=
    Application(Ascii("example.exe"), Some(Ascii("Example process")), true, true)

  const Example1Service: Service :=
    Service(Ascii("Example service 1"), Some(Ascii("Example background service that runs forever")),
            ServiceExample1)

  const Example2Service: Service :=
    Service(Ascii("Example service 2"), Some(Ascii("Example background service that runs on demand")),
            ServiceExample2)

  /** The first service's state is zero-initialised; the second starts stopped. */
  const InitialStates: seq<byte> := [Starting, Stopped]

  /** `MAX_BUFFER`. */
  const MaxBuffer: nat := 0xFF

  /** `CurrentCommandEngine`: both writers are set and the prompt is "$> ". */
  function Configuration(): (r: Config)
    ensures |r.commands| == 2 && r.commands[0] == Help.HelpCommand
    ensures |r.applications| == 1 && |r.services| == 2 && r.capacity == MaxBuffer
  {
    Config([Help.HelpCommand, ClearCommand], [ExampleApplication], [Example1Service, Example2Service],
           true, true, Some(Ascii("$> ")), MaxBuffer)
  }

  lemma AsciiIsCString(s: string)
    requires forall i :: 0 <= i < |s| ==> 0 < s[i] as int < 256
    ensures IsCString(Ascii(s))
  {
    forall i | 0 <= i < |s| ensures Ascii(s)[i] != NUL {
    }
  }

  /** The example configuration meets the engine's requirements. */
  lemma ConfigurationOk()
    ensures ConfigOk(Configuration())
  {
    AsciiIsCString("help");
    AsciiIsCString("clear");
    AsciiIsCString("example.exe");
  }

  /** The example command answers the same whatever it is given. */
  lemma ExampleCommandAnswers(args: seq<seq<byte>>, v: RegistryView)
    ensures ExampleCommand.execute(args, v) == CommandResult([], Some(Done))
    ensures Outputs(ExampleCommand.execute(args, v)) == [Output(Done)]
  {
  }

  /** The first tick counts both services and writes the prompt. */
  lemma FirstTick()
    ensures ConfigOk(Configuration()) && Inv(Configuration(), Initial(Configuration(), InitialStates))
    ensures var r := AfterTick(Configuration(), Initial(Configuration(), InitialStates));
      && r.serviceCount == 2 && r.serviceRunning == 0 && r.status == CanRead
      && r.trace == [Output(Ascii("$> "))]
  {
    ConfigurationOk();
    InitialInv(Configuration(), InitialStates);
  }

  /** The longest line is 254 bytes: at that length every byte but NUL and
      RETURN is dropped with an overflow report. */
  lemma LongestLine(e: State, k: byte)
    requires Inv(Configuration(), e) && e.running.None?
    requires k != NUL && k != ReturnAscii
    ensures e.position <= 254
    ensures e.position == 254 ==>
      AfterKeystroke(Configuration(), e, k) == e.(trace := e.trace + [Error(OverflowMessage)])
  {
    ConfigurationOk();
    if e.position == 254 {
      KeystrokeAtLimit(Configuration(), e, k);
    }
  }

  /** While the second service is stopped, no tick runs it. */
  lemma Example2IdleWhileStopped(e: State)
    requires Inv(Configuration(), e) && e.states[1] == Stopped
    ensures e.status == CanRead && e.serviceCount != 0 ==> Scheduler.Pick(e.states, e.serviceRunning) != Some(1)
    ensures AfterTick(Configuration(), e).states[1] == Stopped
  {
    ConfigurationOk();
    if e.status == CanRead && e.serviceCount != 0 {
      Scheduler.StoppedNeverRuns(e.states, e.serviceRunning, 1);
      ServiceTick(Configuration(), e);
    } else if e.status == CanParseForCommand {
      ParseKeepsInv(Configuration(), e);
    } else if e.status == CanExecuteCommand {
      ExecuteTick(Configuration(), e);
    }
  }

  /** "help" and "clear" resolve to the two commands, "example.exe" to the
      application, and "example-command" to nothing: it is not registered. */
  lemma ExampleNames()
    ensures FirstIndex(CommandNames(Configuration()), Ascii("help"), 0) == Some(0)
    ensures FirstIndex(CommandNames(Configuration()), Ascii("clear"), 0) == Some(1)
    ensures FirstIndex(CommandNames(Configuration()), Ascii("example.exe"), 0) == None
    ensures FirstIndex(ApplicationNames(Configuration()), Ascii("example.exe"), 0) == Some(0)
    ensures FirstIndex(CommandNames(Configuration()), ExampleCommand.name, 0) == None
    ensures FirstIndex(ApplicationNames(Configuration()), ExampleCommand.name, 0) == None
  {
    var cs := CommandNames(Configuration());
    var ans := ApplicationNames(Configuration());
    assert cs == [Ascii("help"), Ascii("clear")];
    assert ans == [Ascii("example.exe")];
  }

  /** With two services and one application, the help listing as written
      reads past the applications sentinel. */
  lemma HelpAsWrittenFailsHere(states: seq<byte>)
    requires |states| == 2
    ensures Help.HelpListingAsWritten(ViewOf(Configuration(), states)) == None
  {
  }
}
