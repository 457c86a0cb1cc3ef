/** The constants and record types of the engine's interface (commands.h), and
    the descriptor types the registries hold. */
module Definitions {
  import opened Bytes

  /** The largest number of arguments the tokeniser collects. */
  const MaxCmdArgs: nat := 5

  const EscAscii: byte := 0x1b
  const TabAscii: byte := 0x09
  const ReturnAscii: byte := 0x0D
  const BackspaceAscii: byte := 0x7F
  /** ETX, End Of Text: the interrupt key. */
  const CtrlCAscii: byte := 0x03
  const SpaceAscii: byte := 0x20

  /** The two reserved service states. */
  const Stopped: byte := 0xFF
  const Starting: byte := 0x00

  /** The engine's outer status; the source's codes are 0x00, 0x01, 0x02,
      0x04 and 0x08 in this order. */
  datatype Status = Initialize | CanRead | CanWrite | CanParseForCommand | CanExecuteCommand

  /** Terminal strings the engine forwards verbatim. Their macros are outside
      the modelled files; the values below stand for them and no property
      depends on their bytes beyond being fixed. */
  const CmdLf: seq<byte> := Ascii("\n")
  const CmdCrlf: seq<byte> := Ascii("\r\n")
  const CmdMakeBold: seq<byte> := [EscAscii] + Ascii("[1m")
  const CmdMakeRed: seq<byte> := [EscAscii] + Ascii("[31m")
  const CmdMakeGreen: seq<byte> := [EscAscii] + Ascii("[32m")
  const CmdMakeWhite: seq<byte> := [EscAscii] + Ascii("[37m")
  const CmdClearAttributes: seq<byte> := [EscAscii] + Ascii("[0m")
  const CmdClearScreen: seq<byte> := [EscAscii] + Ascii("[2J") + [EscAscii] + Ascii("[H")

  /** What a command callback can see of the engine: the three registries with
      their names and help texts, and every service's current state. */
  datatype Entry = Entry(name: seq<byte>, helpText: Option<seq<byte>>)
  datatype ServiceEntry = ServiceEntry(name: seq<byte>, helpText: Option<seq<byte>>, state: byte)
  datatype RegistryView = RegistryView(commands: seq<Entry>, applications: seq<Entry>, services: seq<ServiceEntry>)

  /** What a command body does: the strings it writes through the output writer
      itself, and the string it returns for the dispatcher to write (NULL: none). */
  datatype CommandResult = CommandResult(writes: seq<seq<byte>>, returned: Option<seq<byte>>)

  datatype Command = Command(
    name: seq<byte>,
    execute: (seq<seq<byte>>, RegistryView) -> CommandResult,
    helpText: Option<seq<byte>>)

  /** An application; its three callbacks are observed as events, and whether
      the optional OnStart and OnClose are set is recorded. */
  datatype Application = Application(
    name: seq<byte>,
    helpText: Option<seq<byte>>,
    hasOnStart: bool,
    hasOnClose: bool)

  /** A background service: its step function from the current state to the next. */
  datatype Service = Service(
    name: seq<byte>,
    helpText: Option<seq<byte>>,
    run: byte -> byte)
}
