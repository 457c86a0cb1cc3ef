/** The pieces the `help` and `services` commands build their service rows
    from (command_help.c:5, 20-22, 52-61; command_services.c:14-22): the
    `TO_HEX` digit of a nibble, the two-digit hex encoding of a state, the
    Stopped / Starting / Running label and the default description. The unsupported-key
    error of the engine (commands.c:158-165) uses the same hex encoding. */
module Listing {
  import opened Bytes
  import opened Definitions

  /** `TO_HEX`: '0'..'9' for 0..9, then 'A'..'F'. */
  function HexDigit(v: nat): (c: byte)
    requires v < 16
    ensures 0x30 <= c <= 0x39 || 0x41 <= c <= 0x46
    ensures c <= 0x39 <==> v <= 9
  {
    if v <= 9 then (0x30 + v) as byte else (0x41 - 10 + v) as byte
  }

  /** The value of a hex digit as `TO_HEX` writes it; `None` for any other byte. */
  function DigitValue(c: byte): (r: Option<nat>)
    ensures r.Some? ==> r.value < 16
  {
    if 0x30 <= c <= 0x39 then Some(c as nat - 0x30)
    else if 0x41 <= c <= 0x46 then Some(c as nat - 0x41 + 10)
    else None
  }

  /** `TO_HEX` is injective and writes only upper-case hex digits: reading
      the digit back gives the nibble, and every digit is some nibble's. */
  lemma HexDigitRoundTrip(v: nat, c: byte)
    requires v < 16
    ensures DigitValue(HexDigit(v)) == Some(v)
    ensures DigitValue(c) == Some(v) ==> HexDigit(v) == c
  {
  }

  /** `(state & 0xF0) >> 4` and `state & 0x0F`: the high and the low four
      bits of the byte. */
  function HighNibble(b: byte): (r: nat)
    ensures r < 16
  {
    b as nat / 16
  }

  function LowNibble(b: byte): (r: nat)
    ensures r < 16
  {
    b as nat % 16
  }

  /** The two hex digits of a state: high nibble first. */
  function HexOf(b: byte): (r: seq<byte>)
    ensures |r| == 2 && IsCString(r)
  {
    [HexDigit(HighNibble(b)), HexDigit(LowNibble(b))]
  }

  /** Fills a local `hex[3]` buffer as the source does: the two digits and
      a NUL. */
  method FillHex(hex: array<byte>, b: byte)
    requires hex.Length == 3
    modifies hex
    ensures hex[..2] == HexOf(b) && hex[2] == NUL
  {
    hex[0] := HexDigit(HighNibble(b));
    hex[1] := HexDigit(LowNibble(b));
    hex[2] := NUL;
  }

  /** Reads two hex digits back into a byte. */
  function ParseHex(h: seq<byte>): Option<byte>
  {
    if |h| != 2 then None
    else match (DigitValue(h[0]), DigitValue(h[1]))
      case (Some(hi), Some(lo)) => Some((16 * hi + lo) as byte)
      case _ => None
  }

  /** The hex field of a state determines the state. */
  lemma HexRoundTrip(b: byte)
    ensures ParseHex(HexOf(b)) == Some(b)
  {
    HexDigitRoundTrip(HighNibble(b), 0);
    HexDigitRoundTrip(LowNibble(b), 0);
  }

  const StoppedLabel: seq<byte> := CmdMakeRed + Ascii("Stopped") + CmdClearAttributes
  const StartingLabel: seq<byte> := CmdMakeGreen + Ascii("Starting") + CmdClearAttributes
  const RunningLabel: seq<byte> := CmdMakeGreen + Ascii("Running") + CmdClearAttributes

  /** The label a listing shows for a service state. */
  function StateLabel(state: byte): (r: seq<byte>)
    ensures r == StoppedLabel || r == StartingLabel || r == RunningLabel
  {
    if state == Stopped then StoppedLabel
    else if state == Starting then StartingLabel
    else RunningLabel
  }

  /** The label is "Stopped" exactly for the stopped state, "Starting" exactly
      for the starting state and "Running" exactly for every other state. */
  lemma StateLabelClasses(state: byte)
    ensures StateLabel(state) == StoppedLabel <==> state == Stopped
    ensures StateLabel(state) == StartingLabel <==> state == Starting
    ensures StateLabel(state) == RunningLabel <==> state != Stopped && state != Starting
  {
    assert |StoppedLabel| == |RunningLabel| < |StartingLabel|;
    assert StoppedLabel[3] == 0x31 && RunningLabel[3] == 0x32;
  }

  const NoDescription: seq<byte> := Ascii("[ No description ]")

  /** The text shown for an entry's help: its own, or the default for NULL. */
  function Description(help: Option<seq<byte>>): (r: seq<byte>)
    ensures help.Some? ==> r == help.value
    ensures help.None? ==> r == NoDescription
  {
    match help
    case Some(text) => text
    case None => NoDescription
  }
}
