/** The `services` command (command_services.c): a banner, then one row per
    registered service in registry order, then a final line break. Each
    element of a listing is the string of one `WriteToOutput` call. */
module ServicesListing {
  import opened Bytes
  import opened Definitions
  import opened Listing

  const Banner: seq<byte> :=
    CmdMakeBold + CmdMakeGreen + CmdCrlf
    + CmdCrlf + Ascii(" (*)") + CmdMakeWhite + Ascii(" Available services in this terminal")
    + CmdCrlf + CmdCrlf + CmdClearAttributes

  /** The eight writes for one service: its name, its state label, "0x" and
      its state in two hex digits, and its description. */
  function Row(s: ServiceEntry): seq<seq<byte>>
  {
    [s.name, Ascii("\t\t["), StateLabel(s.state), Ascii("] / [0x"), HexOf(s.state),
     Ascii("]") + CmdCrlf + Ascii("\t"), Description(s.helpText), CmdCrlf]
  }

  function Rows(ss: seq<ServiceEntry>): (r: seq<seq<byte>>)
    ensures |r| == 8 * |ss|
  {
    if ss == [] then [] else Rows(ss[..|ss| - 1]) + Row(ss[|ss| - 1])
  }

  lemma RowsSnoc(ss: seq<ServiceEntry>, i: nat)
    requires i < |ss|
    ensures Rows(ss[..i + 1]) == Rows(ss[..i]) + Row(ss[i])
  {
    assert ss[..i + 1][..i] == ss[..i];
  }

  function ServicesListing(v: RegistryView): (r: seq<seq<byte>>)
    ensures |r| == 8 * |v.services| + 2
  {
    [Banner] + Rows(v.services) + [CmdCrlf]
  }

  lemma {:induction false} RowsAt(ss: seq<ServiceEntry>, i: nat, r: nat)
    requires i < |ss| && r < 8
    ensures Rows(ss)[8 * i + r] == Row(ss[i])[r]
  {
    var last := |ss| - 1;
    if i < last {
      RowsAt(ss[..last], i, r);
    }
  }

  /** Exactly one row per registered service, between the banner and the
      final line break. */
  lemma ListingFrame(v: RegistryView)
    ensures var l := ServicesListing(v);
      && |l| == 8 * |v.services| + 2 && l[0] == Banner && l[|l| - 1] == CmdCrlf
  {
  }

  /** Row `i` of the listing shows service `i`'s own name, the label of its
      state, the state in hex (which determines it) and its description,
      "[ No description ]" when it has no help text. */
  lemma ListingRow(v: RegistryView, i: nat)
    requires i < |v.services|
    ensures var s := v.services[i]; var l := ServicesListing(v);
      && l[1 + 8 * i] == s.name
      && l[3 + 8 * i] == StateLabel(s.state)
      && l[4 + 8 * i] == Ascii("] / [0x")
      && ParseHex(l[5 + 8 * i]) == Some(s.state)
      && l[7 + 8 * i] == (if s.helpText.Some? then s.helpText.value else NoDescription)
  {
    RowsAt(v.services, i, 0);
    RowsAt(v.services, i, 2);
    RowsAt(v.services, i, 3);
    RowsAt(v.services, i, 4);
    RowsAt(v.services, i, 6);
    HexRoundTrip(v.services[i].state);
  }

  /** The `for` loop of `ServicesCommandImplementation`, filling the local
      `hex` buffer for each service. */
  method WriteRows(ss: seq<ServiceEntry>) returns (writes: seq<seq<byte>>)
    requires |ss| < 0x1_0000
    ensures writes == Rows(ss)
  {
    writes := [];
    var hex := new byte[3];
    for i := 0 to |ss|
      invariant writes == Rows(ss[..i])
    {
      var s := ss[i];
      var description := Description(s.helpText);
      var state := StateLabel(s.state);
      FillHex(hex, s.state);
      var row := [s.name, Ascii("\t\t["), state, Ascii("] / [0x"), hex[..2],
                  Ascii("]") + CmdCrlf + Ascii("\t"), description, CmdCrlf];
      RowsSnoc(ss, i);
      writes := writes + row;
    }
    assert ss[..|ss|] == ss;
  }

  /** `ServicesCommandImplementation`: writes the listing through the output
      writer one string at a time and returns NULL. The loop counts with
      `unsigned short`. */
  method ServicesCommandImplementation(args: seq<seq<byte>>, v: RegistryView) returns (r: CommandResult)
    requires |v.services| < 0x1_0000
    ensures r.writes == ServicesListing(v) && r.returned == None
  {
    var rows := WriteRows(v.services);
    r := CommandResult([Banner] + rows + [CmdCrlf], None);
  }

  const ServicesCommand: Command := Command(
    Ascii("services"),
    (args: seq<seq<byte>>, v: RegistryView) => CommandResult(ServicesListing(v), None),
    Some(Ascii("Provides details of the background services.")))
}
