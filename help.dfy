/** The `help` command (command_help.c): a banner, then the Commands, the
    Applications and the Services registries, each entry on its own rows in
    registry order, then a final line break. Each element of a listing is the
    string of one `WriteToOutput` call. */
module Help {
  import opened Bytes
  import opened Definitions
  import opened Listing

  function Repeat(c: byte, n: nat): (r: seq<byte>)
    ensures |r| == n
  {
    seq(n, _ => c)
  }

  const Stars: seq<byte> := Repeat(0x2A, 71)

  const Banner: seq<byte> :=
    CmdMakeBold + CmdMakeGreen + CmdCrlf + Stars
    + CmdCrlf + Ascii("**") + CmdMakeWhite + Ascii(" Available commands in this terminal") + Repeat(SpaceAscii, 31)
    + CmdMakeGreen + Ascii("**")
    + CmdCrlf + Stars
    + CmdCrlf + CmdCrlf + CmdClearAttributes
    + CmdMakeGreen + Ascii("Commands:")
    + CmdCrlf + CmdClearAttributes

  const ApplicationsHeading: seq<byte> :=
    CmdMakeGreen + CmdCrlf + Ascii("Applications:") + CmdCrlf + CmdClearAttributes

  const ServicesHeading: seq<byte> :=
    CmdMakeGreen + CmdCrlf + Ascii("Services:") + CmdCrlf + CmdClearAttributes

  /** The four writes for a command or an application. */
  function EntryRow(e: Entry): seq<seq<byte>>
  {
    [e.name, CmdCrlf + Ascii("\t"), Description(e.helpText), CmdCrlf]
  }

  /** The eight writes for a service, showing `name` as its name. */
  function ServiceRow(name: seq<byte>, s: ServiceEntry): seq<seq<byte>>
  {
    [name, Ascii("\t\t["), StateLabel(s.state), Ascii("] / ["), HexOf(s.state),
     Ascii("]") + CmdCrlf + Ascii("\t"), Description(s.helpText), CmdCrlf]
  }

  function EntryRows(es: seq<Entry>): (r: seq<seq<byte>>)
    ensures |r| == 4 * |es|
  {
    if es == [] then [] else EntryRows(es[..|es| - 1]) + EntryRow(es[|es| - 1])
  }

  function ServiceRows(ss: seq<ServiceEntry>): (r: seq<seq<byte>>)
    ensures |r| == 8 * |ss|
  {
    if ss == [] then [] else ServiceRows(ss[..|ss| - 1]) + ServiceRow(ss[|ss| - 1].name, ss[|ss| - 1])
  }

  lemma EntryRowsSnoc(es: seq<Entry>, i: nat)
    requires i < |es|
    ensures EntryRows(es[..i + 1]) == EntryRows(es[..i]) + EntryRow(es[i])
  {
    assert es[..i + 1][..i] == es[..i];
  }

  lemma ServiceRowsSnoc(ss: seq<ServiceEntry>, i: nat)
    requires i < |ss|
    ensures ServiceRows(ss[..i + 1]) == ServiceRows(ss[..i]) + ServiceRow(ss[i].name, ss[i])
  {
    assert ss[..i + 1][..i] == ss[..i];
  }

  /** The listing, each service under its own name. */
  function HelpListing(v: RegistryView): (r: seq<seq<byte>>)
    ensures |r| == 4 * |v.commands| + 4 * |v.applications| + 8 * |v.services| + 4
    ensures r[0] == Banner && r[|r| - 1] == CmdCrlf
  {
    [Banner] + EntryRows(v.commands) + [ApplicationsHeading] + EntryRows(v.applications)
    + [ServicesHeading] + ServiceRows(v.services) + [CmdCrlf]
  }

  /** The rows of entry `i` are the `4 * i`-th to `4 * i + 3`-rd writes. */
  lemma {:induction false} EntryRowsAt(es: seq<Entry>, i: nat, r: nat)
    requires i < |es| && r < 4
    ensures EntryRows(es)[4 * i + r] == EntryRow(es[i])[r]
  {
    var last := |es| - 1;
    if i < last {
      EntryRowsAt(es[..last], i, r);
    }
  }

  /** The rows of service `i` are the `8 * i`-th to `8 * i + 7`-th writes,
      and they show the service's own name. */
  lemma {:induction false} ServiceRowsAt(ss: seq<ServiceEntry>, i: nat, r: nat)
    requires i < |ss| && r < 8
    ensures ServiceRows(ss)[8 * i + r] == ServiceRow(ss[i].name, ss[i])[r]
  {
    var last := |ss| - 1;
    if i < last {
      ServiceRowsAt(ss[..last], i, r);
    }
  }

  /** The frame of the listing: the banner first, the Applications heading
      after the command rows, the Services heading after the application
      rows and a final line break after the service rows. */
  lemma HelpFrame(v: RegistryView)
    ensures var l := HelpListing(v);
      var c := |v.commands|; var a := |v.applications|; var s := |v.services|;
      && |l| == 4 * c + 4 * a + 8 * s + 4
      && l[0] == Banner && l[1 + 4 * c] == ApplicationsHeading
      && l[2 + 4 * c + 4 * a] == ServicesHeading && l[|l| - 1] == CmdCrlf
  {
  }

  /** Command `i`'s rows are writes `1 + 4 * i` to `4 + 4 * i`, in registry
      order. */
  lemma HelpCommandRows(v: RegistryView)
    ensures forall i, r :: 0 <= i < |v.commands| && 0 <= r < 4 ==>
      HelpListing(v)[1 + 4 * i + r] == EntryRow(v.commands[i])[r]
  {
    forall i, r | 0 <= i < |v.commands| && 0 <= r < 4
      ensures HelpListing(v)[1 + 4 * i + r] == EntryRow(v.commands[i])[r]
    {
      EntryRowsAt(v.commands, i, r);
    }
  }

  /** Application `i`'s rows follow the Applications heading, in registry
      order. */
  lemma HelpApplicationRows(v: RegistryView)
    ensures var c := |v.commands|;
      forall i, r :: 0 <= i < |v.applications| && 0 <= r < 4 ==>
        HelpListing(v)[2 + 4 * c + 4 * i + r] == EntryRow(v.applications[i])[r]
  {
    var c := |v.commands|;
    forall i, r | 0 <= i < |v.applications| && 0 <= r < 4
      ensures HelpListing(v)[2 + 4 * c + 4 * i + r] == EntryRow(v.applications[i])[r]
    {
      EntryRowsAt(v.applications, i, r);
    }
  }

  /** Service `i`'s rows follow the Services heading, in registry order, and
      show that service's own name. */
  lemma HelpServiceRows(v: RegistryView)
    ensures var c := |v.commands|; var a := |v.applications|;
      forall i, r :: 0 <= i < |v.services| && 0 <= r < 8 ==>
        HelpListing(v)[3 + 4 * c + 4 * a + 8 * i + r] == ServiceRow(v.services[i].name, v.services[i])[r]
  {
    var c := |v.commands|;
    var a := |v.applications|;
    forall i, r | 0 <= i < |v.services| && 0 <= r < 8
      ensures HelpListing(v)[3 + 4 * c + 4 * a + 8 * i + r] == ServiceRow(v.services[i].name, v.services[i])[r]
    {
      ServiceRowsAt(v.services, i, r);
    }
  }

  /** The service rows as written: row `i` shows the name of application
      `i`. Application `|applications|` is the NULL sentinel, so there is no
      listing (the pointer read is undefined) once there are more services
      than applications. */
  function ServiceRowsAsWritten(apps: seq<Entry>, ss: seq<ServiceEntry>): Option<seq<seq<byte>>>
  {
    if |ss| > |apps| then None
    else Some(ServiceRowsNamed(apps, ss))
  }

  function ServiceRowsNamed(apps: seq<Entry>, ss: seq<ServiceEntry>): (r: seq<seq<byte>>)
    requires |ss| <= |apps|
    ensures |r| == 8 * |ss|
  {
    if ss == [] then [] else ServiceRowsNamed(apps, ss[..|ss| - 1]) + ServiceRow(apps[|ss| - 1].name, ss[|ss| - 1])
  }

  function HelpListingAsWritten(v: RegistryView): (r: Option<seq<seq<byte>>>)
    ensures r.Some? <==> |v.services| <= |v.applications|
    ensures r.Some? ==> |r.value| == |HelpListing(v)| && r.value[0] == Banner
  {
    match ServiceRowsAsWritten(v.applications, v.services)
    case None => None
    case Some(rows) =>
      Some([Banner] + EntryRows(v.commands) + [ApplicationsHeading] + EntryRows(v.applications)
           + [ServicesHeading] + rows + [CmdCrlf])
  }

  /** As written, a registry with more services than applications makes the
      listing read past the applications sentinel; with one application "a"
      and one service "s" it shows the service under the name "a". */
  lemma HelpAsWrittenMisnames()
    ensures var app := Entry(Ascii("a"), None);
      var svc := ServiceEntry(Ascii("s"), None, Stopped);
      && HelpListingAsWritten(RegistryView([], [app], [svc, svc])) == None
      && HelpListingAsWritten(RegistryView([], [app], [svc])).Some?
      && HelpListingAsWritten(RegistryView([], [app], [svc])).value
           != HelpListing(RegistryView([], [app], [svc]))
  {
    var app := Entry(Ascii("a"), None);
    var svc := ServiceEntry(Ascii("s"), None, Stopped);
    var v := RegistryView([], [app], [svc]);
    HelpServiceRows(v);
    assert HelpListing(v)[7] == Ascii("s");
    assert HelpListingAsWritten(v).value[7] == Ascii("a");
    assert Ascii("a")[0] != Ascii("s")[0];
  }

  /** One `for` loop over a commands or applications registry. */
  method WriteEntryRows(es: seq<Entry>) returns (writes: seq<seq<byte>>)
    requires |es| < 0x1_0000
    ensures writes == EntryRows(es)
  {
    writes := [];
    for i := 0 to |es|
      invariant writes == EntryRows(es[..i])
    {
      var description := Description(es[i].helpText);
      EntryRowsSnoc(es, i);
      writes := writes + [es[i].name, CmdCrlf + Ascii("\t"), description, CmdCrlf];
    }
    assert es[..|es|] == es;
  }

  /** The `for` loop over the services registry, filling the local `hex`
      buffer for each service. */
  method WriteServiceRows(ss: seq<ServiceEntry>) returns (writes: seq<seq<byte>>)
    requires |ss| < 0x1_0000
    ensures writes == ServiceRows(ss)
  {
    writes := [];
    var hex := new byte[3];
    for i := 0 to |ss|
      invariant writes == ServiceRows(ss[..i])
    {
      var s := ss[i];
      var description := Description(s.helpText);
      var state := StateLabel(s.state);
      FillHex(hex, s.state);
      var row := [s.name, Ascii("\t\t["), state, Ascii("] / ["), hex[..2],
                  Ascii("]") + CmdCrlf + Ascii("\t"), description, CmdCrlf];
      ServiceRowsSnoc(ss, i);
      writes := writes + row;
    }
    assert ss[..|ss|] == ss;
  }

  /** `HelpCommandImplementation`: writes the listing through the output
      writer one string at a time and returns NULL, so the dispatcher writes
      nothing after it. The loops count with `unsigned short`. */
  method HelpCommandImplementation(args: seq<seq<byte>>, v: RegistryView) returns (r: CommandResult)
    requires |v.commands| < 0x1_0000 && |v.applications| < 0x1_0000 && |v.services| < 0x1_0000
    ensures r.writes == HelpListing(v) && r.returned == None
  {
    var commands := WriteEntryRows(v.commands);
    var applications := WriteEntryRows(v.applications);
    var services := WriteServiceRows(v.services);
    r := CommandResult([Banner] + commands + [ApplicationsHeading] + applications
                       + [ServicesHeading] + services + [CmdCrlf], None);
  }

  const HelpCommand: Command := Command(
    Ascii("help"),
    (args: seq<seq<byte>>, v: RegistryView) => CommandResult(HelpListing(v), None),
    Some(Ascii("Provides descriptions for commands.")))
}
