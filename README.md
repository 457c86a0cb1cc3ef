# A verified model of the Commands console engine

The Commands library is a small console for microcontrollers. Bytes typed at a
terminal are fed one at a time to `AddKeystroke`. The main loop calls
`DoTasks` over and over. The engine edits one line in a fixed-capacity buffer
and echoes what is typed. On RETURN it resolves the line's first word against
a registry of commands, then against a registry of applications. It runs the
command, or gives the keyboard to the application, then re-prompts. Between
lines it steps background services round-robin: on each tick the first
service that is not stopped advances its state machine by one step. The
`help` and `services` commands list the registries and the service states.

The model is written in Dafny, one module per part of the program:

- `Bytes`: bytes, NULL-able values, and NUL-terminated strings addressed by
  buffer position.
- `Definitions`: the header's constants and the descriptor records.
- `CStrings`: the engine's private `strncpy`, `strlen` and `strcmp`, as loops
  over arrays.
- `Tokenizer`: `StringToArgs`, working in place on the line buffer and the
  argument table. Its specification is the word structure of the raw string.
- `Scheduler`: the round-robin walk of `ExecuteService` as a function, with
  its fairness lemmas.
- `Engine`:
  - the engine state as a value, with one function per entry point giving the
    state after it;
  - the lemmas about those functions;
  - the class `CommandEngine`, whose methods update its fields, the line
    buffer and the argument table in place. Each method is proved to reach
    exactly the state the matching function describes.
- `Listing`, `Help`, `ServicesListing`: the two listing commands. Each is a
  pure listing function over a view of the registries, plus the source's
  `for` loops as methods proved to produce that listing.
- `Example`: the example terminal's services, command, application and
  configuration.

Writer output and application callbacks are recorded in order as a trace of
events. Each write through the output or error writer is one event. Calls to
an application's `Execute`, `OnStart` and `OnClose` are events too.

Registries are sequences. The NULL sentinel of the source is the index equal
to the sequence's length. Applications and commands are designated by their
registry index. `RunningApplication` and `ParsedCommand` are indices or
`None`.

## Model

| member | source | states |
|---|---|---|
| CStrings.StrNCopy | commands.c:10-19 | copies the first min(size, length) bytes of the source string and writes nothing else, in particular no terminator |
| CStrings.StrLen | commands.c:21-32 | returns the distance to the first NUL, truncated to `unsigned short` |
| CStrings.StrCmp | commands.c:34-43 | returns 0 exactly when the two C strings are equal |
| Tokenizer.WordStartsSound | commands.c:334-347 | every recorded start position begins a maximal run of non-separators |
| Tokenizer.WordStartsComplete | commands.c:334-347 | every position that begins such a run is recorded |
| Tokenizer.WordStartsOrdered | commands.c:334-351 | the start positions increase, and each word ends before the next begins |
| Tokenizer.WordsAreMaximalRuns | commands.c:334-351 | each argument is a non-empty run of bytes other than space and tab, bounded by separators or the string's ends |
| Tokenizer.ScanMeetsWords | commands.c:334-361 | the source's scan stores the first `MAX_CMD_ARGS` word starts; it writes the NULL entry exactly when the string is empty, has 1 to 4 words, or has exactly 5 words ending at the NUL; its count is 0 when it stops with bytes left over |
| Tokenizer.TerminatorSlotOverflows | commands.c:342-356 | with "a b c d e" the NULL entry goes to index `MAX_CMD_ARGS`, one past the source's table |
| Tokenizer.TerminatorSlotOverflowsExactly | commands.c:342-356 | on every raw string, the NULL entry goes to index `MAX_CMD_ARGS` exactly when there are `MAX_CMD_ARGS` words and the last ends at the NUL |
| Tokenizer.Scan | commands.c:334-361 | the source's loop, one round per stored argument, never stores more than `MAX_CMD_ARGS` starts |
| Tokenizer.StringToArgs | commands.c:323-362 | the buffer afterwards has a NUL after each stored word and is otherwise unchanged; the table holds a pointer to each stored word, then the NULL entry if one is written; the returned count is the word count (or 0 on overflow) |
| Tokenizer.TokenisedKeepsNul | commands.c:358 | tokenising only writes NULs, so an existing NUL stays |
| Tokenizer.ArgvViewOfTokenised | commands.c:323-362 | a callee reading the table up to its NULL entry gets exactly the first `MAX_CMD_ARGS` words of the raw string |
| Scheduler.Schedule | commands.c:277-308 | one call of `ExecuteService` keeps the number of services and leaves the cursor within the registry or on its sentinel |
| Scheduler.ProbeReaches | commands.c:289-302 | the walk reaches a busy service when every slot before it is stopped |
| Scheduler.ProbeFirst | commands.c:289-302 | the walk stops at the nearest service that is not stopped and passes only stopped ones; it finds none only when all are stopped |
| Scheduler.PickIsFirstBusy | commands.c:284-305 | service k is run exactly when it is not stopped and every slot from the wrapped cursor up to k is stopped |
| Scheduler.PickNoneIffAllStopped | commands.c:289-301 | nothing is run exactly when every service is stopped |
| Scheduler.StoppedNeverRuns | commands.c:290 | a stopped service is never run |
| Scheduler.ScheduleEffect | commands.c:277-308 | one call stores the run service's next state, changes no other state and moves the cursor just past it; with all stopped it only wraps the cursor, and a second call does the same |
| Scheduler.NoStarvation | commands.c:277-308 | after t calls, t at most the number of slots the busy service lies ahead of the cursor (so t < n), the next call runs it, whatever the other services do |
| Listing.HexDigit | command_help.c:5 | `TO_HEX` gives '0' to '9' for the nibbles 0 to 9 and 'A' to 'F' above |
| Listing.StateLabel | command_help.c:52-56 | the label is one of Stopped, Starting and Running |
| Listing.Description | command_help.c:20-22 | an entry's own help text, or "[ No description ]" when it has none |
| Listing.HexDigitRoundTrip | command_help.c:5 | `TO_HEX` writes digits 0-9 and A-F and is injective: reading the digit back gives the nibble |
| Listing.FillHex | command_help.c:58-61 | the local buffer holds the high-nibble digit, the low-nibble digit and a NUL |
| Listing.HexRoundTrip | command_help.c:58-61 | the two hex digits read back as the state |
| Listing.StateLabelClasses | command_help.c:52-56 | the label is Stopped iff the state is `Stopped`, Starting iff it is `Starting`, Running otherwise |
| Help.HelpListing | command_help.c:7-76 | the corrected listing of the Findings section: four writes per command and application, eight per service, the banner first and a line break last |
| Help.EntryRowsAt | command_help.c:17-42 | entry i's four writes are at positions 4i to 4i+3 |
| Help.ServiceRowsAt | command_help.c:46-71 | in the corrected listing of the Findings section, service i's eight writes are at positions 8i to 8i+7 and show its own name |
| Help.HelpFrame | command_help.c:9-73 | banner, Applications heading and Services heading sit after their sections, and a final line break ends the listing |
| Help.HelpCommandRows | command_help.c:17-28 | one row per command in registry order: its name, and its help text or "[ No description ]" |
| Help.HelpApplicationRows | command_help.c:32-42 | one row per application in registry order, after the Applications heading |
| Help.HelpServiceRows | command_help.c:46-71 | one row per service in registry order, showing the service's own name, label, hex state and description |
| Help.HelpAsWrittenMisnames | command_help.c:63 | as written, two services and one application give no listing (a read of the sentinel), and one application "a" with one service "s" shows the service as "a" |
| Help.WriteEntryRows | command_help.c:17-42 | the commands or applications loop writes exactly the entry rows |
| Help.WriteServiceRows | command_help.c:46-71 | the services loop, filling its hex buffer, writes exactly the service rows of the corrected listing of the Findings section, each under the service's own name |
| Help.HelpCommandImplementation | command_help.c:7-76 | writes exactly the corrected listing of the Findings section and returns NULL, so the dispatcher adds nothing |
| Help.HelpListingAsWritten | command_help.c:7-76 | the listing as written exists exactly when there are no more services than applications, and then has as many writes as the corrected one, starting with the banner |
| ServicesListing.ListingFrame | command_services.c:7-39 | banner, eight writes per service, final line break |
| ServicesListing.ListingRow | command_services.c:14-36 | row i shows service i's own name, its state label, "0x" and two hex digits that read back as its state, and its description or the default |
| ServicesListing.WriteRows | command_services.c:12-37 | the loop writes exactly the rows |
| ServicesListing.ServicesListing | command_services.c:7-39 | the listing has eight writes per service plus the banner and the final line break |
| ServicesListing.ServicesCommandImplementation | command_services.c:5-42 | writes exactly the listing and returns NULL |
| Engine.AfterKeystroke | commands.c:102-178 | a keystroke leaves the services, the cursor, the argument table and the parsed command alone, changes the focused application only by CTRL-C unfocusing it, keeps the buffer's size and only adds to the trace |
| Engine.AfterEdit | commands.c:131-172 | the in-range edit changes only the buffer, the position and the trace; the position moves by at most one and a NUL sits under it |
| Engine.AfterClose | commands.c:310-318 | `CloseApplication` unfocuses, sets `Initialize`, changes nothing else and adds at most the `OnClose` event |
| Engine.AfterArguments | commands.c:184-210 | `CheckArguments` changes only the buffer and the argument table, keeps their sizes, and with no text after the name only clears the first table entry |
| Engine.AfterParse | commands.c:212-248 | resolving a command changes nothing; otherwise at most an application becomes focused; the services, position, status and parsed command are kept and the trace only grows |
| Engine.AfterExecute | commands.c:250-275 | `ExecuteCommand` always empties the line and keeps the services and the focused application; the trace only grows |
| Engine.AfterRestart | commands.c:77-89 | the `Initialize` step sets `CanRead`, the full service count and cursor 0, keeps the line, the focus and the service states, and adds at most the prompt |
| Engine.AfterService | commands.c:277-308 | `ExecuteService` changes only the service states and the cursor, which stays within the registry or on its sentinel |
| Engine.AfterTick | commands.c:66-100 | a tick keeps the buffer's size, only adds to the trace, changes the focus only when parsing and the service states only when reading |
| Engine.InitialInv | commands.c:66-100 | a freshly configured engine satisfies the engine invariant |
| Engine.KeystrokeKeepsInv | commands.c:102-178 | a keystroke keeps the invariant: the position stays at most capacity − 1 with a NUL under it, and the table's last entry stays NULL |
| Engine.ParseKeepsInv | commands.c:212-248 | resolving keeps the invariant and returns a registered command or none |
| Engine.ExecuteKeepsInv | commands.c:250-275 | executing keeps the invariant |
| Engine.TickKeepsInv | commands.c:66-100 | every tick keeps the invariant |
| Engine.FirstIndexIs | commands.c:226-245 | the registry scan returns the first entry with the name, and none exactly when no entry has it |
| Engine.KeystrokeAppends | commands.c:147-155 | with room and no focused application, a byte above 31 other than 0x7F is stored at the position, the position goes up by one, the byte is echoed and the status is kept; when no NUL precedes the position, the line gains the byte |
| Engine.KeystrokeErases | commands.c:135-143 | with room, 0x7F at a position above 0 moves the position back by one over the typed bytes and echoes it; when no NUL precedes the position, the line loses its last byte; at position 0 it changes nothing |
| Engine.KeystrokeUnsupported | commands.c:156-166 | with room, a non-NUL byte below 32 other than RETURN (CTRL-C included) changes nothing but the trace, which gets the three "not supported" errors whose middle is the byte's two hex digits |
| Engine.KeystrokeAtLimit | commands.c:131-177 | at capacity − 1, every byte but NUL and RETURN, backspace included, leaves the engine unchanged and reports "Buffer overflow!" if an error writer is set |
| Engine.KeystrokeSubmits | commands.c:116-129 | NUL is ignored; RETURN keeps the buffer and asks for a parse on a non-empty line, or sets `Initialize` and writes a line feed on an empty one |
| Engine.KeystrokeFocused | commands.c:104-114 | with an application focused, every byte but CTRL-C goes to its `Execute` and nothing else changes; CTRL-C calls `OnClose` once if set, clears the focus and sets `Initialize` |
| Engine.KeystrokeKeepsClean | commands.c:131-171 | keystrokes never put a NUL before the position |
| Engine.ArgumentsAfterName | commands.c:184-210 | a callee receives the first `MAX_CMD_ARGS` words after the name and its spaces, and no argument when the name ends the line |
| Engine.Resolution | commands.c:212-248 | commands are searched before applications, each in registry order, and the first entry with the line's name wins; a command is returned with nothing changed; an application is focused and started with the arguments if it has `OnStart`; with no match nothing changes |
| Engine.ParseTickRunsNothing | commands.c:70-73 | the parse tick moves to `CanExecuteCommand` and runs no command: at most one `OnStart` event is added |
| Engine.ExecuteTick | commands.c:74-90 | the execute tick empties the line on every path, clears the parsed command, counts the services, resets the cursor and sets `CanRead`; it writes the command's output computed from the words after the name, or "not found" only when nothing matched and no application is focused; then the prompt |
| Engine.RestartTick | commands.c:77-90 | `Initialize` sets `CanRead`, cursor 0 and the full service count, and writes the prompt exactly when there is one and no application is focused |
| Engine.OtherTick | commands.c:94-96 | any other status becomes `Initialize` |
| Engine.ServiceTick | commands.c:91-93 | a reading tick does nothing before services are counted; after that it runs the first busy service at or after the cursor and moves the cursor past it, or only wraps the cursor when all are stopped |
| Engine.ReadingTicks | commands.c:91-93 | consecutive reading ticks are the scheduler's consecutive calls |
| Engine.NoServiceStarves | commands.c:277-308 | once services are counted, for a busy service i some tick among the next n picks service i, steps its state and moves the cursor to i + 1 |
| Engine.CommandLineRuns | commands.c:70-90 | two ticks after a line naming a command, the trace holds what the first command of that name computes from the words after the name, then the prompt, and the line is empty |
| Engine.ApplicationLineStarts | commands.c:70-90 | two ticks after a line naming an application and no command, that application is focused and started with the words after the name if it has `OnStart`, and no prompt is written |
| Engine.StaleLineKept | commands.c:66-89 | CTRL-C after an application was resolved but before the execute tick: the following `Initialize` tick keeps the buffer and the position, and the next printable byte is appended to the old line |
| Engine.CommandEngine.AddKeystroke | commands.c:102-178 | performs `AddKeystroke` in place, reaching the state the keystroke function describes |
| Engine.CommandEngine.EditLine | commands.c:131-172 | the in-range edit, including the local hex buffer, reaches the edit function's state |
| Engine.CommandEngine.CloseApplication | commands.c:310-318 | reaches the close function's state |
| Engine.CommandEngine.DoTasks | commands.c:66-100 | performs one tick in place, reaching the tick function's state, including the fall-through from executing to the reset |
| Engine.CommandEngine.Restart | commands.c:77-90 | counts the services up to the sentinel and reaches the reset state |
| Engine.CommandEngine.CheckArguments | commands.c:184-210 | clears the first table entry, then tokenises what follows the name and its spaces, if anything does |
| Engine.CommandEngine.CheckCommand | commands.c:212-248 | returns the resolved command and reaches the resolver's state |
| Engine.CommandEngine.ExecuteCommand | commands.c:250-275 | reaches the execute function's state |
| Engine.CommandEngine.ExecuteService | commands.c:277-308 | reaches the scheduler's result for the service states and the cursor |
| Engine.SkipName | commands.c:188-196 | stops at the first space, or at the NUL when none comes first |
| Engine.SkipSpaces | commands.c:198-205 | stops at the first byte that is not a space |
| Engine.NextBusy | commands.c:289-302 | the walk with its byte copy of the start returns the scheduler's choice |
| Engine.CopyName | commands.c:214-223 | the scratch buffer holds exactly the name as a C string |
| Engine.FindName | commands.c:225-232 | the `strcmp` scan returns the first registry index with the name |
| Example.ServiceExample1 | Example/CommandEngine.c:82-100 | the first example service goes to state 0x01 from `Starting`, 0x01 and 0x02, and stops from any other state |
| Example.ServiceExample2 | Example/CommandEngine.c:115-132 | the second example service steps `Starting` to 0x01 and 0x01 to 0x02, and stops from 0x02 and above |
| Example.Configuration | Example/CommandEngine.c:143-178 | the example engine registers the `help` and `clear` commands (help being the corrected listing), one application, two services and a 255-byte buffer |
| Example.Example1NeverStops | Example/CommandEngine.c:82-100 | started, the first example service never reaches `Stopped` |
| Example.Example2StopsAfterThree | Example/CommandEngine.c:115-132 | started, the second example service is `Stopped` exactly from the third step on |
| Example.ExampleCommandAnswers | Example/CommandEngine.c:23-27 | the example command answers "Done." whatever its arguments |
| Example.ConfigurationOk | Example/CommandEngine.c:144-178 | the example configuration meets the engine's requirements |
| Example.FirstTick | Example/CommandEngine.c:155-178 | the first tick counts 2 services, resets the cursor and writes the prompt "$> " |
| Example.LongestLine | Example/CommandEngine.c:9 | the line holds at most 254 bytes; at 254 every byte but NUL and RETURN is dropped with an overflow report |
| Example.Example2IdleWhileStopped | Example/CommandEngine.c:134-139 | while the second service is stopped, no reading tick picks it, and every tick leaves it stopped |
| Example.ExampleNames | Example/CommandEngine.c:144-153 | "help" and "clear" resolve to the two commands and "example.exe" to the application; "example-command" resolves to nothing |
| Example.HelpAsWrittenFailsHere | Example/CommandEngine.c:150-159 | with this configuration's two services and one application, the help listing as written reads past the applications sentinel |

## Left out

- The writers' transport (`WriteString`), and what the error writer adds around a message, are not modelled. Each writer call is one trace event holding its string.
- The example application's callbacks only print. They are recorded as `AppExecute`, `AppStart` and `AppClose` events, and their own writes are not modelled.
- Application callbacks in general cannot act on the engine. The source passes them the engine pointer (commands.c:108, 241, 313), so a real callback could change a service's `State`. That is how the second example service, which starts `Stopped` (Example/CommandEngine.c:134-139), is meant to be started. The model has no such path: service states change only through `ExecuteService`.
- A command callback is modelled as a pure function. It receives the argument list and a view of the registries and service states. It returns the strings it writes itself and the string it returns. A command cannot change engine state in this model.
- A service is given by its step function on its state. The source calls `Run(state, data, engine)` and the example defines a two-argument `Run`. Neither the data pointer nor the engine argument is modelled.
- Writer calls the source makes without a NULL check are preconditions of `AddKeystroke` and `DoTasks`; missing writers there are not modelled. The checked calls drop their events when the writer is absent.
- The process-wide statics `characterEchoBuffer`, `stringFormatBuffer` and `argv` are engine-owned. The scratch name buffer is a fresh array as long as the line buffer. `COMMANDS_BUFFER_SIZE` is not part of this model.
- Engine.CommandEngine.CheckArguments: the NUL test inside the space-skipping loop can never succeed and is not modelled.
- Engine.CommandEngine.EditLine: the `case RETURN_ASCII` inside the edit switch is unreachable, because RETURN returns earlier, and is not modelled.
- Tokenizer.StringToArgs: the NULL check on the raw string is unreachable, because the engine always passes a position in the line buffer, and is not modelled.
- CStrings.StrCmp: only "returns 0 exactly when equal" is stated. The sign and magnitude depend on the signedness of `char`.
- Registry size limits are preconditions: fewer than 65536 commands and applications, fewer than 256 services, and a capacity from 1 to 65536. These keep the `unsigned short` indices and the `byte` copy of the cursor exact.
- The terminal macros (`CMD_LF`, `CMD_CRLF`, the colour codes, clear screen) are defined outside the modelled files. They are fixed placeholder strings.
- `Stopped` and `Starting` are 0xFF and 0x00, since no modelled file defines them.
- Concurrency between an interrupt handler calling `AddKeystroke` and the main loop calling `DoTasks` is not modelled. Calls are taken to be serialised.
- Example.Configuration registers `Help.HelpCommand`, which writes the corrected listing `Help.HelpListing`. The help command as written reads past the applications sentinel with exactly these registries, as `Example.HelpAsWrittenFailsHere` shows.
- The `clear` command is included only as a registry entry that returns the clear-screen string.
- The struct `CommandEngine` in commands.h is an older layout. It lacks `RegisteredServices`, `ServiceCount`, `ServiceRunning` and `ParsedCommand`. The engine fields follow their use in commands.c, and the example's positional initialiser is read as filling buffer, capacity, commands, applications, services, output writer, error writer and prompt.

## Findings

| source | as written | input that shows it | evidently intended | confidence | as-written member | corrected member |
|---|---|---|---|---|---|---|
| commands.c:354 | `argv` has `MAX_CMD_ARGS` entries. After the fifth word that ends at the NUL, `argv[argc] = NULL` writes `argv[5]`, one past the end. | the line "help a b c d e" | room for `MAX_CMD_ARGS + 1` entries, so the NULL after five arguments is in bounds | not executed | Tokenizer.TerminatorSlotOverflows | Tokenizer.StringToArgs |
| command_help.c:63 | the row of service i prints `RegisteredApplications[i]->Name` | the example registries: 2 services and 1 application read the sentinel entry; 1 application "a" with 1 service "s" shows "a" | `RegisteredServices[i]->Name`, as command_services.c:29 prints | not executed | Help.HelpAsWrittenMisnames | Help.HelpServiceRows |

`Tokenizer.TerminatorSlotOverflowsExactly` extends the first row to every raw
string: the out-of-bounds write happens exactly on five words ending at the
NUL. The corrected table has one extra entry whose last slot is always NULL
(`Engine.Inv`). With it, `Tokenizer.ArgvViewOfTokenised` and
`Engine.ArgumentsAfterName` prove that a command sees exactly its first five
words. The corrected listing `Help.HelpListing` shows each service under its
own name, as `Help.HelpServiceRows` states.

## Notes on behaviour

- CTRL-C with no application focused is reported as an unsupported character, like any other byte below 32 (commands.c:156-166). It does not clear the line.
- When the line is full, every byte but NUL and RETURN reports "Buffer overflow!", backspace included: the size test comes before the edit switch (commands.c:131, 174-177).
- With every service stopped, a call leaves the cursor at the wrapped start of its walk, so a cursor on the sentinel becomes 0 (commands.c:284-305).
- "Not found" is three writes through the error writer (commands.c:263-267).
- A CTRL-C can close an application between the tick that started it and the next tick. The application's line is then not cleared in that cycle: the status goes straight to `Initialize`, which keeps the buffer, so the next line typed is appended to it. The buffer is emptied only at the next execute tick (commands.c:270-271). `Engine.StaleLineKept` states this.
