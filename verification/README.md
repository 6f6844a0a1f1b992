# Verified models of Biot's agent and command-line client

Biot runs a small agent inside each container and gives its users a command-line client. This project
models the parts of both that are hard to get right and proves what they promise. Verify with
`dafny verify dfyconfig.toml`.

**The agent.** A connection brings one bounded request line and then either a relayed port or a terminal
session. `Streams` has the connections, which deliver bytes in chunks of any size and may fail in the
middle of a write, and the one buffered reader that request line and phase share. `Frames` is the frame
codec. `Session` is the terminal session as a state machine over the steps of the select loop, the three
helper goroutines, the deferred calls and the child, so a run is any interleaving of them. `ShellInput` is
the input side, `Relay` the port relay, again over any interleaving, `Requests` the strict request parser
on JSON values, and `Connection` puts them together, from the request line to what a peer decodes at last.

**The client.** `Create` has the create and restart workflows against a server that may answer anything.
What happened is a log; in `Workflow` a run is safe when each event in it was allowed by the history before
it, and what that gives for every run is proved.
`Listing` pages through Biots that change between pages and resolves names. `Options` has the hand-written
option parsers. `Vocabulary`, `Placeholders`, `StartUp` and `Messages` follow the embedded error vocabulary
from its text through the start-up checks to the message shown. `Utf8` cuts and prints bounded output.

**Two small pieces.** `ShellQuoting` writes the environment file of a development checkout and reads it
back as a shell does; `RestartLoop` is the loop generated around each program of a bundle. `Common`,
`Strings` and `Texts` hold what the others share.

## Results that differ from what the code seems to promise

- The start-up checks of the error vocabulary are meant to make rendering total, but none of them asks
  for a command entry for `invalid_input`. `Messages.NeverPanics` shows that this entry is exactly what is
  missing, `Messages.PanicsExactly` for which errors, and `Messages.StartUpChecksDoNotSuffice` gives a
  vocabulary text and an error that show it. The vocabulary now embedded has the entry.
- The listing checks that a cursor is neither empty nor the one before, but a server whose cursors turn in a
  longer circle keeps it going without end (`Listing.ListingMayGoOn`). From a server whose answers do not
  depend on the moment it ends exactly if no cursor comes back (`Listing.SteadyListingEnds`), and from any
  server whose cursors move forward within a finite stock it ends (`Listing.AdvancingListingEnds`).
- A plain end of file does not imply a frame boundary: it is also reported when a stream stops right behind
  a header (`Frames.TornIsRefused`).
- A null in the command of a shell request is an empty argument, and null is accepted nowhere else but as
  no command at all (`Requests.AcceptedIsCanonical`).

## Model

| member | source | states |
|---|---|---|
| Frames.DecodeEncode | agent/protocol/frame.go:26-56 | Reading an encoded frame gives the frame and leaves exactly what followed it, five bytes and the payload being consumed. |
| Frames.EncodeDecode | agent/protocol/frame.go:26-42 | A frame is read only off its own encoding; an oversize header is refused after exactly five bytes; every other refusal consumes the stream. |
| Frames.PrefixFree | agent/protocol/frame.go:44-56 | No encoding of a frame within the limit is a prefix of another one. |
| Frames.TornIsRefused | agent/protocol/frame.go:26-42 | A proper part of an encoding is never read as a frame, and which error is reported: a plain end for nothing and for a header with no payload byte behind it, an unexpected end otherwise. |
| Frames.DecodeEncodeAll | agent/protocol/frame.go:26-56 | Decoding concatenated encodings returns the list of frames and goes on with whatever follows it. |
| Frames.DecodeAllIsPrefix | agent/protocol/frame.go:26-42 | The frames decoded off any stream are its own leading bytes, none skipped or made up. |
| Frames.ReadFrame | agent/protocol/frame.go:26-42 | Reading through the buffered reader refines decoding of the whole pending stream, result, error and rest, for any chunking of reads. |
| Frames.WriteFrame | agent/protocol/frame.go:44-56 | A too large payload writes nothing; success appends the encoding; failure of either write leaves a proper prefix of it. |
| Frames.HeaderBytes | agent/protocol/frame.go:44-56 | The encoding byte by byte: the kind, four bytes of length with the most significant first, the payload. |
| Frames.LengthLimit | agent/protocol/frame.go:32-35 | A header is refused exactly if the length in it is above 65536, and then right behind it. |
| ShellInput.ApplyFrame | agent/shellsession/session.go:91-112 | A valid data or resize frame has its effect on the terminal; every other frame is the peer's failure without effect. |
| ShellInput.ReadInput | agent/shellsession/session.go:84-114 | Refines the fold over decoded frames: the terminal undergoes exactly the effect of the valid frames, or a leading part if the terminal itself failed. |
| ShellInput.InputEffectOfValidRun | agent/shellsession/session.go:84-114 | That effect is the events of the longest valid leading run of complete frames. |
| ShellInput.NothingAfterInvalid | agent/shellsession/session.go:97-111 | Nothing behind the first invalid frame has any effect. |
| ShellInput.NothingOfATornFrame | agent/shellsession/session.go:86-89 | A stream that breaks off inside a frame has the effect of its complete frames alone. |
| ShellInput.ResizeSets | agent/shellsession/session.go:96-109 | The bytes of a resize frame set the columns and rows they hold, either with its more significant byte first. |
| ShellInput.DataTypes | agent/shellsession/session.go:92-95 | A data frame types its payload byte for byte. |
| ShellInput.ValidInputIs | agent/shellsession/session.go:91-112 | Which frames are valid, by kind, length and bytes. |
| Session.StepKeeps | agent/shellsession/session.go:36-81 | Every step of every goroutine keeps the session invariant. |
| Session.RunKeeps | agent/shellsession/session.go:36-81 | The invariant holds after every run, in any interleaving. |
| Session.OutputThenExit | agent/shellsession/session.go:53-81 | Over every interleaving: frames carry in order a leading part of the terminal output, each within the limit; an exit frame is last, once, only after all output up to the read error, with the child's own status; it is there exactly when the session completed. |
| Session.ChildReapedOnce | agent/shellsession/session.go:36-81 | The exit status is received at most once; `terminate` runs only while it is still to come; after the loop it has been received, so no child stays unreaped. |
| Session.SignalsSent | agent/shellsession/session.go:53-81 | Over every run: a kill is sent exactly if the grace period expired, and a hang-up exactly if the loop ended without having received the exit status itself; so a child that ends on the hang-up in time is never killed. |
| Session.ReapingSignalsNothing | agent/shellsession/session.go:145-157 | Receiving the exit status, wherever that happens, sends no signal. |
| Session.ResultReported | agent/shellsession/session.go:56-81 | What an ended session reports: completion exactly with the exit frame sent, the terminal's failure exactly when it heard of one from the input side, otherwise the peer's. |
| Session.ExitFrameBytes | agent/shellsession/session.go:116-121 | The exit frame is 2, a length of one, and the status. |
| Session.NoDeadlock | agent/shellsession/session.go:53-81 | In every reachable state a step is sure to follow, except exactly when the open session waits for its surroundings alone, when it waits for the peer to read what it writes and nothing else can go on, or when everything has finished. |
| Session.BoundedWork | agent/shellsession/session.go:53-81 | The length of any run is bounded by what came from outside: 21 steps, four per output chunk, one per input frame. |
| Session.BoundedByBytes | agent/shellsession/session.go:53-81 | The same by bytes alone: 21 steps, four for each byte of output, one for every five bytes the peer sends. |
| Session.WindDown | agent/shellsession/session.go:145-157 | Once the loop has ended, at most twelve steps remain besides input frames, none of these once the terminal is closed, and the run stops only when `Run` has returned and all helper goroutines are gone, whether the peer reads or not. |
| Session.WireGrows | agent/shellsession/session.go:69-79 | Each step only extends the bytes on the wire. |
| Session.ReadBack | agent/protocol/frame.go:26-56 | Decoding everything a session wrote gives exactly the complete frames, whatever write was torn. |
| Session.PeerSeesOutputThenExit | agent/shellsession/session.go:53-121 | End to end over every run: a peer decodes a leading part of the terminal output, and the exit status exactly if the session completed, after all output, with a clean end; never a spurious exit. |
| Session.TerminalFollowsStream | agent/shellsession/session.go:84-114 | Over every interleaving the terminal undergoes a leading part of what the peer's stream stands for, each frame being the next one off the stream; and all of it before the input side reports the peer's failure with the connection open. |
| Session.ClosedTerminalIsSilent | agent/shellsession/session.go:34 | Nothing more is read off a closed terminal, and it undergoes nothing more. |
| Session.ChunkIsForwarded | agent/shellsession/session.go:61-74 | What a read of the terminal gives, up to 65536 bytes, is forwarded as one data frame. |
| Session.WriteIsSteps | agent/protocol/frame.go:44-56 | Every outcome of writing a frame, complete or torn anywhere, is that of one header step, perhaps followed by one payload step, with exactly those bytes on the wire. |
| Session.StepsAreWrite | agent/protocol/frame.go:44-56 | A header step, perhaps followed by a payload step, writes the whole frame or a proper part of its encoding, which ends the loop. |
| Streams.BufferedReader.Fill | agent/protocol/request.go:46-50 | Refilling the buffer loses, repeats and reorders no byte. |
| Streams.BufferedReader.ReadSlice | agent/protocol/request.go:46-56 | For any chunking exactly the first line is consumed, up to 16384 bytes with its newline; otherwise the bound is reported with as many bytes consumed, or the end of the stream with all of it. |
| Streams.LineBound | agent/protocol/request.go:11-13 | A line is accepted up to 16384 bytes with its newline, exactly. |
| Streams.BufferedReader.Read | agent/protocol/request.go:46-50 | A later read delivers the buffered bytes first and then the connection's, in order. |
| Streams.BufferedReader.ReadFull | agent/protocol/frame.go:28-40 | A full read delivers the next bytes of the stream, or consumes it all and reports how it ended. |
| Requests.HasExactFields | agent/protocol/request.go:141-151 | Accepts exactly when the set of keys equals the expected set, by counting distinct names. |
| Requests.ParsePort | agent/protocol/request.go:101-111 | Accepts exactly the values describing a port request with a nonzero 16-bit port, and returns that request. |
| Requests.ParseCommand | agent/protocol/request.go:128-137 | Null is no command; otherwise a nonempty array of NUL-free strings, a null item being the empty string; all else is refused. |
| Requests.ParseShell | agent/protocol/request.go:113-139 | Accepts exactly the values describing a shell request: nonempty NUL-free term, nonzero 16-bit sides, valid command. |
| Requests.ParseRequest | agent/protocol/request.go:58-75 | A value is answered by the request it describes, or refused if it describes none. |
| Requests.RequestRoundTrip | agent/protocol/request.go:52-76 | Parsing the encoding of any valid request returns it. |
| Requests.DescribedOnce | agent/protocol/request.go:52-76 | A value describes at most one request. |
| Requests.AcceptedIsCanonical | agent/protocol/request.go:113-139 | An accepted value is the encoding of its request up to nulls inside the command. |
| Requests.ReadRequest | agent/protocol/request.go:52-76 | Consumes exactly the first line whether it is a request or not, answers it strictly, and leaves every following byte to the next phase. |
| Connection.Handle | agent/cmd/biot-agent/main.go:55-73 | The bytes of a connection follow the grammar: nothing, a rejection line, or the acceptance line and then the phase's bytes, up to a failed write; the first line settles which; a rejection is written in full unless a write fails, and the connection is closed in the end; and what the phase takes in starts right behind that line, with what the reader had buffered. |
| Connection.HandlePort | agent/cmd/biot-agent/main.go:75-86 | A refused service gets a rejection; otherwise acceptance, then what a relay run delivers that starts from the reader's buffered bytes and goes on with the connection's; the service gets a leading part of the bytes still to be read. |
| Connection.HandleShell | agent/cmd/biot-agent/main.go:88-95 | Acceptance, then what a session run writes whose input stream is exactly the bytes still to be read; nothing more if the reply was lost or no terminal starts. |
| Connection.CopyInput | agent/portrelay/relay.go:20-23 | The copying loop gives the service every byte the shared reader has still to deliver, buffered ones first, in order and once, for any chunking; a failed write leaves a leading part. |
| Connection.RequestThenRelay | agent/cmd/biot-agent/main.go:58-86 | Request line and relayed input off one reader: the service gets exactly the bytes behind the first line. |
| Connection.RequestThenInput | agent/cmd/biot-agent/main.go:58-92 | Request line and shell input off one reader: the terminal undergoes exactly the effect of the bytes behind the first line. |
| Connection.RepliesAreLines | agent/protocol/request.go:78-99 | A peer reading one line gets the whole reply; no reply begins another one. |
| Connection.ReplyNamesReason | agent/protocol/request.go:17-23 | Each rejection, piece by piece, with the name of its own reason. |
| Connection.AcceptanceIs | agent/protocol/request.go:78-80 | Acceptance, letter by letter. |
| Connection.ShellConnectionEndToEnd | agent/cmd/biot-agent/main.go:88-95 | Behind the acceptance line a peer decodes output and then the status exactly if the session completed; from the bytes behind the request line the terminal undergoes a leading part of their effect, and all of it before the peer's failure is reported. |
| Connection.PortConnectionEndToEnd | agent/cmd/biot-agent/main.go:75-86 | Behind the acceptance line a peer reads exactly what the relay delivered to it, a leading part of what the service sent; when buffered and arriving bytes are those behind the request line, the service gets a leading part of them. |
| Relay.StepKeeps | agent/portrelay/relay.go:13-29 | Every step of the two copiers and of the main routine keeps the relay invariant. |
| Relay.RelaySafety | agent/portrelay/relay.go:13-29 | Each side receives a leading part of what the other sent and a copier has read, buffered bytes first; a completion signal always finds room; the relay returns only with both copiers ended and both connections closed. |
| Relay.WritesWhole | agent/portrelay/relay.go:15-24 | What a copier has read it can write whole to an open side, and then goes on reading unless its source has ended. |
| Relay.ClosedIsSilent | agent/portrelay/relay.go:26-27 | No bytes arrive off a closed connection, and none are written to it. |
| Relay.CopierEnds | agent/portrelay/relay.go:15-24 | Over every run a copier goes on until its source ends or a write comes short, and no longer; unless a write came short, everything it has read is delivered when it ends. |
| Relay.NoDeadlock | agent/portrelay/relay.go:13-29 | A step is sure to follow except exactly when both sides are open and each copier waits for bytes or for its destination to read, or the relay has returned; everything that arrived is delivered but for what a side does not read. |
| Relay.BoundedWork | agent/portrelay/relay.go:13-29 | The length of any run is bounded by the bytes that arrived, and none arrive once both connections are closed. |
| Relay.BoundedByBytes | agent/portrelay/relay.go:13-29 | The same by bytes alone: 8 steps, three for each buffered byte, four for each byte that arrives. |
| Create.Client.Check | cli/cmd/biot/lifecycle.go:414-499 | One check ends with the first answer that decides: done exactly if it shows the goal, failed exactly if waiting on is pointless. |
| Create.Client.Wait | cli/cmd/biot/lifecycle.go:519-536 | Polling stops at the first answer that decides, and ends well exactly if that one shows the goal; otherwise it gives up, then or at the deadline. |
| Create.DeliverAll | cli/cmd/biot/lifecycle.go:154-164 | Delivers in order, each once, reading each value just before; on failure leading ones were delivered, the next one failed, and nothing followed. |
| Create.PrepareEnvironment | cli/cmd/biot/lifecycle.go:149-175 | Success means the allocation was seen before any delivery, every fetch credential was delivered once in order, and preparation was seen complete after that. |
| Create.Prepare | cli/cmd/biot/lifecycle.go:149-193 | A start call is due only when justified: nothing failed, all fetch credentials and then all secrets delivered, revision read after preparation and before any secret. |
| Create.StartWithCredentials | cli/cmd/biot/lifecycle.go:149-202 | Any failure means no start follows; success means one justified start was accepted and no operation is outstanding. |
| Create.RunCreate | cli/cmd/biot/lifecycle.go:88-204 | Against any answers the run is safe, ending in "biot ready" or at its first failure: a Biot is asked for stopped, and on success started by the client, exactly when there is a fetch credential or a secret to deliver; every delivery and the start only when due, readiness right after a view with desired and container running and no operation outstanding. What was delivered is always a leading part of fetch credentials and then secrets, all of it on success; the phases printed are leading ones of those a create goes through, all of them on success; standard input is read at most once, on success exactly once, and only with `--stdin`. |
| Create.RunRestart | cli/cmd/biot/lifecycle.go:245-286 | The stop takes effect before the start, which uses the revision read afterwards; readiness is announced under the same condition. |
| Workflow.StartedOnce | docs/model.md:819-831 | A safe run starts a Biot at most once. |
| Workflow.NothingAfterFailure | docs/model.md:819-831 | Once anything failed in a safe run, nothing follows but giving up the wait that failed. |
| Workflow.DeliveredInOrder | cli/cmd/biot/lifecycle.go:154-193 | Whatever becomes of a safe create, its deliveries are a leading part of the fetch credentials and then the secrets, in option order. |
| Workflow.DeliveredOnGround | docs/model.md:819-831 | No fetch credential is delivered before the allocation was seen, and no secret before preparation was. |
| Workflow.PhasesInOrder | cli/cmd/biot/lifecycle.go:93-203 | Whatever becomes of a safe create, the phases printed are leading ones of creating, preparing, perhaps delivering fetch credentials and preparing again, perhaps delivering runtime secrets, and starting. |
| Workflow.ReadyIsLast | cli/cmd/biot/lifecycle.go:143-144 | Nothing follows readiness. |
| Workflow.StdinReadsBounded | cli/cmd/biot/lifecycle.go:154-188 | Standard input is read only with the option for it, and at most once for each value. |
| Workflow.GoingDelivers | cli/cmd/biot/lifecycle.go:154-188 | Deliveries that are due, made in order, keep a run safe. |
| Workflow.FailsDelivering | cli/cmd/biot/lifecycle.go:154-188 | Deliveries made in order until one fails end a run safely. |
| Workflow.PlainNeverStarts | cli/cmd/biot/lifecycle.go:128-147 | A create with nothing to deliver never calls start. |
| Workflow.CreatedAs | cli/cmd/biot/lifecycle.go:103-107 | A Biot is asked for stopped exactly if there is something to deliver. |
| Workflow.DeliveriesAre | cli/cmd/biot/lifecycle.go:154-188 | What there is to deliver: each fetch credential, then each secret, as given and in order. |
| Workflow.CurrentFailureIs | cli/cmd/biot/lifecycle.go:538-545 | Only a failed operation or a recorded failure of the desired revision counts as its failure. |
| Options.RejectUnknown | cli/internal/command/command.go:89-96 | Reports the first argument that begins with a dash and is not allowed, and none exactly if there is none. |
| Options.UnknownFlagRefused | cli/cmd/biot/lifecycle.go:368-371 | A create is refused for an unknown flag exactly if some argument, even one in place of a value, begins with a dash and is none of the seven flags. |
| Options.ParseCreateOptions | cli/cmd/biot/lifecycle.go:367-408 | The index-driven loop computes the meaning of the option groups, with each error under its own condition. |
| Options.PrintSplit | cli/cmd/biot/lifecycle.go:372-399 | Arguments that split into option groups are those groups written out. |
| Options.SplitPrint | cli/cmd/biot/lifecycle.go:372-399 | Well-formed groups written out split into the same groups. |
| Options.ReorderingKeepsOptions | cli/cmd/biot/lifecycle.go:367-408 | Reordering whole groups while keeping the order within each flag does not change the result. |
| Options.CreateOptionsRoundTrip | cli/cmd/biot/lifecycle.go:367-408 | Valid options whose values do not start with a dash are parsed back from how they are written. |
| Options.ParseShareOptions | cli/cmd/biot/access.go:141-192 | Accepts exactly the four shapes of a share, each flag once, shell or a port in range but not both. |
| Options.SharesOnce | cli/cmd/biot/access.go:141-192 | An argument list means at most one share. |
| Options.ShareRoundTrip | cli/cmd/biot/access.go:141-192 | A valid share, its port written in decimal, is parsed back. |
| Options.ParseValueCommand | cli/cmd/biot/secrets.go:197-217 | Accepts exactly two positionals with `--stdin` at most once, anywhere. |
| Options.NamesOnce | cli/cmd/biot/secrets.go:197-217 | Every spelling is read back as its command and no other. |
| Listing.ListBiots | cli/internal/api/client.go:339-362 | Against any server the listing ends by the deadline: the pages put together, each behind the last ID of a full one, or the error of a failed request or of a cursor that cannot be gone on from. |
| Listing.PageBound | cli/internal/api/client.go:340 | A page is the last one exactly if it has fewer than 200 entries. |
| Listing.ListedOnce | cli/internal/api/client.go:339-362 | Whatever the server, a listing comes to one result after one number of full pages. |
| Listing.ListingIsRight | cli/internal/api/client.go:339-362 | With pages cut from whatever is readable at each moment there are at most one request per 200 IDs and one more, and the listing ascends strictly, lists only what was there and everything present throughout; the cursor check never fires. |
| Listing.ListingEnds | cli/internal/api/client.go:343-361 | Listing from a server that pages properly over a finite stock of IDs comes to an end by itself, without a deadline. |
| Listing.AdvancingListingEnds | cli/internal/api/client.go:343-361 | So does listing from any server whose full pages end in an ID of a finite stock that comes behind the cursor, whatever else they hold. |
| Listing.SteadyListingEnds | cli/internal/api/client.go:356-360 | From a server whose answers do not depend on the moment a listing ends exactly if no cursor comes back. |
| Listing.ListingMayGoOn | cli/internal/api/client.go:356-360 | A concrete server, two full pages ending in each other's cursor, from which a listing never ends and the cursor check never fires. |
| Listing.ResolveName | cli/internal/resolve/biot.go:19-40 | Over any server the answer is what its listing comes to, failing only when that does; over an unchanging one it is right: the Biot if exactly one has the name, otherwise none found or all matching IDs. |
| Listing.ResolutionIsRight | cli/internal/resolve/biot.go:19-40 | Whatever a listing of unchanging Biots comes to resolves to the right answer: the one Biot of the name, none, or all matching IDs. |
| Listing.FullPagesListed | cli/internal/api/client.go:339-362 | Behind any number of full pages everything up to the cursor has been listed, and the next page completes the listing or can be gone on from. |
| Listing.AheadShrinks | cli/internal/api/client.go:353-360 | Each full page uses up 200 of the IDs still ahead of the cursor. |
| Listing.Choose | cli/internal/resolve/biot.go:23-40 | Over any listing: one match is the answer, none is not found, more are reported with all their IDs. |
| Listing.MatchingIs | cli/internal/resolve/biot.go:23-28 | The matches are exactly the Biots of that name, in listing order. |
| Utf8.EncodedIsValid | cli/cmd/biot/operations_commands.go:352 | What encodes scalar values is valid. |
| Utf8.ValidIsEncoded | cli/cmd/biot/operations_commands.go:352 | What is valid encodes scalar values (section 4 of RFC 3629). |
| Utf8.TruncateUtf8 | cli/cmd/biot/operations_commands.go:347-356 | The longest valid prefix within the limit; for valid input at most three bytes below it are dropped. |
| Utf8.CutIsUnique | cli/cmd/biot/operations_commands.go:347-356 | There is one such cut. |
| Utf8.BoundaryNearby | cli/cmd/biot/operations_commands.go:352-354 | Valid text has a character boundary at most three bytes before any position. |
| Utf8.PrintBoundedOutput | cli/cmd/biot/operations_commands.go:307-325 | Prints the cut content, at most the limit and one newline; a notice exactly if something was left out; "No …" only for nothing. |
| Texts.JoinSplit | cli/internal/api/client.go:126-130 | Splitting at a separator gives parts without it that join to the text. |
| Texts.SplitJoin | cli/internal/api/client.go:126-130 | Parts without the separator are what their joined text splits into. |
| Texts.AtoiItoa | cli/internal/api/client.go:138 | Every 64-bit integer is read back from its decimal text. |
| Texts.AtoiIs | cli/internal/api/client.go:138 | Which texts are read as which number: a sign, zeros and the decimal text, within 64 bits. |
| Strings.LessIs | cli/internal/api/client.go:134-136 | The order of names: by the first difference, a beginning before the whole. |
| Vocabulary.ParseLine | cli/internal/api/client.go:130-155 | A line is accepted exactly if it has five good columns and its name comes behind the one before. |
| Vocabulary.ParseVocabulary | cli/internal/api/client.go:122-159 | A text is accepted exactly when it is the text form of good rows with strictly ascending names, and the entries are those of the rows. |
| Vocabulary.EntriesAreRows | cli/internal/api/client.go:149-155 | No row hides another: each has its entry. |
| Vocabulary.ContentsDetermineRows | cli/internal/api/client.go:122-159 | No two vocabularies have the same text. |
| Placeholders.ScanFinds | cli/internal/api/client.go:74 | The scanner finds a placeholder exactly when the pattern occurs somewhere. |
| Placeholders.NamesAre | cli/internal/api/client.go:74 | Names of placeholders: a small letter or underscore, then these and digits. |
| Placeholders.CountedIsShaped | cli/internal/api/client.go:196-203 | When the braces number the matches, the text is made of brace-free pieces and the placeholders found. |
| Placeholders.ShapedIsCounted | cli/internal/api/client.go:196-213 | Such a text is scanned to its placeholders, with as many braces of either kind. |
| Placeholders.ValidatePlaceholders | cli/internal/api/client.go:196-213 | Accepts exactly the sentences whose only braces are the expected placeholders in order. |
| StartUp.SlicesSort | cli/internal/api/client.go:920-926 | Sorts in place, a permutation in ascending order. |
| StartUp.VocabularyNames | cli/internal/api/client.go:185-194 | The names of one kind, each once, ascending. |
| StartUp.CheckEntry | cli/internal/api/client.go:99-112 | Passes exactly the entries whose remedy is declared and fits their kind and whose placeholders are the expected ones. |
| StartUp.Init | cli/internal/api/client.go:84-120 | The client starts exactly if the vocabulary is complete, whatever order the entries are visited in. |
| StartUp.KindsForced | cli/internal/api/client.go:105-118 | The remedies force the kind of the entries that have one. |
| Messages.InvalidInputMessage | cli/internal/api/client.go:832-858 | The messages of the rejected fields in an order by label, or the command sentence when no reason is given; panics exactly when that is needed and missing. |
| Messages.ErrorMessage | cli/internal/api/client.go:215-235 | The rendered message of any error; with a vocabulary past start-up it panics exactly in the one case below, and otherwise says what the next rows state. |
| Messages.CommandMessage | cli/internal/api/client.go:227-229 | A command without a rendering of its own is shown as its sentence and its remedy, if it has one. |
| Messages.UnauthenticatedMessage | cli/internal/api/client.go:228 | Whoever is not logged in is told to run biot login. |
| Messages.BareRejection | cli/internal/api/client.go:832-835 | Rejected input without a reason is the bare sentence. |
| Messages.OtherMessages | cli/internal/api/client.go:216-234 | A cause speaks for itself; the internal error, an unknown code and no code have their own sentences. |
| Messages.FieldReasonSays | cli/internal/api/client.go:860-876 | A field is called by its label, if it has one, and its sentence loses a final period only before a remedy; an unknown reason is quoted. |
| Messages.FieldRemedySaid | cli/internal/api/client.go:897-905 | A remedy goes on from a field's sentence behind a semicolon. |
| Messages.RevisionConflictIsCommand | cli/internal/api/client.go:98-118 | The start-up checks force `revision_conflict` to be a command with exactly one revision placeholder. |
| Messages.RevisionConflictShown | cli/internal/api/client.go:220-221 | Its message is the sentence with the current revision in that place, and the remedy. |
| Messages.ReplaceHere | cli/internal/api/client.go:888-890 | Replacing the one placeholder changes nothing else. |
| Messages.PanicsExactly | cli/internal/api/client.go:215-235 | For a vocabulary past start-up, rendering panics exactly for input rejected without a reason when `invalid_input` is no command entry. |
| Messages.NeverPanics | cli/internal/api/client.go:215-235 | Rendering is total exactly if `invalid_input` is a command entry. |
| Messages.StartUpChecksDoNotSuffice | cli/internal/api/client.go:84-120 | A concrete vocabulary text that is read and passes start-up, and an error whose rendering panics. |
| Messages.NoPlaceholderKept | cli/internal/api/client.go:886-895 | No command sentence is shown with a placeholder, or any brace, left in it. |
| Messages.EveryReasonSaid | cli/internal/api/client.go:832-858 | Every reason the server gave for a field is in the message, said as above behind the field's label. |
| ShellQuoting.ReadEscaped | dev/local_bootstrap.exs:213-218 | An escaped value read inside single quotes to its closing quote is the value, quotes, backslashes and newlines included. |
| ShellQuoting.ReadExportLine | dev/local_bootstrap.exs:113 | One written line is one export command with the exact value, and the rest is read on from its end. |
| ShellQuoting.EnvironmentRoundTrip | dev/local_bootstrap.exs:108-117 | Sourcing the environment file gives exactly the map it was written from. |
| ShellQuoting.FileInOrder | dev/local_bootstrap.exs:110-113 | The file has one line for each variable, in the order of their names. |
| RestartLoop.Supervise | nix/build.nix:136-185 | Every delay is 1, 2 or 4 seconds by position since the last healthy run; the fifth start counted that way ends the loop with status 70 if it asks for restart; otherwise it ends with the program's own status. |
| RestartLoop.OnFailureRestartsFailures | nix/build.nix:146-167 | On failure exactly failed runs are followed by another one: the loop ends with the first run that succeeds, or exhausted behind five short ones. |
| RestartLoop.NeverRestarts | nix/build.nix:149-167 | Never: the first run is the last and gives the status. |
| RestartLoop.AlwaysEndsExhausted | nix/build.nix:147-175 | Always: the loop ends only exhausted, behind five short runs. |
| RestartLoop.DelaysGrow | nix/build.nix:177-182 | Each delay by the runs alone: one second behind the first run or one of a minute, two behind a delay of one, four after that. |
| RestartLoop.FiveInARow | nix/build.nix:168-175 | From the first run or one of a minute on, four short ones more, all asking for restart, end the loop at the fifth with status 70. |
| RestartLoop.SupervisedOnce | nix/build.nix:153-185 | Delays and ending are settled by the runs: the stated supervision has one outcome. |
| RestartLoop.GoesOnWhileHealthy | nix/build.nix:168-175 | The loop goes on exactly while every run asks for restart and healthy runs recur. |
| RestartLoop.FiveStartsExhaust | nix/build.nix:171-175 | Five counted starts that each ask for restart end the loop at the fifth with status 70. |

## Left out

- The Elixir server, node and web application.
- Real signals, terminals, sockets and clocks. What is assumed of them: killing the child's process group ends the child, and a closed terminal or connection fails its reader. A chunk of terminal output is at most one buffer long, no read returns nothing without an error, and a failed write leaves a proper prefix of its bytes.
- Session: a frame of the input side takes effect in one step there; that its bytes arrive in chunks is in RequestThenInput alone.
- Session: the read buffer that output chunks are copied out of is not modelled as memory, so reusing it cannot be observed to change a chunk already handed over.
- Session: how an exit status is computed from the outcome of waiting; the status is any byte.
- Session: fairness. That a run is finite and never stuck is proved; that a scheduler takes an enabled step is not.
- Connection: whether the service answers and a terminal starts is arbitrary, and so is the run of the relay or the session, from the reader's buffered bytes on and with the connection's later ones; it may have got anywhere. Handle leaves the reader as the phase finds it; how reading consumes it is in RequestThenRelay and RequestThenInput. Logging is left out.
- Requests: turning text into JSON values, and values into text for the two fixed replies, is a parameter or written out.
- Create: HTTP, URLs, identifiers, error texts, reading a terminal without echo and clearing values from memory. The deadline is a number of polling intervals that may also expire early.
- Options.ParseShareOptions: does not tell its errors apart, because only their texts differ.
- Options.ParseValueCommand: does not tell its errors apart, for the same reason.
- Listing.ListBiots: the deadline of the request context is a number of requests after which every one fails.
- Listing.ResolveName: a reference that is a canonical UUID is fetched directly, which is one request and not modelled.
- Messages.ErrorMessage: how Go quotes an unknown tag or reason is a parameter; field labels are any map, and reading them from their file is left out, being the vocabulary's parser with two columns.
- StartUp: upper and lower case are those of ASCII, which is all that the three fixed remedies use. Texts are sequences of characters; for valid UTF-8 the order of Go strings is the same.
- ShellQuoting: the shell's reading covers words, backslashes, single quotes, spaces and newlines; any other character special to the shell is refused outside quotes, and none is ever written there.
- RestartLoop.Supervise: over finite sequences of runs, of every length; the seconds of a run are given rather than measured.
- Help texts, listing and showing, browser opening, deployment files and the end-to-end harness.
