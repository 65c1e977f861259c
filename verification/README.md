# btcontrol in Dafny

btcontrol drives model railway locomotives over Bluetooth and TCP. A server holds the table of locomotives and drives
the track or motor hardware; handheld controllers (an ESP32 with a slider, phones) connect to it, send commands and
keep a mirror of the table. This project models the protocol, the server's bookkeeping and the actuators, and proves
what they keep over all inputs and all runs.

Verify everything with `dafny verify dfyconfig.toml`.

## What is modelled

| file | part of the system |
|---|---|
| `Bytes.dfy`, `Util.dfy` | little-endian words, 32-bit wrap-around, results with errors; small shared notions |
| `Layout.dfy`, `SchemaParser.dfy`, `Registry.dfy` | message layouts, the parser of the text schema, loading and looking up message types |
| `Message.dfy`, `MessageLimits.dfy`, `MessageReader.dfy` | the recursive binary codec, its exact limits, and the codec as loops over a reader |
| `Framing.dfy` | length-prefixed messages on a stream of short reads |
| `LocoTable.dfy` | the locomotive table, all commands, speeds, speed and direction on the wire |
| `Ownership.dfy` | which client drives what, the hardware flush, stopping when clients leave |
| `StatusMirror.dfy`, `StatusWire.dfy` | status replies that carry only changes, the client's mirror, and the whole path through codec and stream |
| `Session.dfy` | one request at a time, and the reply that belongs to it |
| `SppTransmit.dfy` | the Bluetooth serial transmit task with its 330-byte buffer |
| `PinControl.dfy` | the Raspberry pin controller with alternatives, soft PWM and time limits |
| `Mailbox.dfy` | the one-slot mailbox between command senders and the Digispark thread |
| `Slider.dfy` | the slider of the handheld controller and its closed loop |
| `DieselSound.dfy` | the diesel sound stepper and its cancellation |
| `LokdefCsv.dfy` | the locomotive list file |

State that the program updates in place is a class whose methods are proved against functions on values; properties
over runs are lemmas about those functions. Threads are state machines whose steps are the single accesses to shared
data; a whole message step of the server is one step.

Where a promise does not hold on all inputs, the code is modelled as it is and the project proves exactly when it does:

- An encoded message comes back if and only if strings have at most 65535 bytes, arrays at most 255 elements and type
  numbers fit a byte; the size test of the encoder lets 65536 bytes through (`RoundTripIff`, `LongStringIsLost`).
- Accepted bytes encode back to themselves if and only if the layout has distinct names and no empty array
  (`ReencodesIff`).
- A layout survives printing and parsing if and only if, at every level, no name holds a colon or a NUL and arrays come
  last and are not empty, because the parser leaves the closing brace in place (`SchemaRoundTripIff`).
- A frame comes back if and only if it has at most 10000 bytes; the sender does not check (`FrameIff`).
- A status reply arrives if and only if at most 255 locos changed (`ReplyArrivesIff`, `TooManyChanges`).
- A command keeps table, hardware and ownership consistent if and only if it changes no speed, touches no loco, or names
  known locos only and gets its reply out; a list with an unknown address, or a reply that cannot be sent, ends the
  thread between table and hardware (`SafeIff`, `StopListWithUnknownAddress`).
- A command keeps what the track was told about directions if and only if it changes no direction, is refused, touches
  no loco, or names known locos only and gets its reply out (`SoundDirIff`).
- A command keeps every direction 1 or -1 unless it is a DIR_MULTI with another number that touches a loco
  (`DirsKeptIff`).
- A taken reply makes the mirror the table it was built from if and only if every entry that the reply leaves out is
  shown rightly already: one that the client has from the list of locos was listed as it is now and does not run
  backward, and none has a function on that a function reply has switched off in the mirror (`MirrorAfterRunIff`). The
  client stores bit 31 of a value that is 0 or 1, so a function reply switches off every function it names
  (`FunctionsAreOff`, `FunctionsSwitchedOff`).
  An entry is left out if it equals what the server remembers of the client, which at first is a value that a real loco
  can have (`NeverIff`, `SentinelStaysStale`).
- A live session is stuck if and only if the server has taken a query that has no answer (`StuckIff`,
  `UnansweredQueryBlocks`).
- A commit leaves a pin in the state of the last alternative that holds if and only if the alternative that was active
  has given way or is that last one, for one commit and over whole runs (`CommitPinIff`, `PinsFollowIff`,
  `OverlapSwitchesOff`).
- A time-limited pin is cut in time if and only if it is digital and the limit is at least two seconds or the switching
  time is odd; a dimmed pin is never cut (`CutInTimeIff`, `DimmedIsNotCut`).
- From any history, a digital pin is off although an alternative holds exactly if the last one that holds was active,
  nothing dropped behind it, and the pin was off or the last drop found no alternative before it that holds
  (`DigitalOffIff`).
- Two schemas have the same protocol hash if and only if their byte sums agree modulo 2^32; the order of lines, which
  gives the type numbers, is not seen (`SameHashIff`, `HashIgnoresOrder`, `SwappedSchema`).
- A loco survives printing and parsing as a line of the loco list if and only if its texts fit, are trimmed and hold no
  separator, and no function that is off has "=1" in its name (`LineRoundTripIff`, `FuncIff`, `MarkInsideName`).
- Loading the loco list in the middle of a session does not reset what the server remembers: the next reply makes the
  mirror right if and only if every loco it leaves out has the state it was listed with and does not run backward. A loco
  that changed before the load and changed back after it stays wrong (`ReloadIff`, `ReloadMissesChange`).

## Assumptions

- Environment: the sockets, the Bluetooth stack, the pins, the USB device and the clock appear as parameters
  (outcomes of attempts, chunks of any size, clock readings, truth values of pin expressions).
- A running soft PWM overrides digital writes to the same pin and stopping it switches the pin off, as in wiringPi.
- `getString` reads its two length bytes low byte first; C++ leaves the order of the two calls open.
- A struct decoded without any field has no data; encoding it again is modelled like an empty struct.
- A null dereference is modelled as a failure (`NullData` in the codec, a failed line in the loco list).
- A number in the loco list that does not fit an int is cut to its low 32 bits; C leaves its value open.
- A function name of 32 characters fills its array, and the flag behind it, which stays 0, ends it.
- Reading a field whose type was never set (a schema line ending in `name:`) is modelled as a failure.
- A client has at most one request or reply under way, as `Lockstep` shows; in the runs of the mirror this is part of
  when an event is possible. Replies arrive as they were built, so there are at most 255 locos (`ReplyArrivesIff`).
- A handheld that connects again keeps its old mirror; it is assumed to be of the same server, with the same addresses.
  The user interface only selects locos of the list.
- The server is built with Bluetooth, so that BTSCAN and BTPUSH have replies.
- Single accesses to shared variables are atomic; the program has no lock around the locomotive table, the client
  counter and the command queue.

## Model

| member | source | states |
|---|---|---|
| `Bytes.Le32RoundTrip` | bluetoothserver/fbtctl_message.h:30-34 | Reading the four bytes of any int gives the int. |
| `Bytes.Le32Exact` | bluetoothserver/fbtctl_message.h:30-34 | Any four bytes are the bytes of the int read from them. |
| `Bytes.Le16RoundTrip` | bluetoothserver/fbtctl_message.h:35-40 | A two-byte length comes back modulo 65536. |
| `Messages.DecodeEncode` | bluetoothserver/fbtctl_message.cpp:63-129 | Every message that fits the wire encodes, and decoding the bytes followed by anything gives the message restricted to its layout and leaves exactly the rest; repeated names included. |
| `Messages.EncodeDecode` | bluetoothserver/fbtctl_message.cpp:235-293 | Under a canonical layout, whatever the decoder accepts fits the wire and encodes to exactly the bytes consumed. |
| `Messages.DecodeIff` | bluetoothserver/fbtctl_message.cpp:63-129 | The decoder accepts a byte string with result m and rest if and only if m fits, has no extra fields, and the bytes are its encoding followed by rest. |
| `Messages.EncodingPrefixFree` | bluetoothserver/fbtctl_message.cpp:235-293 | No encoding is a proper prefix of another; equal encodings have equal contents. |
| `Messages.RoundTripIff` | bluetoothserver/fbtctl_message.cpp:252-273 | A message the encoder accepts comes back if and only if its strings, arrays and type numbers fit their length fields. |
| `Messages.LongStringIsLost` | bluetoothserver/fbtctl_message.cpp:252-260 | A string of 65536 bytes passes the size test and decodes as an empty string with 65536 bytes left over. |
| `Messages.DecodeConsumes` | bluetoothserver/fbtctl_message.h:22-44 | Decoding leaves a proper suffix of its input, for every layout and input. |
| `Messages.WireExample` | bluetoothserver/fbtctl_message.cpp:244-260 | The bytes of a message with an int and a string, written out. |
| `Messages.EncodeIff` | bluetoothserver/fbtctl_message.cpp:235-293 | The encoder accepts a message if and only if, at every level, every layout field is set and of its type and no string has more than 65536 bytes. |
| `Messages.ArrayExample` | bluetoothserver/fbtctl_message.cpp:261-273 | The bytes of an array of two structs, written out. |
| `MessageLimits.ReencodesIff` | bluetoothserver/fbtctl_message.cpp:86-129 | Every accepted byte string encodes back to the bytes read if and only if names are distinct and no array layout is empty, at every level. |
| `MessageLimits.SpoiledMessage` | bluetoothserver/fbtctl_message.cpp:102-113 | For every other layout, constructs accepted bytes that do not encode back. |
| `MessageReader.InputReader.constructor` | bluetoothserver/fbtctl_message.h:24 | A reader starts at position 0 of its data. |
| `MessageReader.InputReader.GetByte` | bluetoothserver/fbtctl_message.h:25-29 | The position moves by one; the next byte is returned, or the read fails past the end. |
| `MessageReader.InputReader.GetInt` | bluetoothserver/fbtctl_message.h:30-34 | The position moves by four; the int of the next four bytes, or failure. |
| `MessageReader.InputReader.GetString` | bluetoothserver/fbtctl_message.h:35-40 | A two-byte length and that many bytes, or failure when either is missing. |
| `MessageReader.ReadMessage` | bluetoothserver/fbtctl_message.cpp:63-129 | The loop over the layout returns the decoded message and stands at the bytes left, or fails as the decoding does. |
| `MessageReader.ReadField` | bluetoothserver/fbtctl_message.cpp:88-113 | One field: type check, then int, string, or array elements, as the field decodes. |
| `MessageReader.ReadElems` | bluetoothserver/fbtctl_message.cpp:102-113 | The loop over the elements of an array returns them in order and stands behind the last one. |
| `MessageReader.GetBinaryMessage` | bluetoothserver/fbtctl_message.cpp:235-293 | The accumulating loops return the encoding, or the same error. |
| `SchemaParser.ParseMessageLayout` | bluetoothserver/message_layout.cpp:56-104 | The recursive position-moving parser returns the layout and stops where the functional parser does. |
| `SchemaParser.ParseFieldAt` | bluetoothserver/message_layout.cpp:64-72 | Name up to the colon, then the type. |
| `SchemaParser.ParseTypeAt` | bluetoothserver/message_layout.cpp:73-92 | The switch on the type letter, with the nested layout of an array. |
| `SchemaParser.ParsePrint` | bluetoothserver/message_layout.cpp:63-103 | Parsing a printed layout in any context gives the truncated layout and stops at the end or at a closing brace. |
| `SchemaParser.SchemaRoundTrip` | bluetoothserver/message_layout.cpp:56-104 | Every typed layout without empty arrays and with clean names comes back with everything after the first array dropped at each level. |
| `SchemaParser.SchemaRoundTripIff` | bluetoothserver/message_layout.cpp:56-104 | A typed layout comes back exactly if and only if, at every level, names hold no colon and no NUL and arrays come last and are not empty. |
| `SchemaParser.FieldsClean` | bluetoothserver/message_layout.cpp:64-72 | No name of a parsed line holds a colon or a NUL, at any level. |
| `SchemaParser.ParseIff` | bluetoothserver/message_layout.cpp:56-104 | Exactly which texts the parser accepts: it returns a layout and leaves a rest if and only if the text is that of the layout, without its last closing braces, followed by that rest, and arrays and missing types only stand at the end. |
| `SchemaParser.SchemaExample` | bluetoothserver/message_layout.cpp:73-92 | A schema line written out. |
| `SchemaParser.UnsetExample` | bluetoothserver/message_layout.cpp:88-89 | A line that ends behind a colon leaves its last field without a type. |
| `SchemaParser.TruncateIff` | bluetoothserver/message_layout.cpp:80-96 | Truncation changes nothing if and only if arrays come last. |
| `Registry.MessageLayouts.constructor` | bluetoothserver/message_layout.h:38 | An empty table, hash -1, not loaded. |
| `Registry.MessageLayouts.Load` | bluetoothserver/message_layout.cpp:111-167 | Loads once; the table, numbers and hash are the fold over the lines; a bad line keeps earlier entries and the old hash; every name loaded has a number above STRUCT. |
| `Registry.MessageLayouts.LoadOne` | bluetoothserver/message_layout.cpp:122-163 | One line: comment, blank, or a definition with the next number. |
| `Registry.MessageLayouts.MessageTypeID` | bluetoothserver/message_layout.cpp:229-234 | The number of a known name; an unknown name fails and leaves an entry without type. |
| `Registry.MessageLayouts.GetMessageLayout` | bluetoothserver/message_layout.cpp:34-50 | The search returns the layout of the number, or fails for numbers up to STRUCT and unknown ones. |
| `Registry.LoadedTable` | bluetoothserver/message_layout.cpp:111-167 | For every schema, every name has a number above STRUCT, no two names share one, and the number of a name leads back to that name's layout. |
| `Registry.LoadNumbers` | bluetoothserver/message_layout.cpp:157-162 | Loading leaves an entry as it was or gives it a number that the loading loop handed out. |
| `Registry.OtherNames` | bluetoothserver/message_layout.cpp:157-162 | Lines that define other names leave a name as it was: absent, or with its number and layout. |
| `Registry.LastDefinitionWins` | bluetoothserver/message_layout.cpp:118-162 | In a schema that loads, the last line that defines a name gives it its layout, and its number is 5 plus the definitions in front of that line. |
| `Registry.LookupKeepsTable` | bluetoothserver/message_layout.cpp:229-234 | The entry left by a failed lookup changes no layout. |
| `Registry.CommentsDoNotMatter` | bluetoothserver/message_layout.cpp:133-135 | Inserting or deleting a comment line anywhere changes neither table nor hash. |
| `Registry.HashIsSum` | bluetoothserver/message_layout.cpp:136-141 | The protocol hash is the 32-bit sum, over the lines, of what each counts; `SingleByteEdit` says that a byte counts with its value. |
| `Registry.SameHashIff` | bluetoothserver/message_layout.cpp:136-141 | Two schemas that load have the same hash if and only if their byte sums agree modulo 2^32. |
| `Registry.HashIgnoresOrder` | bluetoothserver/message_layout.cpp:136-141 | Any reordering of the lines of a schema leaves the hash that client and server compare as it was. |
| `Registry.SwappedSchema` | bluetoothserver/message_layout.cpp:118-162 | Two schemas with the same hash and exchanged type numbers. |
| `Registry.SingleByteEdit` | bluetoothserver/message_layout.cpp:136-141 | Two schemas that load and differ in one byte outside comments have hashes that differ by the difference of the bytes, so a single-byte edit is always seen. |
| `Registry.OneLineHash` | bluetoothserver/message_layout.cpp:136-141 | The hash of a line with a one-letter name and no fields is the code of the letter plus 61. |
| `Registry.LoadsIff` | bluetoothserver/message_layout.cpp:133-156 | A schema loads to its end if and only if every line is a comment, blank, or a name with an equals sign and a layout that parses. |
| `Registry.LeadingBlanks` | bluetoothserver/message_layout.cpp:143-146 | A blank in front of a line changes nothing but the hash. |
| `Registry.BlankLine` | bluetoothserver/message_layout.cpp:143-146 | A line of blanks changes nothing but the hash. |
| `Framing.Socket.Read` | bluetoothserver/utils.cpp:325-340 | A read delivers between one and n of the next bytes, any number of them. |
| `Framing.MyRead` | bluetoothserver/utils.cpp:325-340 | Exactly the next size bytes, in order, from any sequence of short reads; failure if the stream ends first. |
| `Framing.ReadMessageFrom` | bluetoothserver/CommThread.cpp:66-109 | Length, size check, payload and decoding; the stream stands behind the frame. |
| `Framing.SendMessage` | bluetoothserver/CommThread.cpp:46-64 | The frame of the encoding. |
| `Framing.FrameIff` | bluetoothserver/CommThread.cpp:91-93 | A frame comes back if and only if it has at most 10000 bytes. |
| `Framing.FrameExample` | bluetoothserver/CommThread.cpp:46-64 | The bytes of a frame of 258 bytes, written out. |
| `Framing.MessageRoundTrip` | bluetoothserver/CommThread.cpp:46-109 | A sendable message on a stream is read back and the rest of the stream is untouched. |
| `Framing.StreamRoundTrip` | bluetoothserver/CommThread.cpp:46-109 | Any sequence of sendable messages, framed and concatenated, decodes to the same sequence in the same order. |
| `Framing.ReadMessages` | bluetoothserver/CommThread.cpp:66-109 | Message after message from a socket with short reads, as the byte stream decodes. |
| `Framing.ReceiveAll` | bluetoothserver/utils.cpp:325-340 | Whatever sequence was sent arrives in the same order, however the bytes are cut into reads, and nothing behind it is consumed. |
| `LocoTable.GetAddrIndex` | bluetoothserver/lokdef.cpp:39-49 | The index of the first entry with the address, or failure. |
| `LocoTable.EachIs` | bluetoothserver/clientthread.cpp:248-253 | A list update changes exactly the entries named before the first unknown address and succeeds if there is none. |
| `LocoTable.SpeedCommand` | bluetoothserver/clientthread.cpp:187-275 | A speed command gives one new speed to all entries named before the first unknown address; when it succeeds. |
| `LocoTable.OtherCommand` | bluetoothserver/clientthread.cpp:203-292 | The other commands change only directions and functions. |
| `LocoTable.CommandKeeps` | bluetoothserver/clientthread.cpp:185-292 | No command changes addresses, decoder flags, function counts or owners. |
| `LocoTable.DirCommand` | bluetoothserver/clientthread.cpp:203-215 | DIR is accepted exactly for a known, stopped loco and direction 1 or -1; a refused one changes nothing, an accepted one is undone by a DIR with the former direction. |
| `LocoTable.DirsKeptIff` | bluetoothserver/clientthread.cpp:203-265 | A command keeps every direction 1 or -1 if and only if it is no DIR_MULTI with another number that touches a loco. |
| `LocoTable.DirsStay` | bluetoothserver/clientthread.cpp:185-292 | Over every run with sound DIR_MULTI numbers every direction stays 1 or -1. |
| `LocoTable.TurnsStandingOnly` | bluetoothserver/clientthread.cpp:203-215 | Apart from DIR_MULTI, a command turns a loco only if it stands before and after. |
| `LocoTable.TurnNeedsStop` | bluetoothserver/clientthread.cpp:203-215 | In every run without DIR_MULTI, a loco that has turned round stood still in some state of the run. |
| `LocoTable.DirMultiCommand` | bluetoothserver/clientthread.cpp:255-265 | DIR_MULTI sets any direction number on every loco named before the first unknown address. |
| `LocoTable.SetFuncCommand` | bluetoothserver/clientthread.cpp:276-292 | SETFUNC changes one function of one loco, and nothing when the number is out of range. |
| `LocoTable.SpeedsStayInRange` | bluetoothserver/clientthread.cpp:187-275 | Over all runs of commands every speed is a multiple of 5 in -255..255, and in 0..255 without BREAK_MULTI. |
| `LocoTable.SpeedsInNumbers` | bluetoothserver/clientthread.cpp:187-275 | Accelerating adds 5 up to 255, braking takes 5 off down to 0, or to -255 for BREAK_MULTI; the first loco of a list counts for all. |
| `LocoTable.ChangedEntries` | bluetoothserver/clientthread.cpp:187-292 | The entries sent to the hardware are those touched; none for a ping or a refused DIR. |
| `LocoTable.WireDeterminesSpeed` | bluetoothserver/clientthread.cpp:63-69 | For speeds and directions of single commands the wire number determines both; it reads as 1 exactly for a stopped loco. |
| `LocoTable.WireInEveryRun` | bluetoothserver/clientthread.cpp:63-69 | So it does for every loco in every state that commands without BREAK_MULTI and without a bad DIR_MULTI reach. |
| `Ownership.Server.constructor` | bluetoothserver/CommThread.cpp:44 | The server starts without clients and with the hardware at step 0. |
| `Ownership.Server.SendLoco` | bluetoothserver/srcp.cpp:276-315 | Sends direction or emergency stop and the decoder step of the table speed. |
| `Ownership.Server.FlushChanged` | bluetoothserver/clientthread.cpp:464-473 | Every changed loco gets the client as owner and is sent; only the first can be an emergency stop. |
| `Ownership.Server.StopLocos` | bluetoothserver/srcp.cpp:256-274 | Stops everything that moves, or everything the client drove last, in table and hardware. |
| `Ownership.Server.UpdateEach` | bluetoothserver/clientthread.cpp:266-273 | The loop over a list of addresses, with the changes made before an unknown one. |
| `Ownership.Server.UpdateLead` | bluetoothserver/clientthread.cpp:223-237 | The first loco sets the speed the others get. |
| `Ownership.Server.UpdateOne` | bluetoothserver/clientthread.cpp:187-194 | One entry by address. |
| `Ownership.Server.Dispatch` | bluetoothserver/clientthread.cpp:185-292 | The command switch has the effect of the command. |
| `Ownership.Server.Handle` | bluetoothserver/clientthread.cpp:145-476 | One round of the client loop, or the end of the thread when it throws. |
| `Ownership.Server.EndClient` | bluetoothserver/clientthread.cpp:483-497 | The destructor: all locos for the last client, its own locos otherwise. |
| `Ownership.StepKeepsInv` | bluetoothserver/clientthread.cpp:464-497 | Each possible and safe step keeps: what moves has a connected owner, and the hardware has the step of the table speed. |
| `Ownership.RunKeepsInv` | bluetoothserver/clientthread.cpp:483-497 | That holds over every run; with no client left everything stands still in table and hardware. |
| `Ownership.StartIff` | bluetoothserver/CommThread.cpp:44 | The server starts inside the invariant if and only if every loco of its table stands. |
| `Ownership.RunFromStart` | bluetoothserver/clientthread.cpp:464-497 | From a table of standing locos every run keeps the invariant, and with no client left everything stands still. |
| `Ownership.LeaveStopsOwnLocos` | bluetoothserver/srcp.cpp:262-271 | A leaving client's locos get an emergency stop, nothing of theirs moves afterwards, and others are untouched while clients remain. |
| `Ownership.SafeIff` | bluetoothserver/clientthread.cpp:223-292 | A command keeps the invariant in every state with these addresses if and only if it changes no speed, touches no loco, or names known locos only and its reply can be sent. |
| `Ownership.UnsafeBreaks` | bluetoothserver/clientthread.cpp:266-275 | For every other command, a state in which it breaks the invariant. |
| `Ownership.StopListWithUnknownAddress` | bluetoothserver/clientthread.cpp:266-275 | A stop list with an unknown address leaves the loco running on the track with nobody connected. |
| `Ownership.StopReachesHardware` | bluetoothserver/clientthread.cpp:464-472 | A stop that gets through sends step 0 to every loco, as an emergency stop only to the first. |
| `Ownership.TrackFollowsTable` | bluetoothserver/srcp.cpp:276-315 | After every run from standing locos that look forward, in numbers: the step sent is the speed in 14, 28 or 128 steps of 255; a loco that moves was sent 0 backward or 1 forward, and so was one that stands unless 2 says it was stopped by emergency. |
| `Ownership.FullSpeedOnTrack` | bluetoothserver/srcp.cpp:279-290 | At full speed the three kinds of decoder are sent step 14, 28 and 128, forward as 1 and backward as 0. |
| `Ownership.SoundDirIff` | bluetoothserver/clientthread.cpp:203-265 | A command keeps what the track was told about directions, in every state with these addresses, if and only if it changes no direction, is refused, touches no loco, or names known locos only and its reply can be sent. |
| `StatusMirror.CollectFunctions` | bluetoothserver/clientthread.cpp:52-56 | The loop returns the bit mask of the functions as a 32-bit int. |
| `StatusMirror.FunctionsRoundTrip` | control-esp32/src/ControlClientThread.cpp:137-140 | The client's 32 bit tests give back exactly the functions that are on. |
| `StatusMirror.SetLokStatus` | bluetoothserver/clientthread.cpp:45-75 | Returns the changed entries in order and remembers the state of every entry. |
| `StatusMirror.ApplyStatus` | control-esp32/src/ControlClientThread.cpp:123-146 | The loop over the reply updates the mirror in place, or fails at an unknown address. |
| `StatusMirror.AppliesIff` | control-esp32/src/ControlClientThread.cpp:125-134 | A reply can be applied if and only if the client knows every address in it. |
| `StatusMirror.ViewMeans` | control-esp32/src/ControlClientThread.cpp:126-140 | In plain terms, what a right mirror and the list show of a loco driven by single commands. |
| `StatusMirror.ReplyMergesAll` | control-esp32/src/ControlClientThread.cpp:125-145 | A reply makes every changed entry of the mirror the server's entry and leaves the others. |
| `StatusMirror.FaithfulIff` | bluetoothserver/clientthread.cpp:57-61 | After a reply the mirror is right if and only if it was right for the entries left out. |
| `StatusMirror.StepKeepsInv` | bluetoothserver/clientthread.cpp:57-72 | Every step with any number of clients, with status, list and function replies under way, keeps: an entry from a status reply is mirrored as the server remembers it, one from the list as it was listed, except for the functions that a function reply has switched off. |
| `StatusMirror.ReplyIff` | bluetoothserver/clientthread.cpp:57-72 | A reply built from a table makes the mirror that table if and only if the entries left out are shown rightly: listed as they are and not backward if they come from the list, and without a function on that a function reply has switched off. |
| `StatusMirror.MirrorAfterRunIff` | bluetoothserver/clientthread.cpp:45-83 | After any run with any number of clients, and whatever others do between reply and mirror, taking the reply makes the mirror the table as it was when the reply was built, as seen through the wire, under exactly that condition. |
| `StatusMirror.MirrorAfterRun` | bluetoothserver/clientthread.cpp:45-83 | From a server without clients, for clients that load the list before any status reply carries something and while no entry equals the initial value: the mirror is right after a reply if and only if no loco left out has a function on that a function reply has switched off; without function replies it always is. |
| `StatusMirror.NeverIff` | bluetoothserver/clientthread.cpp:132-136 | An entry equals the initial "nothing sent" value if and only if it is stopped, has direction 0 and all 32 functions on. |
| `StatusMirror.SentinelStaysStale` | bluetoothserver/clientthread.cpp:132-136 | Such an entry is not sent and a stale mirror stays stale. |
| `StatusMirror.LoadedViewIff` | control-esp32/src/remoteLokdef.cpp:25-39 | What the list stored about a loco is right for a later state if and only if the number for speed and direction is the same and not backward, and the functions are the same. |
| `StatusMirror.FuncBitsInjective` | control-esp32/src/ControlClientThread.cpp:137-140 | The 32 function bits a client keeps determine the number on the wire. |
| `StatusMirror.InitLokdefFunctions` | control-esp32/src/remoteLokdef.cpp:46-66 | The two loops over a function reply store bit 31 of each value. |
| `StatusMirror.FunctionsAreOff` | control-esp32/src/remoteLokdef.cpp:53-64 | Since the server sends 0 or 1, every function that the reply names is off in the mirror afterwards, and the others stay. |
| `StatusMirror.ShownIff` | control-esp32/src/remoteLokdef.cpp:25-64 | Exactly when an entry is mirrored rightly, by where it comes from and how many functions were switched off since. |
| `StatusMirror.FunctionsSwitchedOff` | control-esp32/src/GuiView.cpp:1069-1080 | A right mirror of a loco with its headlight on: after a function reply the next status reply has nothing to send, and the mirror shows the headlight off. |
| `StatusMirror.FunctionExchange` | bluetoothserver/clientthread.cpp:330-341 | A whole function exchange switches off as many functions of the selected loco as the loco asked for has, and changes nothing else; 32 functions end the session. |
| `StatusMirror.ComesBack` | bluetoothserver/clientthread.cpp:132-136 | A client that goes is forgotten; when it comes back nothing counts as sent to it. |
| `StatusMirror.ReloadIff` | bluetoothserver/clientthread.cpp:308-329 | After loading the list at any point of a session, with others acting at any time, the next reply makes the mirror right if and only if every loco it leaves out has the state it had when the list was built and does not run backward. |
| `StatusMirror.ReloadMissesChange` | bluetoothserver/clientthread.cpp:308-329 | A loco that is accelerated before the list is loaded and slowed down again after it is not sent, and the mirror goes on showing the higher speed. |
| `StatusWire.StatusSchema` | bluetoothserver/protocol.dat:16 | The schema line of STATUS_REPLY parses to the layout used here. |
| `StatusWire.ReplyArrivesIff` | bluetoothserver/fbtctl_message.cpp:261-273 | A status reply arrives as sent if and only if it has at most 255 elements. |
| `StatusWire.TooManyChanges` | bluetoothserver/fbtctl_message.cpp:263-264 | With 256 changed locos the client decodes an empty reply. |
| `StatusWire.StatusEndToEnd` | bluetoothserver/clientthread.cpp:77-83 | Table, changes, encoding, frame, stream, decoding and mirror together: changed entries arrive, the others stay, the stream stands at the next message. |
| `Session.NextKeepsInv` | control-esp32/src/ControlClientThread.cpp:92-149 | Every step keeps the lockstep invariant. |
| `Session.Lockstep` | control-esp32/src/ControlClientThread.cpp:92-149 | At most one message is under way, queries leave in order, and the k-th callback gets the server's answer to the k-th query, of the right type. |
| `Session.StuckIff` | bluetoothserver/clientthread.cpp:380-406 | Over every session that has not ended: nothing can be sent, handled or received if and only if the server has taken the query waited for and that query has no answer. |
| `Session.NothingBehindUnanswered` | control-esp32/src/ControlClientThread.cpp:92-122 | No query behind one without an answer is ever sent, and no callback from that one on is called. |
| `Session.UnansweredQueryBlocks` | bluetoothserver/clientthread.cpp:380-406 | Every query without an answer does block a session: a run that gets stuck on it. |
| `Session.AnsweredQueriesAreServed` | control-esp32/src/ControlClientThread.cpp:92-122 | Queries that all have an answer are served with one exchange each: the queue is empty, every callback called, with the payloads in order. |
| `Session.EndedIff` | control-esp32/src/ControlClientThread.cpp:150-162 | A session has ended exactly if the server threw or the connection broke. |
| `Session.EndedIsFinal` | control-esp32/src/ControlClientThread.cpp:150-162 | After that nothing is sent, answered or handed to a callback. |
| `Session.CallbacksGetTheirReply` | bluetoothserver/clientthread.cpp:187-403 | Over every session a callback gets a status if its query drives, and otherwise the reply named after the query. |
| `Session.ControlClient.constructor` | control-esp32/src/ControlClientThread.cpp:15-17 | An idle client with an empty queue. |
| `Session.ControlClient.AddQuery` | control-esp32/src/ControlClientThread.cpp:164-168 | Appends to the queue. |
| `Session.ControlClient.TakeNext` | control-esp32/src/ControlClientThread.cpp:99-108 | The front of the queue, or a ping without callback. |
| `Session.ControlClient.TakeReply` | control-esp32/src/ControlClientThread.cpp:109-122 | The reply goes to the callback of the command just sent. |
| `SppTransmit.SppTask.constructor` | control-esp32/arduino-BluetoothSerial/BluetoothSerial.cpp:180-182 | An empty buffer of 330 bytes. |
| `SppTransmit.SppTask.SendBuffer` | control-esp32/arduino-BluetoothSerial/BluetoothSerial.cpp:184-205 | Hands the buffer over only when the write succeeds, and reports success only with the acknowledgement. |
| `SppTransmit.SppTask.Append` | control-esp32/arduino-BluetoothSerial/BluetoothSerial.cpp:213-215 | Copies behind the buffered bytes. |
| `SppTransmit.SppTask.HandlePacket` | control-esp32/arduino-BluetoothSerial/BluetoothSerial.cpp:211-255 | One packet through the array buffer has the effect of the packet function. |
| `SppTransmit.PacketTakes` | control-esp32/arduino-BluetoothSerial/BluetoothSerial.cpp:211-255 | Exactly this prefix of a packet is accepted: all of it if it fits the free space, otherwise the free space and 330 bytes for each attempt in a row that succeeds; nothing stays buffered without failure on an empty queue. |
| `SppTransmit.RunAccounts` | control-esp32/arduino-BluetoothSerial/BluetoothSerial.cpp:207-258 | In every run with any failures, written plus buffered bytes are the concatenation of the accepted prefix of each packet in order; writes have 1 to 330 bytes; without failures the prefixes are the packets. |
| `SppTransmit.WritesAreFull` | control-esp32/arduino-BluetoothSerial/BluetoothSerial.cpp:218-241 | Without failures and with a busy queue every write is a full buffer and no full buffer waits. |
| `SppTransmit.OneWritePerHandedAttempt` | control-esp32/arduino-BluetoothSerial/BluetoothSerial.cpp:184-205 | In every run there is exactly one write for each attempt that ended with or without the acknowledgement. |
| `SppTransmit.AttemptOutcome` | control-esp32/arduino-BluetoothSerial/BluetoothSerial.cpp:184-224 | What one attempt leaves: after congestion, a lost client or a failed write the bytes stay buffered; otherwise they are written and gone; no attempt while there is room and the queue is not empty. |
| `PinControl.RaspiPins.constructor` | bluetoothserver/RaspiPWM.cpp:164 | The configured pins. |
| `PinControl.RaspiPins.Run` | bluetoothserver/RaspiPWM.cpp:261-318 | The outer loop commits every pin. |
| `PinControl.RaspiPins.RunPin` | bluetoothserver/RaspiPWM.cpp:267-316 | The do-while loop with the aliased entry, and the write behind it. |
| `PinControl.CommitPinIff` | bluetoothserver/RaspiPWM.cpp:272-307 | After a commit the last alternative that holds drives the pin, alone in the history, if and only if the one before gave way or is that one. |
| `PinControl.CommitFromAnyHistory` | bluetoothserver/RaspiPWM.cpp:267-307 | From any history and output, dimmed and digital alternatives mixed: the output after a commit, which alternatives are active, and whose time starts again, in terms of the drops and of the last alternative that holds. |
| `PinControl.DigitalOffIff` | bluetoothserver/RaspiPWM.cpp:279-307 | From any history, exactly when a digital pin is off although an alternative holds. |
| `PinControl.PinsFollowIff` | bluetoothserver/RaspiPWM.cpp:261-318 | Over whole runs, after every commit every pin is driven by its last alternative that holds if and only if in every commit the alternative that was last before has dropped or is still the last. |
| `PinControl.PinsFollowAlternatives` | bluetoothserver/RaspiPWM.cpp:261-318 | Over every run with mutually exclusive alternatives every pin does what the alternative that holds says, or is off. |
| `PinControl.OverlapSwitchesOff` | bluetoothserver/RaspiPWM.cpp:279-289 | Two digital alternatives held together, which is where the first one does not give way, then the first drops: the pin is off although the second holds. |
| `PinControl.LimitIff` | bluetoothserver/RaspiPWM.cpp:308-315 | A time-limited pin kept on is off if and only if some commit fell into the two-second window; nothing switches it on again. |
| `PinControl.NotCutEarly` | bluetoothserver/RaspiPWM.cpp:311-312 | A pin, digital or dimmed, is never cut before t0 + M - 1. |
| `PinControl.DimmedIsNotCut` | bluetoothserver/RaspiPWM.cpp:308-315 | A dimmed pin is never cut, because the write does not stop a running soft PWM. |
| `PinControl.CutInTimeIff` | bluetoothserver/RaspiPWM.cpp:311-327 | With readings at most two seconds apart a pin is off by t0 + M + 1 if and only if it is digital and M is at least 2 or t0 is odd. |
| `PinControl.LimitStartsOver` | bluetoothserver/RaspiPWM.cpp:277-307 | Once the alternative has dropped, the next rise starts a new period. |
| `PinControl.HeldLimitIff` | bluetoothserver/RaspiPWM.cpp:308-315 | A pin with any number of alternatives, one of them digital, limited and in charge throughout, is off exactly if a commit fell into the two-second window of that alternative. |
| `Mailbox.NextKeepsInv` | bluetoothserver/USBDigispark.cpp:84-193 | Every single step of any sender or of the thread keeps the mailbox invariant. |
| `Mailbox.MailboxSafety` | bluetoothserver/USBDigispark.cpp:84-193 | Under every interleaving: y never passes x, the k-th transmission carries a command numbered at least k, numbers never go down, and in a quiet state the last transmission is the last submission. |
| `Mailbox.RoundIsRun` | bluetoothserver/USBDigispark.cpp:111-167 | An undisturbed round of the loop is a run of its single steps. |
| `Mailbox.LastCommandIsDelivered` | bluetoothserver/USBDigispark.cpp:111-167 | When senders fall silent, two rounds per outstanding command deliver the last command. |
| `Mailbox.ReadsAfterSending` | bluetoothserver/USBDigispark.cpp:111-167 | After a transmission the next round only reads, and the one behind it transmits again if there is something new. |
| `Slider.SliderView.constructor` | control-esp32/src/GuiView.cpp:1241 | Ten zero readings and no forced stop. |
| `Slider.SliderView.Shift` | control-esp32/src/GuiView.cpp:1247-1250 | Drops the oldest reading and appends the new one. |
| `Slider.SliderView.Poll` | control-esp32/src/GuiView.cpp:1243-1282 | Average of the last ten readings, release of the forced stop at 0, and the order sent unless commands are queued. |
| `Slider.AverageSettles` | control-esp32/src/GuiView.cpp:1247-1257 | Ten polls of a still slider make the average its value, whatever the history. |
| `Slider.LoopStep` | control-esp32/src/GuiView.cpp:1259-1282 | One round through poll, server and mirror moves the speed 5 towards the resting speed, and sends nothing exactly there. |
| `Slider.LoopProgress` | control-esp32/src/GuiView.cpp:1259-1282 | After any number of rounds the speed is between start and resting speed, 5 per command sent. |
| `Slider.SliderConverges` | control-esp32/src/GuiView.cpp:1259-1282 | Never overshoots, at most 51 commands, silent from round 51 on within 5 of the slider. |
| `DieselSound.FindStep` | bluetoothserver/sound.cpp:666-672 | The first step whose threshold is above the speed, or the current one. |
| `DieselSound.PlaysWalk` | bluetoothserver/sound.cpp:650-700 | With cancel anywhere, only existing steps are played and the samples form a connected walk. |
| `DieselSound.NextKeepsInv` | bluetoothserver/sound.cpp:577-581 | Every single access of loop or cancel keeps steps in range and the walk connected. |
| `DieselSound.SoundComesToRest` | bluetoothserver/sound.cpp:660-698 | Told to stop with the loco standing, the loop makes exactly last + 1 more rounds, plays the way down, and ends. |
| `DieselSound.SoundFollowsSpeed` | bluetoothserver/sound.cpp:660-691 | With a steady speed the sound reaches the step of that speed in one round per step. |
| `DieselSound.SoundFollowsNewSpeed` | bluetoothserver/sound.cpp:660-691 | A new speed makes the sound reach its step. |
| `DieselSound.SoundHolds` | bluetoothserver/sound.cpp:676-681 | At the step of the speed the sample of that step is played again. |
| `DieselSound.TooFastGoesDown` | bluetoothserver/sound.cpp:657-672 | Faster than every threshold, the loop goes down, because its aim begins as step 0. |
| `DieselSound.CancelEndsLoop` | bluetoothserver/sound.cpp:577-581 | With the loco standing and any accesses before and between, cancel ends the loop, after at most one more sample and the way down. |
| `DieselSound.CancelTurnsDown` | bluetoothserver/sound.cpp:577-581 | The first write of cancel, between choice and comparison, makes the next sample a way down. |
| `DieselSound.FlagStays` | bluetoothserver/sound.cpp:577-581 | Only cancel takes the run flag down. |
| `LokdefCsv.MoveNext` | bluetoothserver/lokdef.cpp:70-89 | Moves behind the next separator and blanks and finds the end of the field, or fails. |
| `LokdefCsv.ReadFuncs` | bluetoothserver/lokdef.cpp:148-163 | The loop over the function names. |
| `LokdefCsv.ReadLine` | bluetoothserver/lokdef.cpp:108-166 | One line: comment, no separator, a definition, or failure. |
| `LokdefCsv.ReadLokdef` | bluetoothserver/lokdef.cpp:95-175 | The definitions of all lines in order, or failure at the first bad line. |
| `LokdefCsv.ParsedIsPrintable` | bluetoothserver/lokdef.cpp:108-169 | Whatever line is read, its definition has plain, trimmed and bounded texts, and sound function names if it has any function. |
| `LokdefCsv.FuncIff` | bluetoothserver/lokdef.cpp:152-158 | A function field comes back if and only if the name fits 32 bytes and holds no "=1" unless the function is on. |
| `LokdefCsv.LineRoundTripIff` | bluetoothserver/lokdef.cpp:108-169 | Printing a loco as a line and parsing it gives the same loco if and only if its fields are plain, trimmed and bounded, its flags and headlight are sound and its functions come back. |
| `LokdefCsv.FileRoundTripIff` | bluetoothserver/lokdef.cpp:95-175 | A list of locos survives in order if and only if every loco in it does. |
| `LokdefCsv.WrittenLine` | bluetoothserver/lokdef.cpp:108-169 | A written loco comes back with its texts cut and trimmed; with anything behind its last function it is refused. |
| `LokdefCsv.BlanksAtEnd` | bluetoothserver/lokdef.cpp:122-127 | White space at the end of a name is not part of it. |
| `LokdefCsv.LongName` | bluetoothserver/lokdef.cpp:122-127 | A name is cut after 19 characters. |
| `LokdefCsv.CarriageReturn` | bluetoothserver/lokdef.cpp:164-166 | A carriage return at the end of a line makes it refused. |
| `LokdefCsv.TooManyNames` | bluetoothserver/lokdef.cpp:164-166 | More function names than announced are refused. |
| `LokdefCsv.WrongCount` | bluetoothserver/lokdef.cpp:141-151 | Fewer function names than announced, or more than 31 announced, are refused. |
| `LokdefCsv.NegativeCount` | bluetoothserver/lokdef.cpp:141-148 | A count below 0 makes a loco without any function. |
| `LokdefCsv.MissingFields` | bluetoothserver/lokdef.cpp:115-140 | A line with one to three separators is refused unless it is a comment. |
| `LokdefCsv.SkippedLines` | bluetoothserver/lokdef.cpp:112-121 | A comment line, or one without a separator, can be put in or taken out anywhere. |
| `LokdefCsv.BlanksBehindComma` | bluetoothserver/lokdef.cpp:70-89 | Blanks and tabs behind a comma do not matter. |
| `LokdefCsv.LineExample` | bluetoothserver/lokdef.cpp:115-141 | A line written out: the order of the fields. |
| `LokdefCsv.DecoderExamples` | bluetoothserver/lokdef.cpp:59-68 | The other two decoder types, written out. |
| `LokdefCsv.FuncsExample` | bluetoothserver/lokdef.cpp:148-158 | Two functions, one on and one off, written out. |
| `LokdefCsv.NumberExamples` | bluetoothserver/lokdef.cpp:114 | Numbers with white space, a sign and text behind them. |
| `LokdefCsv.MarkInsideName` | bluetoothserver/lokdef.cpp:152-158 | A "=1" inside the name of a function that is off switches it on and cuts the name; if the function is on, the name comes back. |

## Left out

- Sharing of message data between copies of a message (the program copies a shared pointer); messages are values here.
- Reply 412 of the track server, which sets the table speed to -1, and other rejected initialisations of a loco.
- Forced stop and direction switch in the closed slider loop; the poll itself models the forced stop.
- DieselSound.SoundComesToRest: does not cover thresholds whose first value differs from 1, because the loader sets it.
- POM, POWER and GETIMAGE replies beyond their type and order, and the names and images in GETLOCOS and GETFUNCTIONS replies.
- Overflow of the command counters of the mailbox after 2^31 commands.
- Counting of whole deliveries in the transmit task across a reconnect of the Bluetooth client.
- The pin expressions themselves; their truth values are inputs of a commit.
- Data races on the locomotive table, the client counter and the command queue.
- User interface drawing, Wi-Fi and Bluetooth scanning, sound file formats, the steam sound, QR codes, the X11 client and the K8055 boards.
