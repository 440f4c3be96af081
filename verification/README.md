# A model of mproxy

mproxy sits between OpenFlow switches and a controller. It cuts the byte streams of both directions
into messages, drops or duplicates messages as an attack profile demands, and forwards the rest. This
project models its logic in Dafny and proves what it guarantees.

## What is modelled

* **Framing and forwarding.** `Streams`, `Clients` and `ActionTables` are the growable buffer, the read
  callback and the two action tables, updated in place. `Frames`, `Relay` and `Flows` say what they
  compute, as functions on byte sequences: a stream is cut into messages, each message is sent as many
  times as the tables and a random number demand, and the way the stream is cut into read events does
  not matter. A connection runs until its event loop is told to exit, or until one of its messages ends
  the whole process; they also say which messages do.
* **Attack profiles.** `CStrings`, `Csv`, `Args`, `Rules` and `Profile` are the file reader, the two
  tokenizers that write NULs into the row they parse, and the normalizers. `Promises` says what names,
  numbers and versions are meant to stand for, and exactly when they are read so; `Names` ties the names to
  the types that LOCI's message classes carry. `Tables` says what a list of rules does to the tables. `Printing` and `RuleText` write rows, argument lists and files, and
  prove that the reader gets back what was written. `Loading` puts it all together: from the text of a
  profile to the bytes that leave the proxy.
* **Connection pairs.** `Pairing` is a state machine of descriptors, the client map and the two clients of
  each pair; `PairingProofs` proves its invariant and `PairingRuns` what follows for every run. `Proxies`
  carries out the accept loop, the read callback and the destructor on heap objects, one by one and in whole
  runs, and refines the machine.
* **Concurrent protocols.** `Tasks` is the task queue with its workers, `Handoff` the semaphore handoff of
  version 0.1; both at the granularity of single statements, in any interleaving.
* **LOCI types.** `Wire`, `LociActions`, `LociInstructions` and `LociHeaders` are the type fields that the
  generated classes stamp into a buffer and the dispatchers that read them back, for all classes of the
  three families and all versions.

What a specification says is pinned down a second time by laws in plain numbers and characters, which do not
use the functions they speak about: what a proxy without rules passes on (`Flows.UnruledProxy`), which cells a
rule sets (`Tables.DropCell`), what an action field means (`RuleText.ActionExactly`), what ends a line
(`RuleText.FileIs`), which types and vendors have no class (`LociHeaders.BareAnswers`).

## Assumptions

* `rand`, `is_valid_fd` and `bufferevent_write_buffer` answer arbitrarily: a client has an `Env` of answers,
  and uses up one of them with every question. A random number is asked for exactly by messages of versions
  1.0 to 1.4 whose drop entry is not zero.
* For messages without extra copies `action_inject` has LOCI make an object of the message. The checks of
  `of_object_new_from_message` and `of_validate_message` are modelled; what the validators of the single
  message classes say is arbitrary (`Env.valid`). If LOCI refuses, it returns a null pointer, which
  `action_inject` follows. If it accepts, the object is bound to the buffer that holds the message, and its
  initialization, with nothing to grow, leaves the bytes alone: the bytes sent are those received.
* Following a null pointer ends the process, and so does reading a table far outside. The latter happens for
  version 0 with a type up to 34, which `is_valid_ofp_header` lets through: the version is unsigned, and the
  row is 4294967295.
* "Sent" is what has been handed to libevent. What libevent has not passed on when the process ends is lost.
* `event_base_loopexit` and `event_base_loopbreak` end a client's loop. The callback that asks for it returns
  without shifting the buffer, and no callback follows. After a partner's destructor has asked for it, further
  reads are still allowed here, so the results cover both orders.
* `char` is signed, `int` has 32 and `long` 64 bits, and the byte order is little-endian.
* One iteration of the accept loop, one read callback and one destructor are atomic. The program takes no
  lock around them.
* The byte in front of a row is not a blank. (The loops that step back over blanks have no other bound.)

## Where the code does something else than its documentation

* The proxy is to forward messages that no rule covers. Those that LOCI refuses end the process instead, and
  so does version 0 with a type up to 34. A stream is survived with any random numbers exactly if each of its
  messages has a version above 1.4 or a type above 34, or a version from 1.0 on and is always dropped, copied
  by a DUP rule, or accepted by LOCI (`Flows.SafeStreams`).
* A drop chance is taken modulo 256, as a signed number: it is honoured exactly up to 100 and where its low
  byte lies from 100 to 127. With `p=200` nothing is dropped, with `p=300` only 44 percent
  (`RuleText.DropChanceOf`). Of a fraction only the whole part counts: `p=0.5` never drops
  (`RuleText.DropFractionOf`).
* A DUP count is honoured, or ignored as promised when below 2, exactly from 1 to 256. `r=0` sends every
  message 256 times, and a count of 1 modulo 256 is rejected (`RuleText.DupAsPromised`).
* The tables of message names for 1.3 and 1.4 lack a comma. All names behind it stand for the type before
  theirs, the two names around it and all unknown names make the search run past the end, and so do some
  numbers (`Promises.NamesShifted`, `Promises.UnknownNames`, `Promises.NumbersRead`). The declared length of
  a table is let through as a type in every version.
* A version field that spells no version is refused only if it starts neither like a version nor with a
  number from 0 to 5, and no number counts as 0: `1.5` is taken for 1.0, and a word for all versions
  (`Promises.VersionsTreatedWell`).
* Numbers of more than 32 bits are cut: action 4294967296 is DROP (`RuleText.ActionExactly`).
* An argument list makes the parser step over the end of the string exactly if an odd number of `=` stands in
  the run of `=` and blanks at its end (`Args.Overruns`): `p=` does, `p==` does not, `p=&=` does.

## Model

| member | source | states |
|---|---|---|
| `Flows.ChunkingInvariance` | mproxy/src/proxy.cpp:53-118 | For every buffer state, every stream and every way to cut it into read events: output, random numbers used, halting and left-over bytes are those of delivery in one piece |
| `Flows.FeedTwice` | mproxy/src/proxy.cpp:53-118 | Two events in a row act like one with the bytes of both, halting and send failures included |
| `Flows.OneShot` | mproxy/src/proxy.cpp:53-118 | After any events, whatever the sockets answer, output, answers used, left-over bytes, halting and the end of the process are those of relaying the messages of the whole stream at once, up to the first one that stops the connection |
| `Flows.Refinement` | mproxy/src/proxy.cpp:53-118 | In every environment these are as accounted message by message: those in front of the first one that is fatal or not taken are emitted, this one decides between halting and crash, and without it the connection halts exactly at a zero-length header and else keeps exactly the bytes behind the last message |
| `Flows.FramingRoundTrip` | mproxy/src/proxy.cpp:75-117 | Well-formed messages, concatenated and cut anywhere, are accounted for one by one, in order, for any answers of the sockets and of LOCI; unless one of them stops the connection, the buffer is left empty |
| `Flows.Conservation` | mproxy/src/proxy.cpp:75-117 | Bytes received are the bytes of the relayed messages and those in the buffer, whatever the sockets answer |
| `Flows.Transparency` | mproxy/src/action.c:52-72 | Without rules the output is the part of the stream that consists of whole messages, and the process goes on, exactly if all of these have a proper header and are accepted by LOCI |
| `Flows.Survival` | mproxy/src/action.c:59-61 | A stream, in any pieces, ends the process exactly if it has a fatal message and none in front of it is fatal or fails to be sent |
| `Flows.SafeStreams` | mproxy/src/action.c:35-61 | While the sockets take everything, it is survived with all random numbers exactly if each of its messages is harmless: header invalid, or from version 1.0 on and always dropped, copied, or accepted by LOCI |
| `Flows.UnruledProxy` | mproxy/src/proxy.cpp:75-117 | In plain numbers, for tables without rules, messages whose bytes 2 and 3 hold their length and any pieces: a version above 5 or a type above 34 is swallowed, version 0 or a refusal by the validator of the class ends the process, and everything else is passed on, in order |
| `Flows.ValidMessagesPass` | mproxy/src/action.c:59-72 | So messages of versions 1 to 5 and types 0 to 34 that the validators pass leave unchanged, and the connection runs with an empty buffer |
| `Flows.RefusedMessageCrashes` | mproxy/src/action.c:59-61 | And one that its validator refuses ends the process, when exactly those in front of it have been sent |
| `Flows.NothingToTreat` | mproxy/src/proxy.cpp:75-91 | Fewer than eight bytes, or fewer than the header declares, wait in the buffer and nothing is done; a declared length of zero halts the connection |
| `Flows.SocketFails` | mproxy/src/proxy.cpp:93-112 | A message for a closed descriptor is lost, one whose write fails stays in `ev_buf`, and both halt the connection |
| `Flows.OrphanHalts` | mproxy/src/proxy.cpp:62-73 | A client without a partner halts exactly when its buffer and its input together have come to eight bytes, however the input is cut |
| `Flows.ShortMessageCrashes` | mproxy/inc/loci/src/loci_validator.c:42913-42918 | Without rules, every header of a known version and type that declares 1 to 7 bytes ends the process, whatever the validators say |
| `Flows.VersionZeroCrashes` | mproxy/src/attack.h:99-105 | Whatever the rules and the validators: every message of version 0 with a type up to 34 ends the process |
| `Flows.EmptyPacketInCrashes` | mproxy/src/action.c:59-61 | A PacketIn of 1.0 of eight bytes, which its validator refuses, ends the process |
| `Flows.UnknownHeaderSwallowed` | mproxy/src/action.c:35-38 | A message of a version above 5 or a type above 34 is dropped, whatever the rules, and the connection goes on |
| `Flows.FeedGrows` | mproxy/src/proxy.cpp:93-114 | Later input never takes back or changes what was sent |
| `Flows.CapacityBound` | mproxy/src/proxy.cpp:53-59 | With events of at most b bytes the buffer stays within its block and the block within max(512, 65533 + 2b), over any number of events |
| `Frames.SplitConserves` | mproxy/src/proxy.cpp:75-117 | Cutting a stream loses, adds and moves no byte |
| `Frames.SplitExhausts` | mproxy/src/proxy.cpp:75-91 | What is left over starts with no whole message and, unless malformed, has at most 65534 bytes |
| `Frames.SplitAppend` | mproxy/src/proxy.cpp:75-117 | More bytes leave earlier cuts alone and are cut together with the left-over bytes |
| `Frames.SplitFlatten` | mproxy/src/proxy.cpp:75-117 | Cutting undoes the concatenation of well-formed messages |
| `Bytes.SwapLoad` | mproxy/src/proxy.cpp:77-78 | The shift-and-or swap of the host-order load is 256 times the first byte plus the second |
| `Clients.Client.OnFlowRead` | mproxy/src/proxy.cpp:41-119 | The callback, on heap objects, changes both clients exactly as `Feed` (or `Orphan`, without a partner) says |
| `Clients.Client.TreatAll` | mproxy/src/proxy.cpp:75-116 | The message loop reaches the progress of the relayed messages and the position of the left-over bytes |
| `Clients.Client.MessageLength` | mproxy/src/proxy.cpp:77-78 | The length field is read as a big-endian number |
| `Clients.Client.Send` | mproxy/src/proxy.cpp:93-112 | A response is added once plus its extra count to the partner's buffer, in every answer of the socket |
| `Clients.ActionInject` | mproxy/src/action.c:22-73 | The process ends exactly for fatal messages, the response is null exactly for discarded ones and else holds the message's bytes; a random number is used exactly when there is a drop entry that is not zero |
| `Clients.NewFromMessage` | mproxy/inc/loci/src/of_object.c:112-143 | There is an object exactly if version and length pass and the class validator does not object; it is bound to the bytes of the message and changes none |
| `Clients.Respond` | mproxy/src/action.c:52-72 | A message that is not dropped gives a response, its own bytes, exactly if it is copied or accepted by LOCI |
| `Clients.Client.constructor` | mproxy/src/client.cpp:18-25 | A new client has an empty buffer with room for 512 bytes and has received and sent nothing |
| `Streams.Stream.constructor` | mproxy/src/stream.c:45-60 | A stream of the given capacity, empty |
| `Streams.Stream.Append` | mproxy/src/stream.c:69-78 | The elements follow those in the stream; capacity grows by the added length exactly if there is no room |
| `Streams.Stream.Expand` | mproxy/src/stream.c:80-89 | Capacity grows by the given size, contents stay |
| `Streams.Stream.LeftShift` | mproxy/src/stream.c:91-94 | The ascending copy onto itself drops exactly the first elements |
| `Relay.RelayEmits` | mproxy/src/action.c:44-57 | For every environment: what leaves a fresh connection is, in order, each message in front of the one that stops it, repeated as its cells and its random number say; answers used, stuck copies, halting and crash are told by that one message |
| `Relay.RelayTransparent` | mproxy/src/action.c:52-72 | With empty tables messages pass unchanged and the connection goes on exactly if all have proper headers and are accepted; no random number is used then |
| `Relay.RelayGrows` | mproxy/src/proxy.cpp:93-112 | Output only grows |
| `Relay.Crashes` | mproxy/src/action.c:59-61 | Messages end the process exactly if one of them is fatal and nothing in front of it keeps it from being treated |
| `Relay.SurvivedAlways` | mproxy/src/action.c:35-61 | While the sockets take everything, they are survived with all random numbers exactly if each is harmless |
| `Relay.HarmlessByRules` | mproxy/src/action.c:35-61 | Harmless, told by the rules: invalid header, or from version 1.0 on with a last DROP rule of 100 percent, a last DUP rule, or LOCI's consent |
| `Relay.VerdictOfRules` | mproxy/src/action.c:35-61 | Under a rule list, every message is discarded if its header is invalid or the last covering DROP rule's chance exceeds the random number, fatal if its version is 0 or it is not copied and LOCI refuses it, and else sent once plus the last covering DUP rule's extra count |
| `Relay.DropShare` | mproxy/src/action.c:44-50 | A DROP rule of p percent for everything loses a message for exactly p of the 100 remainders of its random number |
| `Relay.DupEverything` | mproxy/src/action.c:52-57 | A DUP rule of x extra copies for everything sends each message x + 1 times, LOCI's consent or not |
| `Tables.TablesAgree` | mproxy/src/attack.c:240-302 | Every cell holds the value of the last rule of its kind that covers it, and its old value if there is none |
| `Tables.LastDropIsLast` | mproxy/src/attack.c:240-258 | "The last covering DROP rule", told by index |
| `Tables.LastDupIsLast` | mproxy/src/attack.c:284-302 | "The last covering DUP rule", told by index |
| `Tables.RulesStayInside` | mproxy/src/attack.c:227-306 | No rule writes outside the cells of the C arrays; DROP and DUP rules never touch each other's table |
| `Tables.DropAll` | mproxy/src/attack.c:240-258 | In plain numbers: a DROP rule for version 0 and type -1 sets the cells of all versions 1 to 5 and types 0 to 34 |
| `Tables.DropColumn` | mproxy/src/attack.c:240-258 | One for version 0 and a type sets exactly the column of the type; every other cell stays |
| `Tables.DropRow` | mproxy/src/attack.c:240-258 | One for a version and type -1 sets exactly the row of the version |
| `Tables.DropCell` | mproxy/src/attack.c:240-258 | One for a version and a type sets exactly this cell |
| `Tables.DupAll` | mproxy/src/attack.c:284-302 | The same for DUP rules: all cells |
| `Tables.DupColumn` | mproxy/src/attack.c:284-302 | Exactly the column of the type |
| `Tables.DupRow` | mproxy/src/attack.c:284-302 | Exactly the row of the version |
| `Tables.DupCell` | mproxy/src/attack.c:284-302 | Exactly this cell |
| `ActionTables.Store.AddDrop` | mproxy/src/attack.c:240-258 | The nested loops set exactly the cells of versions 1 to 5 and types 0 to 34 whose version is the rule's, or the rule's is 0, and whose type is the rule's, or the rule's is -1; every other cell keeps its chance |
| `ActionTables.Store.AddDup` | mproxy/src/attack.c:284-302 | The same for the dup table |
| `Loading.ProfileMeans` | mproxy/src/attack.c:147-310 | From any profile text to the bytes sent: for any well-formed messages in any pieces, each is sent, in order, as often as the rules in the file demand, up to the first one that the rules let end the process |
| `Loading.LoadApplies` | mproxy/src/attack.c:184-310 | Loading any rows equals applying the rules understood in them, in order; rejected rows change nothing |
| `Loading.RowSane` | mproxy/src/attack.c:236-283 | Whatever a row says, drop chances are percentages and accepted DUP rules add a copy |
| `Loading.ProfileRoundTrip` | mproxy/src/attack.c:165-178 | A file with heading, comments, empty lines and rows that write rules is read back as exactly these rules |
| `Profile.ReadRows` | mproxy/src/attack.c:147-182 | For any file contents the tables end as `Load` of its rows says; the reused stream carries nothing from line to line |
| `Profile.ReadLine` | mproxy/src/attack.c:166-171 | The stream holds the line up to the next newline or the end of the file, and a NUL |
| `Profile.AddRule` | mproxy/src/attack.c:184-310 | Outcome and tables after a row, parsed in place, are those of what the row means |
| `Profile.AddDropRule` | mproxy/src/attack.c:227-259 | The DROP branch, with integer, fractional and missing chances |
| `Profile.AddDupRule` | mproxy/src/attack.c:268-303 | The DUP branch, with its eight-bit counter |
| `Profile.ArgsFind` | mproxy/src/args.c:96-103 | Finds the first argument of that key, with its value, or none |
| `RuleText.LinesOfJoin` | mproxy/src/attack.c:165-178 | Splitting gives back lines joined by any newlines |
| `RuleText.JoinOfLines` | mproxy/src/attack.c:165-178 | Every file is its lines joined by its newlines: the splitter loses nothing |
| `RuleText.FileIs` | mproxy/src/attack.c:165-178 | In plain characters: a line feed and a carriage return both end a line, nothing else does, and the first line is no row |
| `RuleText.LineIs` | mproxy/src/attack.c:165-178 | An empty line and one that starts with `#` change no table; every other one is read as a row |
| `RuleText.RowRoundTrip` | mproxy/src/attack.c:195-276 | A rule written as eight fields with blanks around them is understood as that rule, through `csv_parse`, the normalizers and `args_parse` on one buffer |
| `RuleText.DropChanceOf` | mproxy/src/attack.c:228-237 | A DROP row with `p=n` sets the low byte of n as a signed number, cut off at 0 and 100; this is the chance asked for exactly if n is at most 100 or its low byte lies from 100 to 127 |
| `RuleText.DropsNothing` | mproxy/src/attack.c:228-237 | A row that fails: `p=200` drops nothing |
| `RuleText.DropFractionOf` | mproxy/src/attack.c:233-236 | A DROP row with a fraction sets its whole part, cut off at 100, and is undefined from 128 on; this is the chance asked for exactly if the fraction is at least 100 or whole |
| `RuleText.HalfDropsNothing` | mproxy/src/args.h:52-52 | A row that fails: `p=0.5` never drops |
| `RuleText.DropByDefault` | mproxy/src/attack.c:228-238 | A DROP row that names no chance, or gives text for it, drops everything |
| `RuleText.DupCountOf` | mproxy/src/attack.c:269-302 | A DUP row with `r=n` is rejected exactly if n (at most the largest `long`) is 1 modulo 256; else an undropped message is sent ((n-1) mod 256)+1 times, n times for 2 to 256 |
| `RuleText.DupAsPromised` | mproxy/src/attack.c:269-302 | The documented meaning (counts below 2 ignored, others honoured) holds exactly for the counts 1 to 256 |
| `RuleText.DupByDefault` | mproxy/src/attack.c:269-283 | A DUP row that names no count, or gives text for it, is refused |
| `RuleText.DupFractionRefused` | mproxy/src/attack.c:269-283 | A DUP row with a fraction for its count is refused |
| `RuleText.SendsMany` | mproxy/src/attack.c:277-283 | A row that fails: `r=0` sends every message 256 times |
| `RuleText.Writable` | mproxy/src/attack.c:195-276 | There is such a row for every DROP and DUP rule: every version, every type with a name, every number |
| `Promises.VersionReads` | mproxy/src/attack.c:82-101 | Every spelling of a version pattern is understood as that pattern |
| `Promises.VersionsByName` | mproxy/src/attack.c:82-101 | In plain characters: `1.0` to `1.4` are 1 to 5, `*` is 0, and a digit from 0 to 5 is its number |
| `Promises.VersionFields` | mproxy/src/attack.c:82-101 | How every version field is read: by a protocol it starts with, as the wildcard, or by the number it starts with (0 if there is none); refused exactly if there is no such protocol, no `*`, and the number lies outside 0 to 5 |
| `Promises.LeadingOf` | mproxy/src/attack.c:98-98 | Every string starts with blanks, a sign, digits, or none of these, so the two results around this row speak of every version field |
| `Promises.VersionsTreatedWell` | mproxy/src/attack.c:82-101 | A field stands for the version it spells, or is refused if it spells none, exactly if it spells one or would be refused as above |
| `Promises.DottedDigit` | mproxy/src/attack.c:97-100 | Fields that fail: a digit up to 5, a dot, and no known protocol, are taken for the version of the digit |
| `Promises.NoVersionIsEveryVersion` | mproxy/src/attack.c:97-100 | Fields that fail: empty, or starting like no number, they stand for all versions |
| `Promises.WrongVersions` | mproxy/src/attack.c:97-100 | `1.5` is taken for 1.0, `2.0` for 1.1, an empty field and `abc` for all versions |
| `RuleText.TypeReads` | mproxy/src/attack.c:103-114 | Every number of a type with a name, and `*`, is understood as that pattern |
| `RuleText.ActionReads` | mproxy/src/attack.c:127-139 | Names and numbers of actions are understood |
| `RuleText.ActionExactly` | mproxy/src/attack.c:127-139 | Every action field: the four names, and digits below 2^63 whose number is 0 to 3 modulo 2^32, are understood as this number; every other string is refused |
| `Rules.NormalizeMsgType` | mproxy/src/attack.c:103-125 | The search finds what `TypeOf` says, or runs past the table exactly where the table is short |
| `Rules.NameFound` | mproxy/src/attack.c:116-121 | A name stands for the first place in the table that holds it |
| `Rules.NameMissing` | mproxy/src/attack.c:116-124 | An unknown name is refused, but makes the search leave the table exactly when the table is shorter than declared |
| `Promises.NamesShifted` | mproxy/src/attack.c:42-59 | For every version and every type with a name: the name stands for its type exactly up to 1.2 or in front of the missing comma; the two joined names run past the table, and all later ones stand for the type before theirs |
| `Promises.UnknownNames` | mproxy/src/attack.c:116-124 | What is no name is refused exactly up to 1.2; for 1.3 and 1.4 its search runs past the table, except for the two joined names together |
| `Promises.NumbersRead` | mproxy/src/attack.c:109-114 | A numeric type is read as meant exactly unless it is the declared length of the table, the last type of 1.3 or 1.4, or 21 or 23 of 1.4; the first three are read behind the table |
| `Names.NamesMeanTypes` | mproxy/src/attack.c:17-69 | For every version and every message class with a name: the name is read as the type that LOCI stamps for the class, up to 1.2 and below type 19; the names of types 19 and 20 of 1.3 and 1.4 run past the table, and those of later types stand for the type before |
| `Names.NamesAreOfClasses` | mproxy/src/attack.c:17-69 | Every name in the tables, as they are meant to be, is the name of a message class of this type |
| `Names.CommonNames` | mproxy/src/attack.c:60-69 | With version `*` exactly types 0 to 3, 5 to 14 and 24 to 34 have names, which stand for their types and name the same type in every version that has it |
| `Names.NumbersMeanTypes` | mproxy/src/attack.c:109-114 | Digits stand for the type of this number exactly if the version has a name for it, except for 29 of 1.3 and 21 and 34 of 1.4, which are not found, and 23 of 1.4, which is |
| `Promises.RoleRequestShifted` | mproxy/src/attack.c:42-49 | A name that fails: `RoleReq` of 1.3, type 24, is taken for type 23 |
| `Promises.MultipartReplyOverruns` | mproxy/src/attack.c:46-46 | A name that fails: `MultipartRes` of 1.3 is searched behind the table |
| `Csv.CsvParse` | mproxy/src/csv.c:35-79 | On any row without quoted fields the pointers returned lead to exactly its fields as C strings, for any number of fields; only the row is accessed |
| `Csv.FindNextComma` | mproxy/src/csv.c:13-33 | The next comma is found and it and the blanks in front of it become NULs, nothing else |
| `Csv.AddPointer` | mproxy/src/csv.c:60-67 | The pointer array grows by doubling and keeps its pointers |
| `Printing.CsvInversion` | mproxy/src/csv.c:35-79 | Any unquoted fields, joined with commas and blanks, come back exactly |
| `Printing.PlainRow` | mproxy/src/csv.c:35-79 | The same in plain characters: any fields without commas, not starting or ending with a blank or a tabulator and not starting with a quotation mark |
| `Printing.TrailingBlanks` | mproxy/src/csv.c:35-79 | Blanks at the end of any row belong to its last field, unless this is empty; all other fields stay |
| `Args.ArgsParse` | mproxy/src/args.c:27-94 | On any string the list built in place holds exactly the arguments the string means, or the scan overruns the end; writes stay inside the field |
| `Args.Overruns` | mproxy/src/args.c:27-94 | On every string: the parser steps over the end exactly if the number of `=` in the run of `=` and blanks at its end is odd |
| `Args.EmptyValueOverruns` | mproxy/src/args.c:82-87 | A string that fails: `p=` |
| `Args.TakenDelimiterOverruns` | mproxy/src/args.c:82-87 | A string that fails: `p=&=`, where the first `=` takes the delimiter |
| `Args.DoubleEqStays` | mproxy/src/args.c:82-87 | A string that does not: `p==` |
| `Args.TypeValue` | mproxy/src/args.c:58-72 | A value is an integer, a fraction or a string, by its form |
| `CStrings.IsInt` | mproxy/src/args.c:6-13 | True exactly for a nonempty string of digits |
| `CStrings.IsFloat` | mproxy/src/args.c:15-25 | 0 for digits, 1 for digits with one dot, -1 for anything else |
| `CStrings.AtoiDecimal` | mproxy/src/attack.c:98-98 | Reading back a decimal number gives it, cut off to `long` and wrapped to `int` |
| `CStrings.AtoiDigits` | mproxy/src/attack.c:98-98 | Digits from 2^63 on are read as -1, and of all others the low 32 bits as a signed number |
| `CStrings.KindIs` | mproxy/src/args.c:15-25 | In plain characters: an integer has only digits, a fraction digits and one dot, and every other string is neither |
| `CStrings.FractionIs` | mproxy/src/args.c:58-70 | The n digits behind the dot are worth their number divided by 10 to the n |
| `Printing.ArgsInversion` | mproxy/src/args.c:27-94 | Any written argument list, with blanks, comes back with typed values, except exactly when the last `=` has nothing behind it: then the scan overruns |
| `Printing.LastValueCounts` | mproxy/src/args.c:27-94 | An argument with two `=` has the name in front of the first and the value behind the second |
| `PairingProofs.StepKeepsInv` | mproxy/src/proxy.cpp:246-315 | Every accept branch, read, destructor and stop keeps the invariant: descriptors accounted for, client map truthful and complete, pairs intact, traffic exact |
| `PairingProofs.AcceptUnpaired` | mproxy/src/proxy.cpp:260-307 | Each of the eight failing accept branches leaves descriptors, clients and pointers as they were |
| `PairingProofs.RunKeepsInv` | mproxy/src/client.cpp:27-53 | The invariant holds after every run |
| `PairingRuns.NoCrossTalk` | mproxy/src/client.cpp:27-53 | In every run a live client either has fw_fd -1 and no partner, or its fw_fd leads to the live client it was created with, which points back |
| `PairingRuns.DescriptorsAccounted` | mproxy/src/proxy.cpp:246-315 | In every run no descriptor is closed twice or leaked; the open ones are the listener and one per live client |
| `PairingRuns.LonersAreTold` | mproxy/src/client.cpp:27-53 | In every run a live client has been told to break its loop exactly if its partner is gone |
| `PairingRuns.LiveExactly` | mproxy/src/proxy.cpp:246-315 | In every run a client lives exactly if the accept of its pair was successful and nobody has destroyed it; its descriptor is the one this accept got for its side, and it has received exactly the bytes of its read events, in order |
| `PairingRuns.TrafficStaysInPair` | mproxy/src/proxy.cpp:41-119 | In every run, however sockets answer, the bytes given to a client's socket are a prefix of what relaying its mate's messages gives rise to; while both live, they and the bytes waiting are exactly that |
| `PairingRuns.EmissionStaysInPair` | mproxy/src/proxy.cpp:41-119 | These bytes are the emission of the mate's messages up to the one that stops the mate |
| `PairingRuns.AliveExactly` | mproxy/src/action.c:59-61 | A run leaves the process alive exactly if no client with a living partner has received a fatal message that was treated |
| `PairingRuns.RunBounded` | mproxy/src/proxy.cpp:53-118 | The capacity bound for all clients over every run, with or without partners |
| `Proxies.Proxy.Accept` | mproxy/src/proxy.cpp:246-315 | An iteration of the accept loop on heap objects refines the machine's accept step in all nine outcomes: clients, map, and every open and close; earlier clients stay the same objects, and the new ones get the given answers |
| `Proxies.Proxy.Read` | mproxy/src/proxy.cpp:41-119 | The read callback among all clients, with the look-up of the partner, refines the machine's read step: nobody but the client and its partner changes |
| `Proxies.Proxy.Destroy` | mproxy/src/client.cpp:27-53 | The destructor on heap objects refines the machine's: descriptor closed, map entry erased, partner told, everybody else untouched |
| `Proxies.Proxy.Carry` | mproxy/src/proxy.cpp:41-315 | Any legal run of accepts, read callbacks, destructors and the closing of the listener, carried out on heap objects from the constructor's state on, ends in the state of the machine's run |
| `Proxies.Proxy.RegisterClient` | mproxy/src/client.cpp:82-86 | A client that is ready is entered in the map under its descriptor |
| `Tasks.FirstInFirstOut` | mproxy/src/useless/task.cpp:28-50 | In any interleaving the tasks popped are a prefix of those pushed, and the rest is the queue |
| `Tasks.NullsAndTasks` | mproxy/src/useless/task.cpp:28-54 | NULL is returned at most as often as `increment_count` posted; units and workers on their way account for every queued task |
| `Tasks.WorkersRunWhatTheyPop` | mproxy/src/useless/worker.cpp:28-47 | Each worker runs exactly the tasks it popped, in order, up to the one in its hands |
| `Tasks.SingleWorkerKeepsOrder` | mproxy/src/useless/worker.cpp:28-47 | A single worker runs the tasks in the order of enqueuing, whatever the order in which their mutexes are released |
| `Tasks.RunsNeedUnlocks` | mproxy/src/useless/worker.cpp:40-42 | In every run, a task has been run, or is being run, at most as often as its `ready` mutex has been unlocked |
| `Tasks.StopsWhenTold` | mproxy/src/useless/worker.cpp:28-36 | A worker stops only after it has been told to |
| `Tasks.ToldPopsNoMore` | mproxy/src/useless/worker.cpp:28-47 | A worker that has been told pops at most one more task, and none if it was at the head of its loop |
| `Tasks.EnqueueAlone` | mproxy/src/useless/task.cpp:28-33 | Uninterrupted, `enqueue` puts its task at the end of the queue, adds one to the semaphore and gives the mutex back; nothing else changes |
| `Tasks.IncrementAlone` | mproxy/src/useless/task.cpp:52-54 | `increment_count` adds its argument to the semaphore and is never held up |
| `Tasks.WorkAlone` | mproxy/src/useless/worker.cpp:28-47 | Uninterrupted, a worker takes one unit and the first task of the queue, locks the mutex of this task and runs it |
| `Tasks.NothingToDo` | mproxy/src/useless/worker.cpp:28-38 | With an empty queue it takes one unit, gets NULL and, not told to stop, starts anew |
| `Tasks.InsideRuns` | mproxy/src/useless/task.cpp:28-50 | At most one thread is between lock and unlock, and it is never held up there |
| `Tasks.StepKeepsInv` | mproxy/src/useless/task.cpp:28-54 | Every statement of every thread keeps queue, semaphore and histories in balance |
| `Handoff.StrictAlternation` | archive/mproxy v0.1/src/proxy.cpp:186-230 | In every interleaving the handlers exclude each other, sends alternate starting with a request, and exactly one handler can go on |
| `Handoff.StepKeepsInv` | archive/mproxy v0.1/src/proxy.cpp:145-152 | The single token of the two semaphores is kept by every statement |
| `LociActions.StampClassify` | mproxy/inc/loci/src/class00.c:33-943 | For every action class, version and buffer: stamping makes the three-level dispatch answer with the class, changes no byte but those of the type fields, and is already there whenever the dispatch answers so; the buffer need only reach to the last type field, and the dispatch reads no byte behind it |
| `LociActions.MarksDiffer` | mproxy/inc/loci/src/class00.c:33-943 | No two action classes stamp the same types |
| `LociActions.Dispatch` | mproxy/inc/loci/src/class00.c:33-943 | Whatever the buffer holds: if it bears the types of a class, the three-level dispatch answers with this class; and the answer is a class whose types it bears, or the base class of the level reached |
| `LociActions.UnknownDispatch` | mproxy/inc/loci/src/class00.c:33-943 | Bytes that bear the types of no class are answered with the base class of the level reached |
| `LociActions.PushWireTypes` | mproxy/inc/loci/src/class00.c:1223-1239 | The stamp, written in place |
| `LociInstructions.StampClassify` | mproxy/inc/loci/src/class04.c:8666-8788 | The same for instructions and their three levels |
| `LociInstructions.MarksDiffer` | mproxy/inc/loci/src/class04.c:8666-8788 | No two instruction classes stamp the same types |
| `LociInstructions.Dispatch` | mproxy/inc/loci/src/class04.c:8666-8788 | The same for instructions |
| `LociInstructions.UnknownDispatch` | mproxy/inc/loci/src/class04.c:8666-8788 | Bytes that bear the types of no class are answered with the base class of the level reached |
| `LociInstructions.PushWireTypes` | mproxy/inc/loci/src/class04.c:8896-8909 | The stamp, written in place |
| `LociHeaders.StampClassify` | mproxy/inc/loci/src/class00.c:5730-6191 | The same for all messages, with errors, group and flow modifications, statistics and vendor messages, through up to four levels; no byte but the version and those of the type fields changes |
| `LociHeaders.MarksDiffer` | mproxy/inc/loci/src/class00.c:5730-6191 | No two message classes stamp the same types |
| `LociHeaders.Dispatch` | mproxy/inc/loci/src/class00.c:5730-6191 | The same for messages |
| `LociHeaders.UnknownDispatch` | mproxy/inc/loci/src/class00.c:5730-6191 | Bytes that bear the types of no message class are answered with the base class of the level reached: of errors, modifications, statistics, or of the vendor |
| `LociHeaders.BareAnswers` | mproxy/inc/loci/src/class00.c:10518-10533 | The bare header is the answer exactly for types that the version does not have, and a nameless experimenter exactly for type 4 with a vendor other than 0x2320 and 0x5c16c7 |
| `LociHeaders.PushWireTypes` | mproxy/inc/loci/src/class04.c:3956-3972 | The stamp, written in place |
| `Wire.StampBears` | mproxy/inc/loci/src/class00.c:1223-1239 | The big-endian stores leave the stamp, and every byte outside of the type fields as it was |

## Left out

* libevent, sockets, name resolution, signals, threads of the proxy, command line, logging and the clean-up
  in `main`: input, output and plumbing.
* Allocation failures, except where the accept loop handles them; overflow of `size_t` and of pointers.
* LOCI's validators of the single message classes: any answer of theirs is covered, and only the checks in front
  of them are modelled. That an accepted message passes the assertions in LOCI is taken for granted.
* Quoted CSV fields, for which the remaining length goes wrong, and `csv_unescape`, which nothing calls: rows
  with a quoted field are `Unmodelled`.
* What happens after the program has left a string or table, or converted a fraction of 128 or more to
  `char`: the row is `Unmodelled`, and nothing is said about the program from there on. When this happens is
  part of the model.
* Rounding of fractional drop chances: `atof` is exact here.
* LIE and DELAY actions, which the program accepts and ignores; `delayer.h`, which has no bodies.
* `Proxies.Proxy.Accept`: where `init` leaves `ev_event` uninitialized on an early failure, and the destructor
  then reads it, is not modelled.
* `Clients.Client.constructor` allocates the receive buffer, which the program does in `init`.
* `Args.ScanArg` and the loop around it are one loop in the program; and the program does not know the end of
  the string, which `Args.ArgsParse` uses only to notice that it has been passed.
* `RuleText.TypeReads` speaks of numbers and `*` only; how names are read is said by `Promises.NamesShifted`.
* `Tasks` is a state machine, not a class: its point is the interleaving of statements, which methods do not
  have. Destruction of the queue and of tasks is not modelled.
* LOCI beyond the type fields: accessors, lists, lengths, the families of properties and of action and
  instruction ids, which dispatch in the same way. In the three families modelled here the many functions
  `push_wire_types` are one function of the class, and cases that are the same for several versions are
  merged.
* Version 0.1 beyond the handoff, the scripts, the example clients and `attacker_prep.py`.
