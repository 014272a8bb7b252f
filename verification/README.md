# Models and proofs for the sensor gateway

The repository connects small sensor nodes to web services. This project models its hard parts in Dafny and
proves what they are for. `dafny verify dfyconfig.toml` checks everything.

**The binary codecs** (`SensorValuesService/src-gen`). Eight generated automata, each a loop over a `switch (label)`,
turn trees into bits (dom2bin), bits into trees (bin2dom), bits into XML events (bin2sax) and XML events into bits
(sax2bin), for the messages Sample, Status and StatusControl. `Wire` defines the format by recursion over a schema,
`Automata` what it means that a table of states is laid out for a schema, and `Sensors` holds the three schemas and
the three tables, state by state as generated, and proves that they are laid out. `Dom2Bin`, `Bin2Dom`, `Bin2Sax`
and `Sax2Bin` hold one imperative automaton each, with its label, stack, cursor, reader or writer, and prove for
every laid-out table that a run does what the recursive format says, on every input, failures included.
`Dom2BinBits` says which bits have been written at every label, `Dom2BinInvariant` adds the pointer stack and the
`last` cursor, and proves that dom2bin returns exactly for trees without a repeated element. `Events` and `Grammar`
describe the XML side, `Loss` what one trip over the wire loses, and `Lengths` how many bits each message takes.
`Values` gives the three messages in plain terms (the values of their structures, the range of every number, the
bits on the wire and the tags printed, element by element and without a schema), `Agreement` proves that schemas and
tables say the same, and `EndToEnd` states the trips of the messages in those terms.
`Messages` composes the automata end to end, `Delivery` says which of the documents that sax2bin accepts arrive, and
`Misdelivery` what happens to some that do not.
All eight automata end: the bit readers by the bits left and then the schema, so that back edges that
consume nothing do no harm, sax2bin by the events left and then the schema, dom2bin by the tree.
`Runs`, `Pointers`, `Sequences`, `Options` and `Bits` are the groundwork.

**The gateway**. `Ws4dList` is the intrusive circular list on the heap, `ServiceCache` the reference-counted
services on top of it, `AcceptSet` the handles gathered for `select`, and `GatewayThreads` the main loop and the
discovery worker as two threads over list, mutex, condition and flag, under every schedule. `GatewayHistory` says
which devices have been served, checked, listed and freed after any schedule.

**Smaller cores**. `DomTree` and `DomParser` are the element trees of `dom.c`: traversal, search, adding and parsing.
`UsbBridge` is the serial framing, `NodeClock` the particle's clock, `Schedule` the node's sampling schedule.

## Assumptions

- bitsio and ptr_stack are not part of this model. Bits are written and read low bit first; reading gives the
  number with its upper bits zero; the pointer stack is last in, first out.
- A read past the end fails and ends the run. The bin2dom automata look at no result of `read_bits` and have no error
  return, so `EndOfInput` rests wholly on this: the reader itself is taken to stop the run.
- `soap_element_begin_in(tag)` consumes the next event exactly if it opens `tag`; `soap_element_end_in(tag)` fails
  unless the next token closes `tag`.
- Times and numbers in XML text are kept as numbers. `Lost` is a text that does not parse.
- Pointers into a tree are access paths. An invalid access, or one through a cursor that points to something else,
  is a crash.
- StatusControl_sax2bin never assigns `t.tv_usec` before it writes it (lines 646-664), and writes the variable `c` of
  a rate even when `sscanf` has not assigned it (lines 117-130). What such a variable holds is an arbitrary function of
  the events left, `clock`. Every row below about sax2bin holds for all of them; `FromText` stands for the fraction
  that the text itself has, and is one more for which they hold.
- `next_*` contains `return last++`, which returns `last` (sens_types.h:61). The model keeps this. It is why dom2bin
  returns exactly if no element occurs twice.
- One discovery worker does all adds and unregistrations, as in `gateway/src/platform/ip/discover.c:544-630`.
- `soap_tag_cmp` is an arbitrary predicate; `select` comes back with an arbitrary set, or times out, or fails.

Where the code falls short of what its names promise, the model follows the code, and says exactly when it works
and gives an input on which it does not:

- a borrow in the fraction of a second is not handled: `NodeClock.CarryConserves`, `NodeClock.BorrowIsMissed`;
- a sensor's rate cannot be set twice: `Schedule.ConfigureExactly`, `Schedule.DefaultsCannotBeChanged`;
- a search of an element tree also stops at elements nobody asked for, and does not stay below the element it is
  asked of: `DomTree.FindsExactly` and its three corollaries, `DomTree.FindsBelowExactly`,
  `DomTree.FailingSearches`, `DomTree.SearchLeaves`;
- a document with a text that does not parse, or with a repeated element, is accepted by sax2bin and does not arrive
  as it was sent. Exactly when it does: `Delivery.Forward`. A lost time leaves the node without bits
  (`Misdelivery.UnparsableTime`), or with a wrong time or a null pointer (`Misdelivery.WrongTime`); a lost rate
  arrives as any rate (`Misdelivery.UnparsableRate`, `Misdelivery.AnyRate`);
- a rate above 30 makes the node shift an int too far: `Schedule.ShiftableExactly`, `Schedule.UndefinedShift`.

dom2bin would never return from a tree with a repeated element (`Dom2BinInvariant.ReturnsExactlyIfSmall`). This is
no shortfall its callers can meet: the lists have room for one element and `add_*` yields NULL when it is taken, so
no such tree can be built.

## Model

| member | source | states |
|---|---|---|
| Wire.DecodeEncodeLeaf | SensorValuesService/src-gen/Sample_dom2bin.c:33-83 | a number read back is its distance from the offset reduced modulo the code's width, and a time loses the low four bits of its fraction |
| Wire.EncodeDecodeLeaf | SensorValuesService/src-gen/Sample_bin2dom.c:31-72 | encoding what was decoded gives the same bits again |
| Wire.ParseOfEncode | SensorValuesService/src-gen/Sample_bin2dom.c:7-745 | parsing the encoding of any tree of any sound schema, with any bits behind it, gives its normal form and leaves those bits |
| Wire.EncodeOfParse | SensorValuesService/src-gen/Sample_bin2sax.c:31-817 | what was parsed, repetitions included, encodes to exactly the bits consumed |
| Sensors.SampleLaid | SensorValuesService/src-gen/Sample_dom2bin.c:20-834 | the label table of the Sample automata is laid out for the Sample schema |
| Sensors.StatusLaid | SensorValuesService/src-gen/Status_dom2bin.c:20-1190 | the same for Status, with its two structures of one type |
| Sensors.StatusControlLaid | SensorValuesService/src-gen/StatusControl_bin2dom.c:19-560 | the same for StatusControl, with its two optional levels |
| Dom2Bin.ElementWritten | SensorValuesService/src-gen/Sample_dom2bin.c:86-283 | from an element's first state to the state behind it: its encoding is written, stack and cursor are back as they were |
| Dom2Bin.DocumentWritten | SensorValuesService/src-gen/Sample_dom2bin.c:4-846 | a run over a tree without repeated elements writes its encoding and halts |
| Dom2Bin.WriteLeaf | SensorValuesService/src-gen/Sample_dom2bin.c:114-149 | the write_bits calls of a simple element add its code |
| Dom2Bin.Automaton.AtBegin | SensorValuesService/src-gen/Sample_dom2bin.c:86-112 | one step of the run at the start of a structure: push and a one bit, or a zero bit and the jump |
| Dom2Bin.Automaton.AtEnd | SensorValuesService/src-gen/Sample_dom2bin.c:271-283 | one step at its end: `last` becomes the popped pointer and the label goes back |
| Dom2Bin.Automaton.AtMandatoryLeaf | SensorValuesService/src-gen/Sample_dom2bin.c:114-149 | one step at a mandatory simple element |
| Dom2Bin.Automaton.AtOptionalLeaf | SensorValuesService/src-gen/Sample_dom2bin.c:33-84 | the inner loop over next_* is that many steps of the run |
| Dom2Bin.Automaton.Loop | SensorValuesService/src-gen/Sample_dom2bin.c:12-846 | the switch loop ends where the run ends |
| Dom2Bin.Dom2BinRun | SensorValuesService/src-gen/Status_dom2bin.c:4-1203 | *_dom2bin_run appends exactly the encoding of the tree |
| Dom2BinBits.StepInElement | SensorValuesService/src-gen/Status_dom2bin.c:33-130 | a step from a configuration inside an element, with the bits before its label written, stays one, or goes to the state behind the element with its whole code written |
| Dom2BinBits.StepInFields | SensorValuesService/src-gen/Status_dom2bin.c:33-1188 | the same among the fields of a structure |
| Dom2BinBits.EveryBit | SensorValuesService/src-gen/Status_dom2bin.c:33-1188 | after any number of steps the bits written equal the recursive encoding of everything before the label, and every structure the label lies in is present |
| Dom2BinInvariant.EveryLabel | SensorValuesService/src-gen/Status_dom2bin.c:33-1188 | after any number of steps the stack is fixed by the label, `last` is NULL or the element just written of the list the label iterates, and the bits equal the recursive encoding of everything before the label; so sensorConfig and allSensorConfig are never confused |
| Dom2BinInvariant.TableBalanced | SensorValuesService/src-gen/Status_dom2bin.c:529-561 | every jump of a laid-out table, back or forward, agrees with the stack of its target |
| Dom2BinInvariant.StepKeepsInv | SensorValuesService/src-gen/Status_dom2bin.c:33-130 | one step keeps the invariant of stack and cursor |
| Dom2BinInvariant.LeafLoops | SensorValuesService/src-gen/sens_types.h:54-64 | with a second occurrence next_* returns the first one forever |
| Dom2BinInvariant.StructureLoops | SensorValuesService/src-gen/sens_types.h:247-258 | the same for a structure that occurs twice: no number of steps leaves it |
| Dom2BinInvariant.ReturnsExactlyIfSmall | SensorValuesService/src-gen/Sample_dom2bin.c:4-846 | on any tree, dom2bin returns if and only if no element occurs twice in a list |
| Bin2Dom.ElementRead | SensorValuesService/src-gen/Sample_bin2dom.c:74-246 | from an element's first state to the state behind it: what the format parses is stored where the stack points |
| Bin2Dom.DocumentRead | SensorValuesService/src-gen/Sample_bin2dom.c:7-745 | on every bit stream the run ends as the bounded parse does: a tree, the end of the bits, or a null pointer from a full list |
| Bin2Dom.Retried | SensorValuesService/src-gen/sens_types.h:44-50 | add_* on a filled slot yields NULL, and the run fails there |
| Bin2Dom.Automaton.AtBegin | SensorValuesService/src-gen/Sample_bin2dom.c:74-99 | one step of the run: read the continuation bit, add and push, or jump |
| Bin2Dom.Automaton.AtOptionalLeaf | SensorValuesService/src-gen/Sample_bin2dom.c:31-72 | the inner loop while (read_bit) is that many steps of the run |
| Bin2Dom.Automaton.Loop | SensorValuesService/src-gen/Sample_bin2dom.c:13-742 | the switch loop ends where the run ends |
| Bin2Dom.Bin2DomRun | SensorValuesService/src-gen/StatusControl_bin2dom.c:7-568 | *_bin2dom_run on every bit stream returns exactly what the bounded parse gives, tree and unread bits, or fails as it fails |
| Bin2Sax.DocumentPrinted | SensorValuesService/src-gen/Sample_bin2sax.c:31-817 | on every bit stream the run prints the tree of the unbounded parse, or fails where the bits end |
| Bin2Sax.ListPrinted | SensorValuesService/src-gen/Sample_bin2sax.c:295-304 | the back edges that consume nothing still end: each lap starts with a one bit |
| Bin2Sax.Automaton.Loop | SensorValuesService/src-gen/Status_bin2sax.c:31-1131 | the switch loop ends where the run ends |
| Bin2Sax.Bin2SaxRun | SensorValuesService/src-gen/Sample_bin2sax.c:21-817 | *_bin2sax_run on every bit stream: success and output are the print of the unbounded parse |
| Sax2Bin.DocumentConverted | SensorValuesService/src-gen/StatusControl_sax2bin.c:29-721 | on every event list the run accepts what the grammar's reader accepts, and writes the encoding of the tree read |
| Sax2Bin.ListConverted | SensorValuesService/src-gen/StatusControl_sax2bin.c:612-628 | a repeated element is converted once for each start tag, and the loop ends |
| Sax2Bin.Automaton.LeafBody | SensorValuesService/src-gen/StatusControl_sax2bin.c:630-690 | a time whose text does not parse writes nothing, and its fraction is that of a variable never assigned |
| Sax2Bin.Automaton.Loop | SensorValuesService/src-gen/StatusControl_sax2bin.c:29-721 | the switch loop ends where the run ends |
| Sax2Bin.Sax2BinRun | SensorValuesService/src-gen/StatusControl_sax2bin.c:18-721 | sax2bin_run on every event list: acceptance, the events left and the bits written |
| Events.RenderWellNested | SensorValuesService/src-gen/Sample_bin2sax.c:43-811 | whatever is printed is well nested (element type match, section 3 of XML 1.0) |
| Events.AcceptOfRender | SensorValuesService/src-gen/StatusControl_sax2bin.c:38-715 | a printed tree is read back, but for fractions that do not come from the text, and nothing behind it is looked at |
| Grammar.AcceptsExactlyPrints | SensorValuesService/src-gen/StatusControl_sax2bin.c:38-715 | where all texts parse, acceptance holds exactly for lists that begin with a sentence of the grammar, and the tree read is the one printed up to fractions of times |
| Grammar.PrintIsAccepted | SensorValuesService/src-gen/StatusControl_sax2bin.c:38-715 | the print of any conforming tree is accepted, whatever stands behind it and whatever the unassigned variable holds |
| Grammar.RenderInjective | SensorValuesService/src-gen/Sample_bin2sax.c:43-811 | the print determines the tree |
| Loss.NormExact | SensorValuesService/src-gen/Sample_dom2bin.c:33-834 | a tree survives a trip, up to the low bits of fractions, if and only if every number lies in its code's window |
| Loss.EncodeLength | SensorValuesService/src-gen/Sample_dom2bin.c:33-834 | the length of an encoding is the least length and, for each optional element present, its own least length and one more bit; it lies within bounds computed from the schema |
| Loss.SlotLength | SensorValuesService/src-gen/Sample_dom2bin.c:86-112 | an absent optional element costs one bit and a present one two more than its content |
| Loss.ExtremeLength | SensorValuesService/src-gen/Status_dom2bin.c:33-1188 | both bounds are met |
| Messages.Windows | SensorValuesService/src-gen/Sample_dom2bin.c:33-834 | the windows in numbers: temperatures from -20 to 107, seconds below 2^32, fractions below 2^16 |
| Agreement.SampleSays | SensorValuesService/src-gen/Sample_dom2bin.c:33-834 | the tree of any sample values: the bits of each element with its width and offset, the tags printed in order, the numeric range of every number, and what arrives exactly if all are in range, all written out |
| Agreement.StatusSays | SensorValuesService/src-gen/Status_dom2bin.c:33-1188 | the same for a status: two configurations, voltage and two times |
| Agreement.ControlSays | SensorValuesService/src-gen/StatusControl_sax2bin.c:29-721 | the same for a control message |
| EndToEnd.SampleOnto | SensorValuesService/src-gen/Sample_bin2dom.c:7-745 | every conforming tree of a sample without repetitions is the tree of some values |
| EndToEnd.StatusOnto | SensorValuesService/src-gen/Status_bin2dom.c:7-1083 | and of a status |
| EndToEnd.ControlOnto | SensorValuesService/src-gen/StatusControl_bin2dom.c:7-568 | and of a control message |
| EndToEnd.SampleTrip | SensorValuesService/src-gen/Sample_bin2sax.c:21-817 | a sample through dom2bin, bin2dom and bin2sax: the bits written out, and the same values back and printed, fractions rounded down, if and only if each number is in its range: force 0 to 255, x, y and z -32768 to 32767, and so on |
| EndToEnd.StatusTrip | SensorValuesService/src-gen/Status_dom2bin.c:4-1203 | the same for a status |
| EndToEnd.ControlTrip | SensorValuesService/src-gen/StatusControl_sax2bin.c:18-721 | a control message printed, through sax2bin and bin2dom: accepted, the bits written out, and the same values arrive, but for the fraction, if and only if they are in range |
| Lengths.SampleLength | SensorValuesService/src-gen/Sample_dom2bin.c:33-834 | a sample takes 6 + 45 + 50 + 10 + 34 + 10 + 9 bits, each term but the first if its element is present, and 9 more for each index |
| Lengths.StatusLength | SensorValuesService/src-gen/Status_dom2bin.c:33-1188 | a status takes 116 bits and 9 for each rate in its two configurations |
| Lengths.StatusControlLength | SensorValuesService/src-gen/StatusControl_bin2dom.c:19-560 | a control message takes 2 bits, 45 for a new time, and for a configuration 7 and 9 for each rate |
| Lengths.MessageLengths | pPart/XMLPRS/prs74.c:207-215 | 6 to 209 bits for Sample, 116 to 224 for Status, 2 to 108 for StatusControl, all ends met by conforming trees; every message fits the 64-byte buffer and the 8-bit length field |
| Lengths.LengthsOf | dummynode_SSimp/src/operations.c:19-26 | a message of at most 512 bits fits both |
| Messages.RoundTrip | SensorValuesService/src-gen/Sample_bin2dom.c:7-745 | dom2bin, any bits behind, bin2dom: exactly the written bits are consumed, and the tree is restored with fractions rounded down if and only if its numbers are in range |
| Messages.SampleRoundTrip | SensorValuesService/src-gen/Sample_dom2bin.c:4-846 | that for every Sample |
| Messages.StatusRoundTrip | SensorValuesService/src-gen/Status_bin2dom.c:7-1083 | that for every Status |
| Messages.TwoReaders | SensorValuesService/src-gen/Sample_bin2sax.c:31-817 | bin2sax prints exactly the tree bin2dom builds from the same bits; where only bin2sax returns, an element was repeated |
| Messages.BoundedParse | SensorValuesService/src-gen/Status_bin2dom.c:31-1060 | the two readers differ only by a repetition |
| Messages.OutputDeterminesBits | SensorValuesService/src-gen/Sample_bin2sax.c:43-811 | the events put out determine the bits consumed, repetitions included, and are well nested |
| Messages.PrintedSample | SensorValuesService/src-gen/Sample_bin2sax.c:21-817 | dom2bin at the node and bin2sax at the gateway print the sample, up to rounding if and only if its numbers are in range |
| Messages.ConfigPath | SensorValuesService/src-gen/StatusControl_bin2dom.c:7-568 | a printed control tree sent through sax2bin and bin2dom arrives, times compared on seconds, if and only if its numbers are in range, whatever the unassigned variable holds |
| Delivery.ElementEvents | SensorValuesService/src-gen/StatusControl_sax2bin.c:29-721 | the events an element is read from show whether a time was lost and whether anything was repeated; whether a number was lost shows in `ElementPrinted` |
| Delivery.ElementPrinted | SensorValuesService/src-gen/StatusControl_sax2bin.c:29-721 | an accepted element whose texts all parse is the print of a tree, whatever stands behind it |
| Delivery.RenderTexted | SensorValuesService/src-gen/StatusControl_sax2bin.c:29-721 | in the print of a tree all texts parse |
| Delivery.ArrivesExactly | SensorValuesService/src-gen/StatusControl_bin2dom.c:7-568 | the bits of a tree that was read give it back, up to the loss of one trip, if and only if it has lost no time and repeats nothing |
| Delivery.AcceptedArrivesExactly | SensorValuesService/src-gen/StatusControl_sax2bin.c:29-721 | the tree read of an accepted document, unassigned variables included, arrives if and only if a text that parses follows every start tag of a time, and no end tag is followed by the same start tag |
| Delivery.AcceptedIsPrintExactly | SensorValuesService/src-gen/StatusControl_sax2bin.c:29-721 | an accepted document is the print of a tree if and only if all its texts parse, those of numbers too; the tree read is then that tree but for fractions |
| Delivery.PrintArrivesExactly | SensorValuesService/src-gen/StatusControl_bin2dom.c:7-568 | that tree arrives, times compared on seconds, if and only if nothing is repeated and its numbers are in range |
| Delivery.SentArrivesExactly | SensorValuesService/src-gen/StatusControl_sax2bin.c:29-721 | what an accepted document says arrives if and only if all its texts parse, nothing is repeated, and its numbers are in range |
| Delivery.Forward | SensorValuesService/src-gen/StatusControl_bin2dom.c:7-568 | sax2bin and then bin2dom on any event list: both of these, for what was read of the document and for what the document says |
| Delivery.ForwardControl | SensorValuesService/src-gen/StatusControl_sax2bin.c:18-721 | that for the control messages |
| Misdelivery.UnparsableTime | SensorValuesService/src-gen/StatusControl_sax2bin.c:646-664 | a new time that does not parse is accepted, and its bits make bin2dom run out of input, whatever the unassigned variable holds |
| Misdelivery.WrongTime | SensorValuesService/src-gen/StatusControl_sax2bin.c:646-664 | followed by a new time of 1 s it makes bin2dom return one of 3 s and leave a bit, or meet a full list, split exactly by bit 15 of the unassigned variable |
| Misdelivery.ShiftedTime | SensorValuesService/src-gen/StatusControl_sax2bin.c:646-664 | why: the code of the second time is read one bit further on, and the last bit of its fraction as a continuation bit |
| Misdelivery.UnparsableRate | SensorValuesService/src-gen/StatusControl_sax2bin.c:117-130 | a rate that does not parse is accepted, and the unassigned variable arrives in its place; only its text tells |
| Misdelivery.AnyRate | SensorValuesService/src-gen/StatusControl_sax2bin.c:117-130 | that can be any number |
| Misdelivery.RateTreeInRange | SensorValuesService/src-gen/StatusControl_sax2bin.c:117-130 | and a number from -128 to 127 arrives as it is |
| Ws4dList.RingPassesCheck | contrib/ws4d-gsoap/include/ws4d_list.h:73-88 | in a list the neighbours of every node point back to it |
| Ws4dList.InitList | contrib/ws4d-gsoap/include/ws4d_list.h:102-104 | a head initialised is the empty list |
| Ws4dList.AddBetween | contrib/ws4d-gsoap/include/ws4d_list.h:107-116 | insertion between two neighbours, on the heap, inserts at that index and leaves any other list alone |
| Ws4dList.Add | contrib/ws4d-gsoap/include/ws4d_list.h:138-143 | add prepends |
| Ws4dList.AddTail | contrib/ws4d-gsoap/include/ws4d_list.h:166-171 | add_tail appends |
| Ws4dList.Unlink | contrib/ws4d-gsoap/include/ws4d_list.h:174-188 | the neighbours of an entry are joined |
| Ws4dList.Del | contrib/ws4d-gsoap/include/ws4d_list.h:212-218 | del removes the entry, which becomes a list of its own, and leaves any other list alone |
| Ws4dList.Move | contrib/ws4d-gsoap/include/ws4d_list.h:244-250 | move takes an entry out of its list and prepends it to another, or to the same one |
| Ws4dList.MoveTail | contrib/ws4d-gsoap/include/ws4d_list.h:276-283 | move_tail likewise appends it |
| Ws4dList.Empty | contrib/ws4d-gsoap/include/ws4d_list.h:292-298 | the test is true exactly of the empty list |
| Ws4dList.Foreach | contrib/ws4d-gsoap/include/ws4d_list.h:359-363 | foreach with a body that may delete and free the current entry visits every entry of the original list once, in order, reads no freed node, and leaves exactly the others |
| Ws4dList.StandingAt | contrib/ws4d-gsoap/include/ws4d_list.h:359-363 | the remembered next entry is still alive and in the list after the body has freed the current one |
| ServiceCache.CacheIsCounting | gateway/src/service_cache.c:32-107 | a run gets through exactly if nobody unregisters unregistered; then ids are present exactly while registrations exceed unregistrations, with that many users, in one container initialised once per lifetime, oldest first |
| ServiceCache.IdsDistinct | gateway/src/service_cache.c:73-76 | no id is listed twice |
| ServiceCache.ServiceList.ListGetContainer | gateway/src/service_cache.c:57-67 | the search finds the container with the id, or null if there is none |
| ServiceCache.ServiceList.Build | gateway/src/service_cache.c:32-40 | a new container with no user at the end of the list |
| ServiceCache.ServiceList.CountUser | gateway/src/service_cache.c:43-53 | one user more or less of that container only |
| ServiceCache.ServiceList.FindOrBuild | gateway/src/service_cache.c:80-89 | the container with the id, or a new one at the end |
| ServiceCache.ServiceList.Register | gateway/src/service_cache.c:80-93 | the heap does what the value model does; an existing container is reused, a new one appended |
| ServiceCache.ServiceList.Unregister | gateway/src/service_cache.c:95-107 | the last user's container is taken off the list and freed |
| ServiceCache.ServiceList.CountServices | gateway/src/service_cache.c:113-120 | the number of containers |
| ServiceCache.ServiceList.GetService | gateway/src/service_cache.c:122-136 | the service at that place of the list, null outside |
| ServiceCache.Replay | gateway/src/service_cache.c:32-136 | any allowed run on the heap leaves what the run determines |
| AcceptSet.Gather | gateway/src/proxy_structures.c:273-304 | the array never exceeds services and two slots a device; it holds the services in order and then, device by device in list order, each dis_mca that is not null and next to it each hosting_handle that is not null, at places counted from the fields alone, and nothing else |
| AcceptSet.GatheredHolds | gateway/src/proxy_structures.c:286-304 | such an array contains exactly the services and the non-null handles of the devices |
| AcceptSet.InListOrder | gateway/src/proxy_structures.c:290-304 | an earlier device's handles stand before a later one's |
| AcceptSet.FirstAnswers | gateway/src/proxy_structures.c:315-364 | the first ready entry of such an array is the first ready service, or else, of the first device with a ready handle, dis_mca if it is ready and hosting_handle if not |
| AcceptSet.Accept | gateway/src/proxy_structures.c:315-364 | select is asked about exactly the handles' sockets with one more than the greatest, unless one is invalid; the result is the first ready handle in order, null if none is |
| AcceptSet.Maccept | gateway/src/proxy_structures.c:273-313 | the composition of both, and that answer in terms of the services and the devices' fields: null exactly if a socket is invalid, select timed out, or none is ready |
| AcceptSet.CountDevices | gateway/src/proxy_structures.c:144-153 | the number of devices |
| GatewayThreads.Reachable | gateway/src/platform/ip/discover.c:544-630 | under every schedule the invariant of list, mutex, cursors and device memory holds |
| GatewayThreads.MainKeepsInv | gateway/src/proxy_handler.c:58-102 | every step of the main loop keeps it |
| GatewayThreads.WorkerKeepsInv | gateway/src/proxy_handler.c:213-232 | every step of the worker keeps it: adding, unregistering, cleaning up |
| GatewayThreads.WalkStep | gateway/src/proxy_structures.c:177-188 | a walk under the mutex has seen a prefix of the list, and its cursors follow |
| GatewayThreads.NoFreedDeviceTouched | gateway/src/proxy_structures.c:80-112 | under every schedule no thread reads, frees or links through a freed device, the list is written under the mutex only, and the set select gets is the whole list |
| GatewayThreads.NoLostWakeUp | gateway/src/mutex_handling.c:44-49 | a blocked main loop with the mutex free means an empty list; after cleanup's broadcast it is not blocked and cannot block again |
| GatewayThreads.NotStuck | gateway/src/main.c:135-146 | as long as a thread has not ended, some thread can take a step |
| GatewayThreads.NothingLeft | gateway/src/proxy_structures.c:164-175 | when both threads have ended, every device ever made has been freed |
| GatewayThreads.EndsFrom | gateway/src/proxy_structures.c:164-175 | once the flag is cleared, every schedule is finite |
| GatewayThreads.ShutdownCompletes | gateway/src/main.c:135-148 | after the interrupt every schedule ends, and where no step is left both threads have ended, the list is empty and all devices are freed |
| GatewayHistory.ServedIsChosen | gateway/src/proxy_structures.c:344-356 | under every schedule the devices served are exactly those select finds ready: for each select with an index below the length of the list, the entry there at that moment, in order; past that index none |
| GatewayHistory.ChecksAll | gateway/src/proxy_structures.c:177-188 | each check of the subscriptions covers every device on the list once, in order |
| GatewayHistory.LapsAreWhole | gateway/src/main.c:135-146 | every lap of the main loop asks select once and checks the subscriptions once |
| GatewayHistory.AsksForDevices | gateway/src/proxy_handler.c:65-68 | while the flag is set select is asked only with a device on the list, and the main loop waits only without one |
| GatewayHistory.LostAreFreed | gateway/src/platform/ip/discover.c:588-616 | after every schedule, until the cleanup: a device is freed or on its way off exactly if its connection was found broken; with nothing in the worker's hands all broken ones are freed, and the list is the announced devices in order without the broken ones |
| GatewayHistory.WithoutHas | gateway/src/platform/ip/discover.c:588-616 | that list holds exactly the devices announced and not broken |
| GatewayHistory.WithoutInOrder | gateway/src/platform/ip/discover.c:588-616 | in the order of their announcement |
| GatewayHistory.PassesAreWhole | gateway/src/platform/ip/discover.c:586-624 | the worker looks at each descriptor of a pass once, whatever it meets there |
| DomTree.EachOnce | contrib/gsoap/gsoap/dom.c:553-563 | a forest with consistent links holds no element twice |
| DomTree.LinksDetermine | contrib/gsoap/gsoap/dom.c:463-477 | the links determine the forest |
| DomTree.NextElement | contrib/gsoap/gsoap/dom.c:553-563 | the successor in document order from any element, null after the last |
| DomTree.Traverse | contrib/gsoap/gsoap/dom.c:553-563 | repeated from the first root it meets every element exactly once in document order |
| DomTree.Increment | contrib/gsoap/gsoap/dom.c:924-947 | operator++ skips to the next matching element |
| DomTree.Find | contrib/gsoap/gsoap/dom.c:757-776 | find, of any element: the element itself by find's test, else the first later one of the document at which operator++ stops |
| DomTree.FindAll | contrib/gsoap/gsoap/dom.c:757-776 | a loop over find, of any element, yields the element by find's test and, in order, all later elements of the document operator++ stops at |
| DomTree.StaysInside | contrib/gsoap/gsoap/dom.c:757-776 | find does not leave what is below its element if and only if operator++ stops nowhere after it |
| DomTree.FindsBelowExactly | contrib/gsoap/gsoap/dom.c:757-776 | it yields exactly the elements asked for there if and only if, besides, operator++ stops only at such below it |
| DomTree.SearchLeaves | contrib/gsoap/gsoap/dom.c:924-947 | a search that leaves: it yields a sibling of its element |
| DomTree.FindsExactly | contrib/gsoap/gsoap/dom.c:757-776 | from any element on, a loop over find yields exactly the elements of the document asked for, in order, if and only if every later element at which operator++ stops is one of them |
| DomTree.NamedSearchFinds | contrib/gsoap/gsoap/dom.c:757-766 | for a search by name: if and only if all later elements have names |
| DomTree.NamespaceSearchFinds | contrib/gsoap/gsoap/dom.c:757-766 | for a search by namespace alone: if and only if no later element is of another namespace |
| DomTree.TypeSearchFinds | contrib/gsoap/gsoap/dom.c:770-776 | for a search by type: always if the type is not 0, else if and only if all later types are 0 |
| DomTree.FailingSearches | contrib/gsoap/gsoap/dom.c:924-947 | a document on which all three yield an element that none asks for |
| DomTree.FailingDocument | contrib/gsoap/gsoap/dom.c:704-714 | it can be built |
| DomTree.NamespaceAloneFiltersNothing | contrib/gsoap/gsoap/dom.c:929-944 | a search by namespace alone stops at every later element |
| DomTree.AppendIsConsistent | contrib/gsoap/gsoap/dom.c:463-477 | linking a tree behind the last sibling keeps the links consistent |
| DomTree.Add | contrib/gsoap/gsoap/dom.c:704-714 | add makes an element the last child and changes no other link |
| DomParser.ParseOfPrint | contrib/gsoap/gsoap/dom.c:398-495 | what is printed is parsed back, and nothing behind it is consumed |
| DomParser.PrintOfElement | contrib/gsoap/gsoap/dom.c:398-495 | what is parsed is what was printed |
| DomParser.PrintedNames | contrib/gsoap/gsoap/dom.c:398-495 | start tags come in document order |
| DomParser.InBody | contrib/gsoap/gsoap/dom.c:463-491 | the loop over children links each child behind the one before, below its parent |
| DomParser.In | contrib/gsoap/gsoap/dom.c:398-495 | on every token list: the tree built has consistent links and is the parse, or the error is the same |
| DomParser.ListNames | contrib/gsoap/gsoap/dom.c:553-563 | parsed and then traversed, names come in the order of the start tags read |
| UsbBridge.InNumbers | pPart/USBBrige/usb_bridge.c:142-184 | 0, 192 and 219 leave as 219 1, 219 193 and 219 220, any other byte as itself; a packet stands between 0 and 192, and a length over 64 leaves a 0 and the header |
| UsbBridge.TakeEscaped | pPart/USBBrige/usb_bridge.c:149-156 | a receiver undoes the escaping, whatever the bytes |
| UsbBridge.TakeSent | pPart/USBBrige/usb_bridge.c:142-184 | from any state, one call makes a receiver deliver that packet, or nothing if the call returned early |
| UsbBridge.DeliversExactlyCompleted | pPart/USBBrige/usb_bridge.c:142-184 | after any calls, from any state, exactly the completed packets are delivered, in order |
| UsbBridge.NoBegin | pPart/USBBrige/usb_bridge.c:149-181 | neither delimiter occurs inside a packet |
| UsbBridge.JoinsAnywhere | pPart/USBBrige/usb_bridge.c:142-184 | a receiver that starts to listen at any byte delivers exactly the completed packets that begin from there on |
| UsbBridge.Bridge.SendEscaped | pPart/USBBrige/usb_bridge.c:149-156 | the loop over a buffer sends its escaped bytes |
| UsbBridge.Bridge.Particle2USB | pPart/USBBrige/usb_bridge.c:142-184 | one call sends the frame, or only its beginning if the length is over 64 |
| UsbBridge.Run | pPart/USBBrige/usb_bridge.c:142-184 | a bridge called for any packets, and a receiver behind it |
| NodeClock.CarryConserves | pPart/XMLPRS/sensorvalues_service.c:79-90 | no time is lost; the result is normalised if and only if the sum of fractions is not negative and below two seconds |
| NodeClock.GlobalTime | pPart/XMLPRS/sensorvalues_service.c:70-90 | with normalised readings that is: if and only if no borrow is needed |
| NodeClock.BorrowIsMissed | pPart/XMLPRS/sensorvalues_service.c:85-89 | an input with a borrow and its unnormalised result |
| NodeClock.ReadingIsTimer | pPart/XMLPRS/sensorvalues_service.c:66-67 | the two bytes of one timer value give 65536 sec + 16 ticks |
| NodeClock.HighByteStood | pPart/XMLPRS/sensorvalues_service.c:61-65 | a high byte read twice alike within less than a round has not changed between |
| NodeClock.Clock.UpdateTime | pPart/XMLPRS/sensorvalues_service.c:46-55 | 4096 sec + timer is kept, with ticks between the accesses, until the counter of seconds wraps |
| NodeClock.Clock.GetLocaltime | pPart/XMLPRS/sensorvalues_service.c:57-68 | the reading is the local time of the moment the low byte was read |
| NodeClock.Clock.SetGlobaltime | pPart/XMLPRS/sensorvalues_service.c:70-77 | the offset is the difference to such a reading |
| NodeClock.Clock.GetGlobaltime | pPart/XMLPRS/sensorvalues_service.c:92-97 | the carried sum with such a reading |
| NodeClock.SetAndGet | pPart/XMLPRS/sensorvalues_service.c:46-97 | global time set, any stretches with updates, global time read: the result is v plus the time truly gone by, to the tick, normalised if and only if no borrow is needed |
| Schedule.ConfigureExactly | dummynode_SSimp/src/sensorvalues_service.c:105-134 | a configuration gets through if and only if no requested, supported sensor has a rate already; then, field by field, its rate is at least the request and at least the capability and equals one of them, and every other rate is unchanged |
| Schedule.DefaultsCannotBeChanged | dummynode_SSimp/src/sensorvalues_service.c:35-49 | in every run a request for acceleration, force or temperature dereferences null |
| Schedule.RunKeeps | dummynode_SSimp/src/sensorvalues_service.c:105-143 | over every run no rate is set without the capability, or faster than it |
| Schedule.RateStays | dummynode_SSimp/src/sensorvalues_service.c:105-109 | a rate once set never changes |
| Schedule.FiresAtMultiples | dummynode_SSimp/src/operations.c:28-40 | neither the counter's wrap nor its reduction is noticed: a sensor fires at the multiples of its period |
| Schedule.OneFiringAWindow | dummynode_SSimp/src/sensorvalues_service.c:60-82 | every window of 2^rate consecutive events holds exactly one firing |
| Schedule.SlowerFiresLess | dummynode_SSimp/src/sensorvalues_service.c:105-109 | a slower rate fires only where a faster one does |
| Schedule.ShiftableExactly | dummynode_SSimp/src/sensorvalues_service.c:105-134 | after a run all shifts by a rate are defined if and only if no request asked for a rate above 30 for ambient light |
| Schedule.UndefinedShift | dummynode_SSimp/src/sensorvalues_service.c:60-61 | one request for 31 leads to an undefined shift |
| Schedule.RunSchedule | dummynode_SSimp/src/operations.c:28-40 | in every run whose requests ask for no rate above 30, event number n reads exactly the sensors whose period divides n, each also due at its capability's rate |
| Schedule.ReadSamplesSupported | dummynode_SSimp/src/operations.c:102-107 | a read on demand samples exactly the supported sensors |
| Schedule.Node.constructor | dummynode_SSimp/src/sensorvalues_service.c:35-49 | the default rates 6, 7, 7 and capabilities 1, 1, 1, 4, in numbers |
| Schedule.Node.GetSensorValues | dummynode_SSimp/src/sensorvalues_service.c:51-103 | exactly the due sensors are read, and the result says whether there is none |
| Schedule.Node.SendEvent | dummynode_SSimp/src/operations.c:28-40 | the counter advances modulo 2^16 and is used modulo 2^15 |
| Schedule.Node.ConfigRate | dummynode_SSimp/src/sensorvalues_service.c:105-109 | one sensor's rate becomes the greater of request and capability, and no other one changes; or the null dereference |
| Schedule.Node.ConfigureSensors | dummynode_SSimp/src/sensorvalues_service.c:111-143 | the five rates as above, field by field, and the configurations reported |

## Left out

- Dom2Bin.Dom2BinRun: requires that no element occurs twice, because by `Dom2BinInvariant.ReturnsExactlyIfSmall` the automaton does not return otherwise.
- Messages.ConfigPath: speaks of printed documents; what happens to any other event list is in `Sax2Bin.Sax2BinRun` and `Delivery.ForwardControl`.
- Ws4dList.Foreach: the loop body is deletion and release of the current entry or nothing; other bodies are the loops of `ServiceCache` and `AcceptSet`.
- GatewayThreads.Reachable: the list is a sequence here, its refinement on the heap is `Ws4dList`; a device is one block of memory; the node's sockets, which are closed without the mutex, are not modelled.
- GatewayThreads.ShutdownCompletes: select and the service functions are taken to return.
- AcceptSet.Accept: the limit of descriptors in an fd_set, time spans and soap_accept are not modelled.
- DomParser.In: attributes, namespace prefixes, typed nodes and text beside child elements are not modelled; text tokens are not empty.
- DomTree.Add: the element added has no sibling of its own and is not in the parent's tree.
- NodeClock.Clock.GetLocaltime: one try takes less than a round of the timer, and the loop is cut after the tries given; shift, or and mask of the two bytes are written as arithmetic; tv_sec is unbounded.
- Schedule.Node.GetSensorValues: rates above 30 are excluded, where the shift of an int is undefined (`Schedule.ShiftableExactly` says after which requests); the values read and the time stamp are not modelled.
- UsbBridge.Run: the receiver is a specification, none is part of the repository; USB2Particle and the choice of direction are not modelled.
- Serialising element trees and resolving their namespace prefixes.
- gSOAP and WS4D internals, sockets, UDP discovery messages, signals and ini files.
- The Acceleration, DataLogging, DeviceInfo and VLink servers, the event delivery files and the C# client: plumbing with easy properties only.
- Text forms of dates and numbers.
