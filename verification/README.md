# Verification of the xApp framework's JSON engine and of its callers

The framework keeps a parsed JSON document as a tree of symbol tables that point into one shared,
destructively cut text. `jw_new` walks the flat token array of jsmn, skips over nested objects by
comparing end offsets, writes zero bytes into the very text it goes on reading, and parses nested
objects from a duplicate of their text (members) or in place (array elements). This project models
that walk over an explicit memory of text buffers, tables, things and arrays of things, and proves
what it means: for which documents the tables answer every lookup as the document does, and for which
they do not. On top of it stand the cursor over the tables, the configuration getters, and the two
printers whose output is read back. Further parts are models of their own: the statistics trigger of
`rmr_dump`, the ownership of transport buffers, the listeners, the subscription codecs and the
route set-up.

## Structure

- `Document`, `Jsmn`, `Reading`: JSON documents (RFC 8259, sections 2 to 7) as trees that keep their
  whitespace, the text of each, the pre-order tokens of each with their offsets, and a reader that is
  proved sound and complete for these trees. `Document.StandardWs`, `StandardChar`, `StandardEscape`,
  `StandardHex` and `StandardWords` hold the grammar against the standard's own characters and words.
- `Numbers`: strtod, `%d`, `%.5f` and `std::to_string`, over `real`.
- `Memory`: the memory, and when a table represents the members of an object. Blocks are named by the
  serial numbers of their allocation, so a second release of one would be a release of a block that is
  not there.
- `Accepts`: the conditions on documents. `LevelOk` speaks of one object: no array directly inside an
  array, and if the last member's value is a non-empty object, or an array whose last element is one,
  then its last token is a string. `Good` asks the same of every object below as well.
- `Lookup`: lookups in a document, and the paths of selections that come to an object which breaks the
  rules (spoiled paths).
- `Partial`: the tables of a document whose top level keeps the rules, whatever the objects below do: the
  table of each of those that breaks them is dead, that is released or with a name for a released thing.
- `TailByte`, `Parser`, `Jwrapper`: the parser, `jw_new` and the getters; `Answers`: what these say of each
  kind of value and of each way to write a number. `Nuke`, `Release`: `jw_nuke`.
  `Places`, `Slots`: where the tables of a document are, and what the unfilled slot past its tokens does.
- `JhashClass`, `Heaps`, `ConfigClass`, `Printing`, `AlarmClass`, `MetricsClass`.
- `Stats`, `MessageClass`, `MessengerClass`, `Listeners`, `Subscription`, `Instances`, `Wire`, `Routes`.

## Main results

1. `Jwrapper.NewExact`: for an object of at most 4096 tokens, `jw_new` returns NULL exactly when the
   object breaks the rules of its own level. From the table of any other, to any depth, a path of
   selections meets something released exactly when it enters an object of the document that breaks the
   rules; every other path ends where it ends in the document, and there every getter answers as that
   object does. With unique names the whole document is right if and only if it is `Good` (`NewWhole`).
   Documents outside `Good` are not exotic: `{"a":{"b":1}}` is refused (`TailNumberRefused`), because the
   skip loops stop one token early (`src/json/jwrapper.c:364`, `408`), while `{"a":{"b":"1"}}` is not
   (`TailStringAccepted`). That last document depends on what stands in an uninitialised slot, though:
   `Slots.SpoiledSlot` gives one that adds a member, and `AnySlot` the documents that no slot can spoil.
   `Answers.MemberSays`, `ElementSays`, `DecimalSays` and `ScientificSays` spell the answers out, down to
   the value of a number with an exponent.
2. `Release.NukeExact`, `NukeGood`: all that `jw_nuke` reads of a new document is live if and only if no
   path of selections is spoiled, with unique names if and only if the document is `Good`. `jw_new` accepts
   `{"a":{"b":{"c":1}},"d":2}`, and `jw_nuke` of it reads a released block (`HalfAccepted`).
   `Release.NewThenNuke`: of a `Good` document `jw_nuke` after `jw_new` restores memory if and only if no
   object has a name twice; what stays otherwise is given exactly. No block is released twice, since every
   release demands a live block.
3. `Heaps.EveryRun`: over every run of any number of cursors on one heap, whatever is made, moved and
   destroyed in between, each live cursor on a document that `jw_new` gets right stands at the table that
   its own selections reach, and reads there what the document says; every block in use is accounted for.
   `ConfigClass.Config.*` and `AskAll`: for every configuration file that is a document of RFC 8259 or
   blank, each getter answers as a lookup in the document, in any order of calls, as long as the objects it
   enters keep the rules, and leaves the shared cursor at the root; `ControlSays` and `PortSays` say what
   the answers are for each kind of value in the file.
4. `AlarmClass.AlarmReadBack`: a printed alarm reads back field by field.
   `MetricsClass.PushAndSend` and `PayloadRefused`: a metrics payload is a JSON object that lists what was
   pushed, in order and rounded to five decimals, and `jw_new` refuses every one of at most 4096 tokens,
   again because of the skip loops; of a longer one it makes an empty table.
5. `Stats.Reports`, `Stats.CountsAre`, `Listeners.EveryInterleaving`, `Listeners.AfterHalt`,
   `Listeners.HaltReturns`: results over all interleavings of any number of threads.
6. `Subscription.RequestBack`: exactly which subscription requests survive encoding and decoding; `Wire`:
   exactly what each decoder accepts, by the names on the wire.
7. `MessengerClass.Messenger.Round`: exactly when the listening loop leaves each buffer with one holder.
8. `Routes.Server.Init`: exactly which set-ups pass the asserts, and what they register.

Where the code and its comments differ, the code is modelled. The places met: the loops that compute
the step over a nested object (`src/json/jwrapper.c:362-371`, `406-414`) are one short at the end of a
level; the move assignment of a cursor (`src/json/jhash.cpp:67-80`) does not release what the object
held; a message without a callback is not silently dropped (`src/messaging/messenger.cpp:155`): its
buffer stays referenced by the message and by the loop (`Messenger.Round`, `OneUnhandled`); and the
message of a received buffer lives until the next one arrives, not to the end of its scope
(`src/messaging/messenger.cpp:257`).

## Model

| member | source | states |
|---|---|---|
| Jwrapper.NewExact | src/json/jwrapper.c:279-536 | For every object text of at most 4096 tokens: jw_new gives NULL exactly when the object breaks the rules of its own level; from the table of any other, a path of selections meets something released exactly when it enters an object of the document that breaks the rules, and every other path and every getter, to any depth, agrees with the document |
| Jwrapper.NewWhole | src/json/jwrapper.c:279-536 | With unique names, jw_new gives a table from which no path of selections meets a released block if and only if the document is Good |
| Jwrapper.EveryLookup | src/json/jwrapper.c:594-892 | From the table of an object, sound or dead, a path of jw_blob and jw_obj_ele selections ends where it ends in the document, and all getters answer there as the document's object does, unless the path enters an object that breaks the rules; then it meets something released |
| Jwrapper.MemberLookup | src/json/jwrapper.c:594-727 | Presence, the four type tests, string, value, blob and array length of any name answer for the last member of that name in the document |
| Jwrapper.ElementLookup | src/json/jwrapper.c:733-875 | The element getters answer for the document's array element, and say nothing is there for a bad index or name |
| Jwrapper.Sussed | src/json/jwrapper.c:140-169 | suss_element finds a thing exactly when the document has the element, and it is one that shows that element |
| Answers.MemberSays | src/json/jwrapper.c:594-727 | By the kind of a member's value: a true is 1 and a boolean, a false 0, a null 0 and a null, a number the value of its text, a string its text, an array its length; what is missing is missing, 0, no string, no object and length -1 |
| Answers.ElementSays | src/json/jwrapper.c:733-875 | The same for array elements, with jw_bool_ele true for true and false for false, null and nothing |
| Answers.DecimalSays | src/json/jwrapper.c:515-520 | For a member or an element that is a number without an exponent, jw_value and jw_value_ele answer the digits as one number, divided by ten for each digit after the point, with the sign |
| Answers.ScientificSays | src/json/jwrapper.c:515-520 | With an exponent, e or E, with or without a sign: that times the power of ten, or divided by it for a minus |
| Answers.StandardNumber | src/json/jwrapper.c:308 | All these texts are numbers of the grammar that is read |
| Answers.ThousandRead | src/json/jwrapper.c:571-589 | {"a":1e3} is parsed, and jw_value of a is 1000 |
| Jwrapper.TailNumberRefused | src/json/jwrapper.c:362-371 | {"a":{"b":1}} is an object with unique names within the size limit, yet breaks the tail rule, and jw_new returns NULL for it |
| Jwrapper.TailStringAccepted | src/json/jwrapper.c:348-349 | {"a":{"b":"1"}} is Good, so it is parsed and answers at every depth, the slot past the last token reading as undefined |
| Slots.AnySlot | src/json/jwrapper.c:348-349 | A Good document in which no object ends in a value that is stepped over short is right at every depth whatever the slot past its last token holds |
| Slots.SpoiledSlot | src/json/jwrapper.c:328-349 | For {"a":{"b":"x"}} and a slot that looks like a string token the loop runs once more with the last token as a name, and the table gets a member x, with its text where the slot points, which the document, though Good, does not have |
| Jwrapper.JwNew | src/json/jwrapper.c:571-589 | NULL for NULL; for an object text NULL exactly when its top level breaks a rule, the full representation for a Good document, for any other a table of the members in which only the tables of objects that break the rules are dead; for a document whose root is no object NULL, for one with too many tokens an empty table, for a blank text what the unfilled slot decides; for any other text only that no earlier block is touched |
| Release.NewThenNuke | src/json/jwrapper.c:543-589 | After jw_new and jw_nuke the blocks in use are those from before and just those of the members that a later one of the same name shadows, at any depth; so memory is as it was if and only if no object of the document has a name twice |
| Release.Nuked | src/json/jwrapper.c:183-246 | The same of any memory that jw_new left: what jw_nuke releases of a new document, and exactly what it does not |
| Release.NukeExact | src/json/jwrapper.c:183-246 | All that jw_nuke reads of a new document, tables deep as you like, is live if and only if no path of selections comes to an object that breaks the rules |
| Release.NukeGood | src/json/jwrapper.c:183-246 | With unique names that is so if and only if every object of the document keeps the rules |
| Release.HalfAccepted | src/json/jwrapper.c:358-360 | jw_new accepts {"a":{"b":{"c":1}},"d":2}, whose names are unique, and jw_nuke of it reads something released one table down, since the failure of the nested parse was ignored |
| Release.TwiceNamedLost | src/json/jwrapper.c:125 | For {"a":{"b":"x"},"a":1}, which is Good, four blocks stay: the thing, the table, the text and the thing below of the first member |
| Places.WhereReached | src/json/jwrapper.c:279-536 | The table of every object of a Good document stands where the document alone says, counted from the root: a path of selections reaches just that table |
| Places.WhereMore | src/json/jwrapper.c:716-727 | One selection more finds the table in the place of the longer path, or none when the document has no such object |
| Release.RootLive | src/json/jwrapper.c:279-536 | A represented document takes up every serial number from its table to its last thing |
| Parser.ParseObject | src/json/jwrapper.c:279-536 | The result is non-NULL exactly when the level keeps the rules; a Good object's members are all represented, in blocks given out in document order; of earlier memory only the text being cut and the given table change; it terminates, since nested texts get shorter and tokens get fewer |
| Parser.WalkMembers | src/json/jwrapper.c:328-531 | The main loop over the token array puts every member, succeeds exactly when the level keeps the rules, and writes only inside its text |
| Parser.LoopStep | src/json/jwrapper.c:328-531 | No zero byte written for a member lands in text still to be tokenised or in anything stored before: earlier members stay represented and the text behind the member is as it was |
| Parser.PutArray | src/json/jwrapper.c:375-482 | The array arm fails exactly for an array inside the array, otherwise represents all elements and leaves the index after the array, or at the last token when its last element was stepped over short |
| Parser.ParseElement | src/json/jwrapper.c:393-478 | One element is represented, objects parsed in place in the enclosing text, and the step is the element's tokens, one less for a non-empty object at the end of the level |
| Parser.PutObject | src/json/jwrapper.c:350-373 | A member object is represented by a table of its own over the duplicate of its text, and the step skips its tokens, one less at the end of the level |
| Parser.PutLeaf | src/json/jwrapper.c:484-522 | A string or primitive member is put under its name, reads as its token's text, and nothing still to be tokenised changes |
| Parser.LeafThing | src/json/jwrapper.c:427-466 | What is stored for a leaf element represents it after the zero byte at its end was written |
| Parser.Extract | src/json/jwrapper.c:91-94 | Writes one zero byte, at the token's end, and points to the token's start |
| Parser.SkipNested | src/json/jwrapper.c:362-371 | For every well-nested token array the count is the number of descendants when a token follows the subtree or there are none, and one less when descendants run up to the last token |
| Parser.SubEndIs | src/json/jwrapper.c:406-414 | The subtree that the skip loop delimits by end offsets is just the tokens of the nested value |
| TailByte.TailMembers | src/json/jwrapper.c:328-348 | The second zero byte, written when the loop comes back to the last token of the level, leaves every member represented if that token is a string |
| Nuke.JwNuke | src/json/jwrapper.c:543-549 | Exactly the blocks that the table refers to are released: its things, all below them, its own text if it has one, and itself; those of shadowed members stay |
| Nuke.NothingLost | src/json/jwrapper.c:125 | Nothing is left unreleased if and only if no object has a name twice |
| Nuke.NixThing | src/json/jwrapper.c:183-224 | Exactly the blocks of one member are released, but those shadowed below it |
| Nuke.NixArray | src/json/jwrapper.c:196-208 | Exactly the element tables, what they refer to, and the array are released |
| Reading.ReadDocSound | src/json/jwrapper.c:308 | A text that reads as a document is the text of that document, and the document is well formed |
| Reading.ReadDocComplete | src/json/jwrapper.c:308 | Every well-formed document is read back from its text, whatever whitespace it has |
| Jsmn.TokensNest | src/json/jwrapper.c:364 | The tokens of a document are ordered by start and properly nested, inside its text |
| JhashClass.Jhash.constructor | src/json/jhash.cpp:51-53 | The current table is what jw_new returned, and there is no master |
| JhashClass.Jhash.Move | src/json/jhash.cpp:59-65 | Both pointers move, the source is left without any |
| JhashClass.Jhash.Assign | src/json/jhash.cpp:70-80 | Both pointers move, the source is left without any, and self assignment changes nothing |
| JhashClass.Jhash.Destroy | src/json/jhash.cpp:85-93 | The root, wherever the cursor stands, is released with all it refers to, and nothing else |
| JhashClass.Jhash.SetBlob | src/json/jhash.cpp:112-125 | True and the cursor on the member object exactly when there is one; the root is captured either way |
| JhashClass.Jhash.SetBlobEle | src/json/jhash.cpp:265-278 | True and the cursor on the element object exactly when there is one; the root is captured only then |
| JhashClass.Jhash.UnsetBlob | src/json/jhash.cpp:130-134 | The cursor goes back to the captured root, which stays captured; without one it stays |
| JhashClass.ChooseAnswers | src/json/jhash.cpp:112-125 | A selection succeeds exactly when the document has the object, goes to its table, which is dead if the object breaks the rules, and keeps the root |
| JhashClass.ReadersAnswer | src/json/jhash.cpp:202-259 | What is read at the current table is what the document's object says, with the empty string and 0 for what is not there |
| JhashClass.BoolSays | src/json/jhash.cpp:215-226 | A true reads as true, a false, a null, a string and a missing member as false, the integer n as n = 1 |
| JhashClass.RunTracks | src/json/jhash.cpp:112-134 | Over every run of selections, failed ones and returns, the root stays and the current table is that of the object that the successful selections since the last return lead to, readable exactly if that object keeps the rules; all the run asks of is that no selection is made at an object that breaks them |
| JhashClass.GoodCareful | src/json/jhash.cpp:112-134 | Of a Good document every run is such a run |
| JhashClass.FleetSane | src/json/jhash.cpp:59-93 | Over every run that makes, selects, moves and destroys any number of cursors, jw_nuke gets only tables that jw_new returned, each at most once |
| JhashClass.LostExactly | src/json/jhash.cpp:70-80 | A step loses a table without releasing it if and only if it is a move assignment onto another object that has one |
| JhashClass.LostByMove | src/json/jhash.cpp:70-80 | Two objects made with a table each and one move assignment: the first table is neither handed to jw_nuke nor any object's root |
| Heaps.EveryRun | src/json/jhash.cpp:51-134 | Over every run of any number of cursors on one heap, the root of each live one whose text jw_new got right holds its own document with every path and getter right; its current table is the one that its own selections, carried along by moves, reach from there, and is live and answers as the document's object; and the blocks in use are those from before, those of the documents not released, and those that no document has |
| Heaps.StepConsistent | src/json/jhash.cpp:51-134 | Each construction, selection, move and destruction keeps every other document whole and in blocks of its own, and the books balanced |
| Heaps.StepCursor | src/json/jhash.cpp:51-134 | After each step every cursor stands at the table in the place of its path, whatever happened to the other objects |
| Heaps.NewIsNew | src/json/jwrapper.c:577-584 | The table that jw_new returns is none that it returned before |
| ConfigClass.Config.constructor | src/config/config.cpp:143-159 | The getters see the members of the file's object, or nothing when jw_new returns NULL or an empty table |
| ConfigClass.UnsoundDead | src/config/config.cpp:273-292 | Once an object of the configuration is selected, its table is live if and only if the object keeps the rules; so the getters' condition on the objects they enter is needed |
| ConfigClass.Config.GetPort | src/config/config.cpp:235-267 | If messaging and the objects of ports that the search enters keep the rules: the integer text of the port of the first object in messaging.ports of that name, or the empty string when there is none; the cursor ends at the root |
| ConfigClass.Config.GetControlStr | src/config/config.cpp:273-292 | If the object controls keeps the rules, whatever the rest of the file does: the text of the control of that name, cut at a NUL, or the default when it is missing, empty or no string |
| ConfigClass.Config.GetControlBool | src/config/config.cpp:306-321 | If the object controls keeps the rules, whatever the rest of the file does: whether the number of the control of that name, cut at a NUL, is 1 after truncation, or the default when it is missing |
| ConfigClass.Config.GetControlValue | src/config/config.cpp:336-350 | If the object controls keeps the rules, whatever the rest of the file does: the number of the control of that name, cut at a NUL, 0 for a string or an object, or the default when it is missing |
| ConfigClass.AskAll | src/config/config.cpp:235-350 | Any sequence of getters, each entering only objects that keep the rules, answers each question as the document alone does, wherever the cursor stood |
| ConfigClass.PortFound | src/config/config.cpp:249-258 | The answer for a name is the port of the first element that is an object with that name, an element without a name having the empty one |
| ConfigClass.PortSays | src/config/config.cpp:235-267 | When the first object named so in the array ports of the object messaging has the integer p for its port, GetPort answers the text of p |
| ConfigClass.PortNone | src/config/config.cpp:235-267 | When no object there has the name, the answer is empty |
| ConfigClass.ControlSays | src/config/config.cpp:273-350 | By the kind of the control's value: true is true and 1; false, null, objects, arrays and strings are false and 0; a number is its value; a string that is not empty is the text; otherwise and when missing the default holds for texts, and for all three when missing |
| ConfigClass.ControlNumber | src/config/config.cpp:306-350 | The integer n is true exactly when it is 1, and has the value n |
| ConfigClass.ControlDefault | src/config/config.cpp:273-350 | Without an object controls every control has its default |
| AlarmClass.Alarm.BuildAlarm | src/alarm/alarm.cpp:102-151 | The payload holds the message of the fields as C strings, cut to its size, the length of the whole message is returned, and a missing application id or severity is set |
| AlarmClass.Alarm.SetSeverity | src/alarm/alarm.cpp:284-310 | 1 to 5 become CRITICAL, MAJOR, MINOR, WARNING and CLEARED, anything else DEFAULT |
| AlarmClass.AlarmRendered | src/alarm/alarm.cpp:128-148 | The format string's output is the text of an object with the eight members |
| AlarmClass.AlarmReadBack | src/alarm/alarm.cpp:102-151 | jw_new of a printed alarm succeeds, and the getters return every text, the problem id and the time as they were |
| AlarmClass.PrintAndParse | src/alarm/alarm.cpp:102-151 | An alarm printed into a payload with room and parsed reads back under the eight names: its own fields, the program name for a missing application id, WARNING for a missing severity, CLEAR for action 2, CLEARALL for 3 and RAISE otherwise, and the time |
| Numbers.StrtodInt | src/config/config.cpp:254 | The text of an integer reads back as that integer |
| Numbers.StrtodDecimal | src/json/jwrapper.c:519 | Digits with or without a point read as the digits in one, divided by ten for each one after the point |
| Numbers.StrtodScientific | src/json/jwrapper.c:519 | An exponent multiplies that by its power of ten, or divides by it when it is negative |
| Numbers.TruncMeans | src/config/config.cpp:254 | A conversion to int moves towards zero by less than one |
| Numbers.StrtodFixed | src/metrics/metrics.cpp:252 | A value printed with five decimals reads back as the nearest multiple of 0.00001 |
| Numbers.RoundedClose | src/metrics/metrics.cpp:252 | The multiple is within half a step, has the value's sign, and is the even one of two that are as near |
| Printing.Snprintf | src/metrics/metrics.cpp:252 | The buffer holds the text and a zero byte, cut to the limit, nothing beyond is touched, and the full length is returned |
| MetricsClass.Metrics.PushData | src/metrics/metrics.cpp:244-255 | One item, its key a C string, cut at 1023 characters, is appended after its separator; a list of pushes becomes the list with one more |
| MetricsClass.Metrics.BuildPayload | src/metrics/metrics.cpp:94-119 | Nothing for an empty list, else the payload of the names and the list as C strings, with the reporter standing in for a missing source |
| MetricsClass.Metrics.Send | src/metrics/metrics.cpp:267-280 | A message goes out exactly when something was pushed, the answer is the transport's or true when nothing goes out, and the list is empty afterwards; the length handed over is that of the whole text and its zero byte, which stays inside the buffer if and only if the text is shorter than the buffer, and covers just the text if and only if it is shorter by two |
| MetricsClass.PushAndSend | src/metrics/metrics.cpp:244-280 | After any pushes since the last send, the payload sent is the one of just these pushes in their order, and the bytes handed over are its text and a zero byte; when the names can stand between quotes it is a JSON object with the reporter, the source or else the reporter as generator, the time, and one element for each push with its name and its value rounded to five decimals |
| MetricsClass.PayloadReads | src/metrics/metrics.cpp:94-119 | The payload is a JSON object with reporter, generator and timestamp whose data array lists the pushes in order, each value rounded to five decimals |
| MetricsClass.PayloadRefused | src/metrics/metrics.cpp:105-116 | jw_new returns NULL for every payload of at most 4096 tokens |
| Stats.Reports | examples/rmr_dump.cpp:99-118 | Under every interleaving at most one thread reports, the trigger is non-negative exactly when none does, reports times (frequency + 1) never exceeds the calls, and without calls during reports every (frequency + 1)-th call reports |
| Stats.CountsAre | examples/rmr_dump.cpp:129-159 | Over every schedule the processed count is the number of calls of cb1 and the ignored count that of calls of cbd |
| Stats.ReportsOfOneKind | examples/rmr_dump.cpp:103-118 | No report exceeds these numbers, each shows at least a round of six messages, and when all messages are processed ones it shows no ignored one, or the other way round |
| Stats.FirstReport | examples/rmr_dump.cpp:103-129 | One thread alone that processes every message reports 0 ignored and frequency + 1 processed with its message number frequency + 1, and starts over |
| Stats.RunInv | examples/rmr_dump.cpp:103-166 | Under every interleaving, and in whatever order the two counts of a report are read, each decrement is accounted for, and each report's total shows at least the messages of all rounds up to it, with counts that never go back |
| MessageClass.Message.constructor | src/messaging/message.cpp:55-58 | Wraps the buffer it is given |
| MessageClass.Message.Alloc | src/messaging/message.cpp:60-63 | The new message has a buffer exactly when RMR has one to give, and owns it alone |
| MessageClass.Message.Copy | src/messaging/message.cpp:70-77 | The copy owns a buffer nobody had, like that of the source, exactly when the source has one and RMR can; the source keeps its own |
| MessageClass.Message.Assign | src/messaging/message.cpp:83-97 | The old buffer is released once, the message owns a buffer nobody had, like that of the source, which keeps its own; self assignment changes nothing |
| MessageClass.Message.SetFields | src/messaging/message.cpp:335-344 | Type, subscription and length are set unless they are not to change, and nothing else |
| MessageClass.Message.Move | src/messaging/message.cpp:104-110 | The buffer changes its owner and the source has none |
| MessageClass.Message.MoveAssign | src/messaging/message.cpp:117-131 | The old buffer is released once, the other one changes its owner |
| MessageClass.Message.Destroy | src/messaging/message.cpp:137-143 | The buffer is released once, and the other messages still own all the others |
| MessageClass.Message.Resend | src/messaging/message.cpp:294-318 | The message's buffer is handed to RMR once, what comes back is owned in its place, and the state is RMR's; nothing happens without a buffer |
| MessageClass.Message.Send | src/messaging/message.cpp:331-376 | The buffer is sent once in the way asked for, without a payload with just the fields set that are to change; whatever is grown, exchanged or lost, each live buffer has one owner, and without a payload the message keeps having one |
| MessengerClass.Messenger.AddMsgCb | src/messaging/messenger.cpp:157-164 | The type gets the callback, and for a type other than the default no other type's choice changes |
| MessengerClass.Messenger.Stop | src/messaging/messenger.cpp:297-299 | The flag is lowered |
| MessengerClass.Messenger.Round | src/messaging/messenger.cpp:248-273 | One round for any arrival: a message drives the callback registered for its type, or else the default one, with just itself, and nothing when there is neither; afterwards each buffer has one holder if and only if there was a callback for the message, and without one its buffer is held by the message and by the loop |
| MessengerClass.ExpectedSays | src/messaging/messenger.cpp:248-264 | Arrival by arrival, what a listener is to drive: the callback of the type, or else the default one, or else none |
| MessengerClass.DefaultServes | src/messaging/messenger.cpp:157-264 | A new messenger with a default callback drives it with a message of any type but a health check, and leaves every buffer with one owner |
| MessengerClass.OneUnhandled | src/messaging/messenger.cpp:263-266 | A messenger as its constructor leaves it, with the health check callback only: one message of any other type leaves its buffer with two holders |
| MessengerClass.Messenger.Listen | src/messaging/messenger.cpp:237-274 | While each message has a callback, the one for its type or the default one is driven with just that message, once and in order, and every buffer has one owner; of a last one without a callback the loop ends with a pointer to a released buffer, of a last one of bad state with a buffer nobody releases |
| Listeners.EveryInterleaving | src/xapp/xapp.cpp:74-99 | For every interleaving of n listeners: what each drove, message by message in the order of arrival, is the callback of the type, or else the default one, or else none; and all had ended when Run returned |
| Listeners.AfterHalt | src/xapp/xapp.cpp:95-99 | Counted by the steps, after Halt each listener finishes at most one receive, and only one under way, and picks a callback for at most one message |
| Listeners.HaltReturns | src/xapp/xapp.cpp:74-99 | After Halt every run is of bounded length and can go on until Run has returned |
| Listeners.StepInv | src/messaging/messenger.cpp:253-273 | Every step of every listener keeps what was driven, the bounds after Halt and the joining order |
| Subscription.ActionFromItems | src/model/ActionToBeSetup.cpp:41-64 | The key loop yields the same action whatever order the keys are visited in |
| Subscription.ActionsFromJson | src/model/ActionToBeSetup.cpp:37-67 | The list decoder appends the actions of all elements in order, or fails when one does |
| Subscription.SingleAndList | src/model/ActionToBeSetup.cpp:21-67 | Of one element: the list decoder agrees wherever the single-record decoder accepts; of what it accepts, the latter rejects just the elements whose subsequent action breaks its schema |
| Subscription.ActionListAgrees | src/model/ActionToBeSetup.cpp:21-67 | When the single-record decoder accepts every element, the list decoder yields the same records in the same order |
| Subscription.ActionsToJson | src/model/ActionToBeSetup.cpp:85-103 | The encodings are pushed in order; null stays null for an empty list |
| Subscription.ActionBack | src/model/ActionToBeSetup.cpp:37-83 | An action in range comes back from the list decoder if and only if its subsequent action is fully set or fully unset |
| Subscription.ActionBackSingle | src/model/ActionToBeSetup.cpp:21-83 | It comes back from the single-record decoder if and only if its subsequent action is unset or satisfies its schema |
| Subscription.DetailFromItems | src/model/SubscriptionDetail.cpp:36-58 | The key loop yields what the single-record decoder yields, whatever order the keys are visited in |
| Subscription.DetailsFromJson | src/model/SubscriptionDetail.cpp:31-60 | The list decoder appends the details of all elements in order, or fails when one does |
| Subscription.DetailBack | src/model/SubscriptionDetail.cpp:31-88 | A detail in range comes back if and only if it has actions whose subsequent actions are whole |
| Subscription.ParamsFromJson | src/model/SubscriptionParams.cpp:21-40 | The decoder yields the encoded fields, keeps what is absent, and fails when the schema or a part does |
| Subscription.ParamsToJson | src/model/SubscriptionParams.cpp:42-62 | The members are encoded, the directives only when set, the details one by one in order |
| Subscription.RequestBack | src/model/SubscriptionParams.cpp:21-62 | A request in range comes back into a blank one if and only if it has details, each with actions whose subsequent actions are whole, and its directives are set or those of the blank request |
| Wire.EndpointWire | src/model/SubscriptionParams_ClientEndpoint.cpp:21-36 | Just the objects with HTTPPort and RMRPort in 0 to 65535 and a string Host decode, each field from its own name, and are written under these names |
| Wire.DirectivesWire | src/model/SubscriptionParams_E2SubscriptionDirectives.cpp:21-37 | The same for E2RetryCount, E2TimeoutTimerValue, both 0 to 10, and RMRRoutingNeeded |
| Wire.NextWire | src/model/SubsequentAction.cpp:21-36 | The same for SubsequentActionType and TimeToWait with the values that the schema names; the list decoder takes any two strings |
| Wire.ActionWire | src/model/ActionToBeSetup.cpp:21-67 | Just which objects either decoder accepts, and as what: ActionID in 0 to 255, one of three ActionTypes, ActionDefinition or none, SubsequentAction or none |
| Wire.ActionWritten | src/model/ActionToBeSetup.cpp:69-83 | The names written: a definition only when there is one, a subsequent action only when both its fields are set |
| Wire.DetailWire | src/model/SubscriptionDetail.cpp:21-88 | The same for XappEventInstanceId, EventTriggers and ActionToBeSetupList |
| Wire.ParamsWire | src/model/SubscriptionParams.cpp:21-40 | Just which requests decode, and as what; an absent SubscriptionId and absent directives keep what was there |
| Wire.ParamsWritten | src/model/SubscriptionParams.cpp:42-62 | The names written: directives only when both numbers are set, details only when there are any, in order |
| Wire.InstanceWire | src/model/SubscriptionInstance.cpp:21-79 | The same for an instance; the single-record decoder wants all three error fields, the list decoder takes absent ones as empty |
| Instances.InstanceFromItems | src/model/SubscriptionInstance.cpp:35-62 | The key loop yields the same instance whatever order the keys are visited in, with empty texts for absent error fields |
| Instances.InstanceSingleAndList | src/model/SubscriptionInstance.cpp:21-66 | Of one element: the list decoder agrees wherever the single-record decoder accepts, and accepts in addition just the elements that leave out an error field |
| Instances.InstancesFromJson | src/model/SubscriptionInstance.cpp:32-68 | The list decoder appends the instances of all elements in order, whatever the key orders, or fails when one does |
| Instances.InstanceListAgrees | src/model/SubscriptionInstance.cpp:21-68 | When the single-record decoder accepts every element, the list decoder yields the same records in the same order |
| Instances.InstancesToJson | src/model/SubscriptionInstance.cpp:80-95 | The encodings are pushed in order; null stays null for an empty list |
| Instances.InstancesBack | src/model/SubscriptionInstance.cpp:32-95 | A list comes back in its order if and only if each of its instances does |
| Instances.InstanceBack | src/model/SubscriptionInstance.cpp:21-79 | An instance comes back if and only if its ids are in range and its error source and timeout type are named ones, so one without an error does not |
| Routes.Server.constructor | src/rest-server/pistacheserver.cpp:22-32 | The sizes kept are the numbers of flagged indices |
| Routes.Server.CalSize | src/rest-server/pistacheserver.cpp:33-53 | The size is the number of flagged 1-based indices |
| Routes.Server.SetupRoutes | src/rest-server/pistacheserver.cpp:126-195 | The asserts pass exactly when the index has what its flags need, and then its static and its dynamic route are registered with their callbacks |
| Routes.Server.EntriesSay | src/rest-server/pistacheserver.cpp:84-195 | get, post and del register with the verb of that name; a static route under the base and its path with the static callback, a dynamic one with /:Id behind its path and the dynamic callback |
| Routes.Server.OtherMethod | src/rest-server/pistacheserver.cpp:98-102 | For a method of any other name nothing is asserted and nothing registered |
| Routes.TwoRoutes | src/rest-server/pistacheserver.cpp:22-106 | A server with a static route for post and a dynamic one for del passes all asserts and registers just these two under /ric/v1 |
| Routes.Server.Init | src/rest-server/pistacheserver.cpp:76-106 | All asserts pass if and only if the sizes are right and each index with a known method has what its flags need, and then everything is registered in order; when all methods are known, that is if and only if the keys of all four maps are just the flagged indices and every index is flagged |
| Routes.Server.ExactExactly | src/rest-server/pistacheserver.cpp:80-103 | Equal counts and membership make the keys of the maps just the flagged indices |
| Routes.Server.EntriesAt | src/rest-server/pistacheserver.cpp:126-195 | The registrations of each index stand together at their place |
| Routes.Server.EntriesCount | src/rest-server/pistacheserver.cpp:83-103 | There is one registration for each flag of a known method and no other |

## Left out

- jsmn itself: it is not in the repository. It stands for the reader of RFC 8259 documents that fills in the pre-order tokens, and none for a blank text.
- Parser.ParseObject: nothing is said of the result for texts beyond RFC 8259 that jsmn takes too, such as `{ "bad":  fred }` in test/jhash_test.cpp:271, because their tokens are not known here. The same holds of Jwrapper.JwNew and ConfigClass.Config.constructor.
- The RMR symbol table: not in the repository. It is a map keyed by class and name; putting a name again replaces what it refers to, and freeing the table frees no value.
- Allocation failure: every malloc, strdup and table allocation succeeds, and malloc of no bytes gives a pointer.
- The name-prefix branch of parse_jobject (`src/json/jwrapper.c:341-344`): every call passes an empty prefix.
- Jwrapper.JwNew: the slots of the token array that jsmn did not fill hold one arbitrary token; the source leaves them uninitialised. For documents that make the loop read past the last token the slot must be undefined, since any other may spoil the table (Slots.SpoiledSlot), and there must be fewer than 4096 tokens: with just 4096 the slot read lies behind the array (`src/json/jwrapper.c:55`, `349`), and nothing is said.
- The token array of each parse, debug output and jw_dump: allocated and freed within one call, or output only.
- The heap is one object whose maps are replaced, not a set of C buffers: a text buffer is a sequence in it, so writing a byte replaces the sequence. Aliasing of text by offset is modelled, raw pointer arithmetic is not.
- Memory after a NULL result of jw_new is only said to leave all earlier blocks alone; which of the new ones stay behind differs from arm to arm.
- Release.NewThenNuke: is about Good documents. Of the others that jw_new accepts NukeExact says which are safe to release, but what stays behind of a safe one, whose offending objects all are in shadowed members, is left out.
- Heaps.EveryRun: the destruction of an object on a text that jw_new did not get right is not a step, since it may read released blocks (Release.NukeGood); such objects may be made, moved and selected from, their blocks count among those that no document has, and nothing is said of what they answer.
- Doubles: numbers are `real`, so rounding, overflow and the range of the conversion to int are not modelled; infinities and NaN do not occur.
- Jwrapper.JwBoolEle: is not asked about string and object elements, because the source then reads a pointer as a double.
- ConfigClass.Config.constructor: reading the file and the environment is left out, the contents are a parameter.
- The configuration listener and reloads during reads: the locks are only announced in comments (`src/config/config.cpp:122-124`).
- AlarmClass.Alarm.BuildAlarm: time and program name are parameters, and the setters, copies, raise and clear are left out as too easy or without a result.
- MetricsClass.Metrics.Send: the transport is left out; its answer is a parameter, and what it does with a length beyond the buffer is not modelled.
- MessageClass.Message.Send: what a grown buffer holds is left open, as are payload bytes throughout; rmr_realloc_payload is taken to release the old buffer when it fails, which decides who owns it, and RMR to give a buffer back from every send.
- MessengerClass.Messenger.Listen: rounds after a message without a callback are excluded, because the loop then hands RMR a buffer that a message still owns; Round says exactly when that is so, and Listen what it leaves when such a message is the last.
- Listeners: the buffers of several listeners are not modelled together, each listener is covered by Listen.
- Movement of a Messenger, wormholes, Receive and Wait_for_cts: foreign calls with no logic of their own.
- Stats: wrap-around of the atomic counters; dump prints only.
- Subscription.Json: has whole numbers only; a floating-point number in a document is not modelled.
- Subscription: the schema checker is a predicate for each record taken from its header; C++ exceptions are the missing result. So is, in the list decoder, a subsequent action without one of its members: the source indexes a constant value by a key that is not there (`src/model/ActionToBeSetup.cpp:58-59`), which does not throw but is undefined. SubscriptionResponse, SubscriptionData, ConfigMetadata and XAppConfig would only add members of the same kind, or disagree with their own schemas.
- Routes: Pistache's router is the list of registrations; the three set-up functions differ only in the verb and are one method.
