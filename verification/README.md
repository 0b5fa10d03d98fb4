# Verification model of Jornada Link

This project models the parts of Jornada Link in which a mistake would lose or corrupt a user's data, and proves what
they promise. `dafny verify dfyconfig.toml` checks everything.

**Sync engine** (`sync_*.dfy`). Two stores, a list of links and a plan are modelled as they are in the engine; an
action may be answered in any way, and a store may rewrite what it is given. The proofs go through a table with one row
for each link, pair or single new record: one action on the two stores is one step of one row (`SyncTable.StepRefines`),
so convergence, crash resume, retry after refusals and justified writes are each argued row by row. Two facts the code
fixes: a delete beats an edit, and the update of a first-time pair towards the remote side, when it alone is refused,
loses the preference for the local copy. The second makes "a retry ends as if nothing had failed" false in general;
`SyncResume.RetryReconcilesExactly` gives the exact condition and `SyncResume.LostPreferenceStaysLost` the failing
family. Crash resume is proved for distinct match keys; `SyncLimits.RepeatedKeysMisPair` shows what repeated keys do.
`sync_engine.dfy` holds the loops, proved against the specification functions, and a class that states what is assumed of
a store.

**Content lines and iCalendar** (`text.dfy`, `textprops.dfy`, `folding.dfy`, `escaping.dfy`, `contentline.dfy`,
`lineroundtrip.dfy`, `ical*.dfy`, `structured.dfy`; RFC 5545 sections 3.1 to 3.3.11, RFC 6350 sections 3.3 and 3.4). The
stack parser inverts the recursive printer through folding, escaping and quoting. The docstring of `serialize` says its
lines are folded at 75 octets; the code does not fold BEGIN and END lines, and the model follows the code: the promise
holds exactly for component names of at most 69 octets (`IcalExact.SerializeBounds`, `IcalExact.LongNameOverflows`).

**PPP record files** (`ppprecord.dfy`, `pppwire.dfy`, `pppdemux.dfy`; RFC 1662, RFC 1661). Any cutting and interleaving
of two escaped streams, with a control map of its own for every packet and any number of sessions one after the other, is
demultiplexed into exactly the packets sent: an end record acts as one more flag (`PppDemux.EndIsFlag`).
A frame whose content is a single octet is dropped by the code, so it is not expected (`PppWire.Reported`).

**CE database records** (`bytes.dfy`, `cedb*.dfy`). Layout, round trip with its exact condition, and the agreement of
the fused Python packer with the two-pass Swift packer and of the two readers, which differ on negative counts only. The
packer checks i2 and ui2 values against 32 bits only, so larger ones do not come back; `CedbRoundTrip.RoundTripsExactly`
says precisely what does.

**Pocket Outlook codecs** (`notesblob.dfy`, `pocketrecord.dfy`, `pocketfields.dfy`, `tasks.dfy`, `appointments.dfy`,
`contacts.dfy`, `contactphones.dfy`, `contactforms.dfy`). Encoding over an existing record deletes what is stale, so that
the device's replace-or-delete write leaves the new model's device form. What of the old record still shows is stated
exactly: a task's completion that the device keeps as a flag instead of a FILETIME (`Tasks.MergeWriteExactly`), the sound
and options of a reminder that was cleared (`Appointments.ReminderExtras`), a recurrence pattern
(`Appointments.MergeWriteAny`), and the name of a blank contact, which is made up only when the old record had none of
the codec's properties (`Contacts.NameIndependent`). `KeptExactly` of each codec says which models a device holds as they
are; a note, for one, may lose a trailing 0x03 to the padding rule.

**Recursive delete, send mirror, connection handshake** (`devicetree.dfy`, `removetree.dfy`, `sendmirror.dfy`,
`dccm.dfy`). What a partly refused recursive delete leaves and counts; that the archive of sent files never loses a
payload, holds each target's latest one and has it restored unless a name on its path is one that restore leaves out; the
one place this is false for is the manifest's own, to which a send may go as well (`SendMirror.HoldsTheLastExactly`); what
every run of the handshake keeps.

Lemmas state the properties; functions and predicates without a row below are the definitions they are about.

## Model

| member | source | states |
|---|---|---|
| SyncState.WithLink | jornada/sync/state.py:34-36 | Adding a link keeps the relation one-to-one: the new link is in it, every link that shared an id with it is gone, all others stay |
| SyncState.Without | jornada/sync/state.py:38-42 | Dropping by id removes exactly the links that mention one of the given ids and keeps the relation one-to-one |
| SyncPairing.FifoMatching | jornada/sync/engine.py:177-205 | For every match key the i-th new local item is paired with the i-th new remote one, and the leftovers of the longer side come after, in order |
| SyncPairing.PairingConserves | jornada/sync/engine.py:177-198 | Every new item of either side appears in exactly one pair or single, as often as it was listed |
| SyncPairing.PairingIsMaximum | jornada/sync/engine.py:177-198 | No unpaired local item shares its key with an unpaired remote item |
| SyncPairing.PairsShareKey | jornada/sync/engine.py:201-205 | Paired items have the same match key |
| SyncApply.StepKeepsValid | jornada/sync/engine.py:226-264 | One action, whatever the store answers, keeps the links one-to-one and among ids the stores have handed out |
| SyncApply.ApplyAccountsForAll | jornada/sync/engine.py:209-223 | Each action that raises is reported, in order, and each other one is counted under its kind and not reported |
| SyncTable.StepRefines | jornada/sync/engine.py:226-264 | One action on two stores and a link list is one step of the single row it belongs to; no other row is affected |
| SyncRows.InitialTable | jornada/sync/engine.py:113-127 | The rows a plan starts from cover both listings and all links, each item and link in one row only |
| SyncRun.RunTable | jornada/sync/engine.py:209-264 | Running any prefix of a plan against arbitrary answers is running each row's own actions, and every error names an action that failed |
| SyncConvergence.SettledTable | jornada/sync/engine.py:267-281 | Refreshing the hashes after a run leaves rows whose links know the contents the stores hold |
| SyncConvergence.ConvergesAtOnce | jornada/sync/engine.py:113-281 | After one error-free both-way run with deletes, over stores that rewrite records as they like, links are a bijection between the two sets of ids and the next plan, under any options, is empty |
| SyncConvergence.LiveAfterOne | jornada/sync/engine.py:113-281 | After one error-free run under any options no link has lost both of its ends |
| SyncConvergence.QuietAfterTwo | jornada/sync/engine.py:113-281 | After two error-free runs under the same options, whichever they are, the next plan only skips |
| SyncRecovery.RowAttains | jornada/sync/engine.py:130-205 | A row's actions, when none fails, bring it to the ending a both-way run with deletes wants for it |
| SyncRecovery.CrashKeepsWanted | jornada/sync/engine.py:209-264 | Any part of a row's actions, with the link state it had before, leaves the ending wanted for the row unchanged |
| SyncRecovery.RetryKeepsWanted | jornada/sync/engine.py:209-264 | Any refusals among a row's actions leave the ending wanted for it unchanged, unless the preference was lost |
| SyncRecovery.UndisturbedReconciles | jornada/sync/engine.py:113-281 | An error-free run reaches the wanted ending of every row, and nothing else is linked |
| SyncRecovery.MidwayReconciles | jornada/sync/engine.py:113-281 | From any world half-way to the wanted endings one error-free run reaches them |
| SyncRecovery.ReconciledIsUnique | jornada/sync/engine.py:113-281 | Two worlds that reach the wanted endings have the same contents and pairing, but for the names of ids made up on the way, and neither holds a record without a partner |
| SyncResume.RefusalsStayLocal | jornada/sync/engine.py:209-223 | A row none of whose actions was refused has its wanted ending after the first run already |
| SyncResume.RetryReconciles | jornada/sync/engine.py:209-264 | After a run with an arbitrary set of refused calls one error-free run reaches every wanted ending, provided no preference was lost |
| SyncResume.RetryReconcilesExactly | jornada/sync/engine.py:201-205 | The retry reaches the wanted endings if and only if no update of a first-time pair towards the remote side was refused |
| SyncResume.LostPreferenceStaysLost | jornada/sync/engine.py:257-259 | When that update alone is refused, the saved link makes the next run pull the remote copy over the preferred local one |
| SyncResume.ResumeReconciles | jornada/sync_cli.py:159-175 | Stopping after any prefix of the actions with the old state still saved, then planning and applying again, reaches every wanted ending, for new items with distinct keys on each side |
| SyncResume.CrashIsHarmless | jornada/sync_cli.py:159-175 | The interrupted and resumed run ends with the same contents and pairing as the uninterrupted one, no duplicate or record without a partner left behind |
| SyncResume.RefusalsAreHarmless | jornada/sync/engine.py:209-223 | When the remote side is preferred, refusals followed by an error-free run end as a run without refusals would have, no record without a partner left behind |
| SyncLimits.PreferenceCanBeLost | jornada/sync/engine.py:201-205 | For any two new records of one key and different contents the refused push does lose the preference |
| SyncLimits.RepeatedKeysMisPair | jornada/sync/engine.py:177-198 | With two new local records of one key, of which only the second was copied before the state was lost, the resumed run overwrites the first with the second |
| SyncLimits.BothCopied | jornada/sync/engine.py:177-198 | The undisturbed run of the same two records copies both and changes neither |
| SyncJustified.PlanAllowed | jornada/sync/engine.py:130-205 | A plan never holds a conflict action, writes a side only when the direction allows it and deletes only when deletes are propagated |
| SyncJustified.SourceUntouched | jornada/sync/engine.py:34-46 | At every point of a one-way run the source store is exactly as it was, and without delete propagation no store loses an id |
| SyncJustified.LoneEditSurvives | jornada/sync/engine.py:130-151 | A record changed on one side only is never overwritten on that side |
| SyncJustified.DeletesHaveCause | jornada/sync/engine.py:130-151 | A record disappears only when deletes are propagated to its side and its linked partner was missing from the listing |
| SyncEngine.Store.List | jornada/sync/base.py:12-40 | Assumed of a store, which is not the engine's code: it lists every record it holds once and changes nothing |
| SyncEngine.Store.Create | jornada/sync/base.py:12-40 | Assumed of a store, which is not the engine's code: it stores a created record as it rewrites it under an id never used before, and changes nothing when it refuses |
| SyncEngine.Store.Update | jornada/sync/base.py:12-40 | Assumed of a store, which is not the engine's code: it replaces the record of a known id only, and changes nothing when it refuses |
| SyncEngine.Store.Delete | jornada/sync/base.py:12-40 | Assumed of a store, which is not the engine's code: it removes a known id only, and changes nothing when it refuses |
| SyncEngine.PairNewItems | jornada/sync/engine.py:177-198 | The loop over dictionaries of queues gives exactly the actions of the first-come-first-served matching |
| SyncEngine.PlanLinks | jornada/sync/engine.py:117-124 | The loop over the saved links collects their actions and the two sets of linked ids |
| SyncEngine.MakePlan | jornada/sync/engine.py:113-127 | The planner as it executes gives the specified plan |
| SyncEngine.ApplyOne | jornada/sync/engine.py:226-264 | One executed action changes the two stores, the links and the result as one specified step; an action that raises changes nothing |
| SyncEngine.ApplyPlan | jornada/sync/engine.py:209-223 | The apply loop, going on after failures, is the specified run of the whole plan |
| SyncEngine.RefreshHashes | jornada/sync/engine.py:267-281 | Only hashes of touched ids that are still listed are replaced, by the fingerprints now listed |
| SyncEngine.RunSync | jornada/sync_cli.py:159-175 | A whole run on two store objects is the specified run; after an error-free both-way run with deletes the links pair up both stores |
| TextProps.Unfold | jornada/webapi/_textprops.py:80-94 | The line loop computes the specified unfolding |
| TextProps.Fold | jornada/webapi/_textprops.py:97-115 | The character loop cuts a line into the specified chunks, joined by a break and a space |
| TextProps.Unescape | jornada/webapi/_textprops.py:132-148 | The index loop computes the specified unescaping |
| TextProps.SplitUnescaped | jornada/webapi/_textprops.py:151-173 | The accumulator loop computes the specified split at unescaped separators |
| Folding.ChunksConcat | jornada/webapi/_textprops.py:97-115 | Folding loses, adds and reorders no character |
| Folding.ChunksFit | jornada/webapi/_textprops.py:97-115 | Every chunk fits its budget of UTF-8 octets, so no character is split |
| Folding.FoldBounds | jornada/webapi/_textprops.py:97-115 | Every physical line is at most the limit's octets of UTF-8, its leading space included |
| Folding.UnfoldInvertsFold | jornada/webapi/_textprops.py:80-115 | Any list of folded lines joined by CRLF, each with its own limit, unfolds to exactly those lines, when none starts with a blank or a byte-order mark |
| Folding.UnfoldOne | jornada/webapi/_textprops.py:80-115 | Folding one such line and unfolding it gives that one line |
| Escaping.EscapeIsOnePass | jornada/webapi/_textprops.py:120-129 | The chain of replacements escapes each character once, independently of the others |
| Escaping.UnescapeInvertsEscape | jornada/webapi/_textprops.py:120-148 | Unescaping escaped text gives the text back with its line breaks unified |
| Escaping.LinesChanges | jornada/webapi/_textprops.py:120-129 | Unifying line breaks changes a text if and only if it has a carriage return |
| Escaping.EscapedHasNoBreaks | jornada/webapi/_textprops.py:120-129 | Escaped text has no line breaks |
| Escaping.SplitLosesNothing | jornada/webapi/_textprops.py:151-173 | Joining the parts of any value with the separator gives the value back |
| Escaping.SplitInvertsJoin | jornada/webapi/_textprops.py:120-173 | Escaped parts joined by a separator split into exactly those parts |
| ContentLines.FindOutsideQuotes | jornada/webapi/_textprops.py:294-301 | The scan finds the first wanted character outside double quotes, or none |
| ContentLines.SplitOutsideQuotes | jornada/webapi/_textprops.py:304-315 | The scan splits at separators outside double quotes |
| LineRoundTrip.ValueReadsBack | jornada/webapi/_textprops.py:270-291 | A parameter value reads back as its normal form: without quotes and breaks, its unquoted parts stripped |
| LineRoundTrip.ParamReadsBack | jornada/webapi/_textprops.py:259-285 | A written parameter parses to its key and normal value |
| LineRoundTrip.LineReadsBack | jornada/webapi/_textprops.py:222-256 | A written content line parses to its group, name, normal parameters and value, whatever colons, semicolons and quotes the value has |
| Ical.PopFrame | jornada/webapi/ical.py:180-195 | An END line builds the innermost open component and adds it to the one around it, or reports an unmatched or wrong END |
| Ical.Parse | jornada/webapi/ical.py:162-211 | The stack loop computes the specified parse, with the same errors |
| IcalRoundTrip.ComponentReads | jornada/webapi/ical.py:162-226 | Reading a printed component, in any parser state, adds exactly its normal form to the innermost open component |
| IcalRoundTrip.UnfoldsToLines | jornada/webapi/ical.py:214-226 | A printed tree unfolds to its logical lines |
| IcalRoundTrip.ParseSerialize | jornada/webapi/ical.py:162-226 | Every printable component tree parses back to its normal form: the stack parser inverts the recursive printer through folding, escaping and quoting |
| IcalExact.NormalValueExact | jornada/webapi/_textprops.py:270-291 | A parameter value is in normal form if and only if it has no quotes and breaks, and no blanks at the edges of unquoted parts |
| IcalExact.RoundTripsExactly | jornada/webapi/ical.py:162-226 | A printable tree parses back to itself if and only if its parameter values are in normal form and its text values have no carriage return |
| IcalExact.SerializeBounds | jornada/webapi/ical.py:214-226 | Every physical line of a printed tree has at most 75 octets if and only if the BEGIN lines of its components do |
| IcalExact.LongNameOverflows | jornada/webapi/ical.py:214-226 | A printable component with a name of 70 octets prints a line of more than 75 |
| Structured.StructuredRoundTrip | jornada/webapi/vcard.py:207-214 | Structured parts split back to themselves with unified line breaks |
| Structured.ListRoundTrip | jornada/webapi/vcard.py:217-225 | List items come back stripped, blank ones dropped, with unified line breaks |
| PppRecord.FcsOctet | jornada/ppprecord.py:53-55 | The inner loop of eight conditional shifts computes one step of the frame check |
| PppRecord.Fcs16 | jornada/ppprecord.py:50-56 | The loop computes the frame check of the whole string |
| PppRecord.Unescape | jornada/ppprecord.py:74-85 | The loop computes the specified unescaping |
| PppRecord.Absorb | jornada/ppprecord.py:119-133 | Taking a data record's octets one by one closes a body at every flag and keeps the rest pending |
| PppRecord.Advance | jornada/ppprecord.py:122-152 | One round of the record loop reads one record, or stops at an unknown or cut-off one |
| PppRecord.Collect | jornada/ppprecord.py:107-152 | The record loop gathers the specified bodies with their directions and times |
| PppRecord.ParseRecordFile | jornada/ppprecord.py:107-156 | The frames given are those of the specified demultiplexing, in order |
| PppWire.Residue | jornada/ppprecord.py:50-56 | For every octet string, the frame check over it and its complemented check, low octet first, is 0xF0B8 (Appendix C.2 of RFC 1662) |
| PppWire.EscapedUnescapes | jornada/ppprecord.py:74-85 | Escaped octets (section 4.2 of RFC 1662) hold no flag and unescape to themselves, for every map of escaped control characters |
| PppWire.ContentStrips | jornada/ppprecord.py:88-104 | The address and control octets are recognised and dropped exactly when they were sent |
| PppWire.BodyParses | jornada/ppprecord.py:88-104 | A packet's escaped body parses to the packet, with protocol, payload and a good check, compressed or not; a content below two octets is not reported |
| PppDemux.StreamFits | jornada/ppprecord.py:107-133 | An encoded stream, each packet escaped under its own control map, closes exactly its packets, at exactly the marked flags |
| PppDemux.FeedFits | jornada/ppprecord.py:119-133 | Feeding any part of a stream, cut anywhere, reports that part's packets and leaves the other direction alone |
| PppDemux.RecordReads | jornada/ppprecord.py:119-152 | Every encoded record is read as itself, whatever follows it |
| PppDemux.EndIsFlag | jornada/ppprecord.py:137-142 | An end record closes what is pending as a flag does, and reading goes on after it |
| PppDemux.DemuxReports | jornada/ppprecord.py:107-156 | From any state that fits, reading the rest of a record file reports exactly the rest of the packets |
| PppDemux.RecordFileReports | jornada/ppprecord.py:107-156 | Two streams, each packet escaped under the control map in force for it, cut into data records anywhere and interleaved with each other, with time records and with end records wherever a flag could be, give exactly the expected frames, in closing order, at the recorded times |
| PppDemux.DirectionsPreserved | jornada/ppprecord.py:107-156 | Per direction the frames are the packets sent, in order, each with a good check |
| Cedb.PackRecord | jornada/cedb.py:196-212 | The fused loop computes the specified record, or the first property's error |
| Cedb.ReadWstrAt | jornada/cedb.py:222-229 | The scan gives the code units up to a NUL or the end, or reports an offset outside the record |
| Cedb.UnpackRecord | jornada/cedb.py:255-268 | The loop reads the specified properties, none for a negative count, or gives the first entry's error |
| CedbLayout.Layout | jornada/cedb.py:196-212 | Each payload of a record lies after the entries, inside the record, on a multiple of four and clear of every other, and holds its property's octets |
| CedbLayout.RecordLength | jornada/cedb.py:196-212 | Every packed record, the empty one included, is sixteen octets a property and the aligned payload sizes long |
| CedbLayout.PayloadPlaced | jornada/cedb.py:201-211 | Each payload lies at the running offset in front of it |
| CedbLayout.RecordEntry | jornada/cedb.py:201-204 | The i-th sixteen octets are property i's entry, and its pointer is its payload's place |
| CedbRoundTrip.TextReads | jornada/cedb.py:222-229 | A stored string reads back up to its first NUL |
| CedbRoundTrip.RecordReads | jornada/cedb.py:196-268 | Any record that packs to less than 4 GiB unpacks to its properties as stored: 16-bit identifiers, flags and i2/ui2 values, strings up to a NUL, no value under the not-found flag |
| CedbRoundTrip.RoundTripsExactly | jornada/cedb.py:196-268 | Unpacking a packed list gives the list back if and only if every property fits: 16-bit fields, no NUL in a string, no not-found flag |
| CedbRoundTrip.WideValueIsCut | jornada/cedb.py:168-182 | The packer accepts the i2 value 70000, and it unpacks as 4464 |
| CedbSwift.PayloadOffsets | macapp/Sources/JornadaCore/Cedb.swift:260-266 | The map with its mutable next computes the specified offsets |
| CedbSwift.PayloadSection | macapp/Sources/JornadaCore/Cedb.swift:269-274 | The reduction in place computes the specified section |
| CedbSwift.Pack | macapp/Sources/JornadaCore/Cedb.swift:241-248 | The separate passes compute the specified record, or the first property's error |
| CedbSwift.Accepts | macapp/Sources/JornadaCore/Cedb.swift:287-310 | The Swift packer accepts a list if and only if each value has its property's type and no type is unknown |
| CedbSwift.SectionsAgree | macapp/Sources/JornadaCore/Cedb.swift:269-274 | Padding the section as it grows places payloads where running offsets do |
| CedbSwift.SameOctets | macapp/Sources/JornadaCore/Cedb.swift:241-310 | Whatever the Swift packer accepts, the Python packer packs to the same octets |
| CedbSwift.SwiftFollowsPython | jornada/cedb.py:168-212 | Whatever the Python packer accepts in 16-bit identifiers and flags, the Swift packer packs to the same octets |
| CedbSwiftReader.ReadString | macapp/Sources/JornadaCore/Cedb.swift:363-376 | The Swift scan reads the same code units as the Python one, with the same error |
| CedbSwiftReader.ReadersAgree | macapp/Sources/JornadaCore/Cedb.swift:322-360 | On any octets the Swift reader gives the same properties or the same error as the Python one if and only if the count is not negative |
| CedbSwiftReader.NegativeCountDiffers | macapp/Sources/JornadaCore/Cedb.swift:322-328 | At a count of -1 Python reads no property and Swift reports a truncated record |
| PocketRecord.PutString | jornada/pim/common.py:35-41 | A cleaned string is written, a blank one deletes a property that was there, and otherwise nothing is added |
| PocketRecord.WriteLeaves | macapp/Sources/JornadaCore/RapiClient+Database.swift:211-212 | After a write over any record the properties named by the codec are exactly its values and the old ones stored under another type, which a write does not reach; every other property is untouched |
| PocketRecord.SlotReads | jornada/cedb.py:133-141 | Reading a written field gives its value, or nothing when it was cleared, in whatever order the device lists properties, over any record that has that field in the codec's type |
| PocketRecord.OthersStay | macapp/Sources/JornadaCore/RapiClient+Database.swift:211-212 | A property the codec does not name is there after the write exactly when it was before |
| PocketFields.PutNotes | jornada/pim/common.py:44-48 | Notes that are not blank are written as a blob, blank ones delete |
| PocketFields.PutDate | jornada/pim/tasks.py:45-49 | A day is written as ticks, no day deletes |
| PocketFields.CategoriesRead | jornada/pim/common.py:11-18 | Categories read back as their pieces between commas |
| PocketFields.CategoriesExactly | jornada/pim/common.py:11-18 | Categories come back as they were if and only if none has a comma |
| PocketFields.DateReads | jornada/pim/tasks.py:18-20 | A day reads back as itself after 1 January 1601, and as no day on or before it |
| NotesBlob.NotesReadBack | jornada/pim/notes_blob.py:16-35 | A note reads back as the text the device keeps: unified line ends, characters through the code page, no trailing NULs, at most one trailing 0x03 lost to the padding rule, and nothing for ink |
| NotesBlob.KeptExactly | jornada/pim/notes_blob.py:16-35 | A note is kept as it is if and only if it has no carriage return, no ink mark, no trailing NUL or pad-like end, and only characters of the code page |
| NotesBlob.PadLikeNoteIsCut | jornada/pim/notes_blob.py:16-35 | A note of one character and 0x03 reads back without the 0x03 |
| Tasks.Encode | jornada/pim/tasks.py:52-66 | Encoding appends a value, a deletion or nothing for each field |
| Tasks.MergeWrite | jornada/pim/tasks.py:32-66 | Writing a task over a record, unless that keeps a completion of another type that says something else, and decoding gives the task's device form, which does not depend on the record |
| Tasks.MergeWriteAny | jornada/pim/tasks.py:32-66 | Whatever type the old record keeps its completion in, every other field decodes to the device form, and so does the completion unless a stale flag is read |
| Tasks.MergeWriteExactly | jornada/pim/tasks.py:32-66 | Every listing of the written record decodes to the device form if and only if the old record has no completion of another type that says something else than the new task |
| Tasks.FlagStaysSet | jornada/pim/tasks.py:32-66 | A task not completed, written over a record with the i2 completion flag set, decodes as completed on 1 January 1970 |
| Tasks.KeptExactly | jornada/pim/tasks.py:32-66 | A task's device form is the normalised task if and only if a device can hold it |
| Appointments.ReminderProps | jornada/pim/appointments.py:96-107 | A cleared reminder is disabled and its minutes deleted; a set one writes all four properties |
| Appointments.ReminderExtras | jornada/pim/appointments.py:96-107 | Sound and options are there after the write if and only if the appointment has a reminder or the old record had them, and clearing the reminder leaves the old ones as they were |
| Appointments.SoundOutlivesReminder | jornada/pim/appointments.py:96-107 | With the reminder cleared, an old alarm sound is still read |
| Appointments.Encode | jornada/pim/appointments.py:68-93 | Encoding appends a value, a deletion or nothing for each field |
| Appointments.DaysRead | jornada/pim/appointments.py:26-38 | The stored duration of an all-day event gives its number of days back |
| Appointments.RoundsToNearest | jornada/pim/appointments.py:77 | A timed event's length is rounded by at most half a minute, and not at all when it is whole minutes |
| Appointments.MergeWriteAny | jornada/pim/appointments.py:41-107 | Written over any matching record an appointment reads back as its device form, but stays recurring if the record had a recurrence pattern |
| Appointments.MergeWrite | jornada/pim/appointments.py:41-112 | Over a record that is not read-only the result is the device form, whatever the record held |
| Appointments.KeptExactly | jornada/pim/appointments.py:41-107 | An appointment's device form is the normalised appointment if and only if a device can hold it |
| Contacts.PhoneSlots | jornada/pim/contacts.py:63-72 | The loop over the numbers computes the specified assignment of slots |
| ContactPhones.SlotsAreFair | jornada/pim/contacts.py:63-72 | Every slot holds the first number that claims it: of its own kind, or for work2 and home2 a further number of the first one's kind |
| ContactPhones.ContactSlotsAreFair | jornada/pim/contacts.py:63-72 | The same for every contact, numbers of unknown kinds counting as work numbers |
| Contacts.IdsDistinct | jornada/pim/contacts.py:13-19 | No two fields of a contact share a property |
| Contacts.Encode | jornada/pim/contacts.py:82-105 | Encoding appends a value, a deletion or nothing for each field, and a name when nothing else would be written |
| Contacts.MergeWriteAny | jornada/pim/contacts.py:47-105 | Writing a contact over any matching record and decoding gives its device form under the name it was given |
| Contacts.MergeWrite | jornada/pim/contacts.py:47-105 | For a contact that is not blank the result does not depend on the record: no stale field survives |
| Contacts.NameIndependent | jornada/pim/contacts.py:103-105 | The name written is independent of the old record if and only if the contact is not blank |
| ContactForms.AddressesKept | jornada/pim/contacts.py:93-98 | Of each of the three kinds the last address given is kept, its fields stripped, unless nothing is left of it; no other address is |
| ContactForms.PhonesKept | jornada/pim/contacts.py:63-90 | A number is kept in a slot if and only if it is the first that claims the slot |
| ContactForms.KeptExactly | jornada/pim/contacts.py:47-105 | A contact's device form is the normalised contact if and only if it has at most three e-mails, numbers and addresses of distinct known kinds in slot order, stripped address fields, dates after 1601, comma-free categories, a note the device keeps, and a full name or nothing to make one of |
| ContactForms.ReadsBackExactly | jornada/pim/contacts.py:47-105 | Written over any matching record and read back, a contact is unchanged if and only if a device can hold it and there is something to write |
| RemoveTree.Device.ListDir | jornada/remove.py:64 | Assumed of the device: a listing gives every entry of a directory once, or is refused |
| RemoveTree.Device.DeleteFile | jornada/remove.py:53 | Assumed of the device: a file that is there goes, unless it refuses |
| RemoveTree.Device.RemoveDirectory | jornada/remove.py:76 | Assumed of the device: a directory goes only when it is empty, unless it refuses |
| RemoveTree.DeleteFile | jornada/remove.py:50-58 | One file is gone and counted, or stays and is reported; nothing else changes |
| RemoveTree.RemoveDirectoryRecursive | jornada/remove.py:61-81 | The walk leaves under its directory exactly the refused entries, what cannot be listed, and their ancestors; outside nothing changes; the stats count what went and name what stayed |
| RemoveTree.RemoveTree | jornada/remove.py:25-42 | The device root is refused, a missing path is an error, and otherwise the subtree is removed as far as the device allows, with exact stats |
| DeviceTree.LeftIsTree | jornada/remove.py:61-81 | No entry is left without its parent directory |
| DeviceTree.OneMore | jornada/remove.py:68-73 | Dealing with one entry changes nothing at or below the entries not dealt with yet |
| DeviceTree.DirectoryRemains | jornada/remove.py:74-81 | A directory stays if and only if it is refused or something below it stayed |
| DeviceTree.CleanSweep | jornada/remove.py:25-81 | With nothing refused at or below the path all of it goes, nothing else does, and nothing fails |
| SendMirror.Mirror.ArchivedName | jornada/sendmirror.py:47-55 | The counter loop ends with the first candidate name that is not taken |
| SendMirror.Mirror.MirrorSent | jornada/sendmirror.py:58-96 | Identical content writes nothing new, other content first moves the old copy to a free name, and a line is appended to the manifest; files in the way leave everything as it was, and a folder in the manifest's place is met only after archiving |
| SendMirror.CandidatesDiffer | jornada/sendmirror.py:47-55 | Different counters give different names |
| SendMirror.ArchivesRecognised | jornada/restore.py:24-40 | Restore's filter recognises every archived name, whatever the file's name and suffix |
| SendMirror.NothingLost | jornada/sendmirror.py:58-96 | Over every run of sends each payload sent, other than to the manifest's place, and each other file there before, is still in the archive byte for byte |
| SendMirror.HoldsTheLast | jornada/sendmirror.py:58-96 | Over every run of sends, from any archive, each target other than the manifest holds the last payload sent to it, and a file never sent to stays as it was |
| SendMirror.HoldsTheLastExactly | jornada/sendmirror.py:58-96 | When every send is logged, a place sent to holds its last payload if and only if it is not the manifest's: a payload sent there has log lines appended |
| SendMirror.ManifestStep | jornada/sendmirror.py:94-95 | The line of a send is appended to the payload if that went to the manifest's place, and to the log otherwise |
| SendMirror.RestoresTheLatest | jornada/restore.py:102-142 | Restore pushes back a place if and only if it was sent to or there before, no name on its path is one restore leaves out, and its own name is not an archived version's; what it pushes is the last payload sent there |
| SendMirror.ReachesIfPasses | jornada/restore.py:102-142 | The walk of restore pushes a file exactly when it is there and its path passes the filter, at any depth |
| SendMirror.ExcludedIsNotRestored | jornada/restore.py:24-45 | A file sent to backup-manifest.json, or another name restore leaves out, is kept but never pushed back |
| SendMirror.StampedTargetIsNotRestored | jornada/restore.py:24-40 | A target whose own name ends in a stamp is kept but never pushed back |
| SendMirror.TargetsMirrorPaths | jornada/sendmirror.py:34-44 | A device path of plain names is kept under the same names |
| SendMirror.TargetsArePlain | jornada/sendmirror.py:34-44 | Every component of a target is a plain name that cannot leave its folder |
| Dccm.ClientLoop | jornada/dccm.py:191-217 | The loop over the connection's events computes the specified run |
| Dccm.StepKeeps | jornada/dccm.py:51-92 | One header, reply or timeout keeps the session consistent and never forgets the device, the lock or the authentication |
| Dccm.RunKeeps | jornada/dccm.py:191-217 | Over every run a pending reply means locked with the device known, authentication means the device is known and never reverts, and it is announced exactly once, when it happens |
| Dccm.LockedNeedsReply | jornada/dccm.py:51-92 | A session that was challenged before it was authenticated becomes authenticated if and only if a non-zero password reply arrives while one is awaited |
| Dccm.FiveMissedPingsEnd | jornada/dccm.py:196-216 | Without a ping answer every timeout counts, the fifth ends the connection, and with fewer only an error or the end of the events does |

## Left out

- Network, serial line, threads, the clock and the file system are replaced by parameters, event lists and maps.
- User interface, HTTP services, OAuth, WebDAV, AppleScript and SQLite stores: thin clients of libraries.
- Store identifiers are never handed out twice, and a call that raises is taken to have had no effect.
- Content hashes are part of a record: two records agree when their fingerprints do; collisions are not modelled.
- The sync state's `last_sync` and `remote_token`, its JSON form, a plan's texts and the log are not modelled.
- SyncResume.CrashIsHarmless: assumes distinct match keys among the new items of each side, since with repeated keys a resumed run may pair other equal-keyed items than the first run had begun to (SyncLimits.RepeatedKeysMisPair).
- SyncResume.RefusalsAreHarmless: holds for the remote preference; for the local one SyncResume.RetryReconcilesExactly states when it does.
- LineRoundTrip.LineReadsBack: names and keys are upper-case without punctuation; upper-casing is modelled for ASCII letters, other characters stand for themselves.
- IcalRoundTrip.ParseSerialize: properties named BEGIN or END, which the printer would write as component borders, are not printable.
- Dates, durations, time zones and the builders of iCalendar components; vCard parsing with quoted-printable values.
- Descriptions of PPP options and frames; recorded times are exact reals, not floats.
- PppDemux.RecordFileReports: a recording that breaks off inside a packet, of which the reader reports what there is, is not covered.
- CedbRoundTrip.RecordReads: records of 4 GiB and more, whose offsets no longer fit, are not covered.
- Values are typed as the codec's constructors make them; Python's coercions of other types (`int(...)`, truth values) are one error, and an r8 value is its eight octets.
- Decoding code units to text (unpaired surrogates are replaced) is not modelled; strings are code units or characters.
- CedbSwift.Pack: Swift's own traps, on a count too large for its integers, are not modelled.
- Numbers that a CE property cannot hold are refused by the packer, which the codecs of tasks, appointments and contacts do not look at; neither do their merge-write lemmas.
- Appointments.MergeWrite: moments are unbounded, so an all-day event ending after year 9999 is covered although Python cannot build it; times are naive, without zones.
- Contacts.MergeWrite: leaves the blank contact to Contacts.MergeWriteAny, because its name does depend on the old record.
- Recurrence pattern blobs, which the code refuses to write, and reading fields, other than a task's completion, that a device stores under another type than the codec writes.
- The codec's list of properties is a value that each helper method returns longer, not a list changed in place.
- RemoveTree.RemoveTree: paths are lists of names; trimming blanks and backslashes from the given path is not modelled.
- SendMirror.Mirror.MirrorSent: contents are compared themselves, not by MD5; a manifest line is any function of path, content and repetition; letter case and links of the file system are not modelled.
- Parsing of the info packet and the encoding of the password; who may connect, and stopping the server.
- SendMirror.RestoresTheLatest: restore's skipping of files the device already has, and its errors, are not modelled.
- The Swift send mirror, the text and Office file formats, backup, and device profiles: they would only add easier members.
