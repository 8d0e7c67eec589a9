# Verification of the Postfix queue-file editor and its neighbours

This project models the parts of Postfix that change shared state in small steps, and proves what
those steps keep. `dafny verify dfyconfig.toml` checks all of it.

**Queue file.** The cleanup server lets mail filters edit a message after it was written. It never
rewrites the file: new records go to the end, a pointer record leads back, and one old record is
overwritten by a pointer to the new ones (the design is explained in
`src/cleanup/cleanup_milter.c:121-220`). Body text moves between reusable stretches of the file.
The model works on the bytes of the file. `Records` is the record format and the pointer format,
`Chain` the path that a reader takes through a file full of jumps, `Following` the count of reverse
jumps after which reading fails, `Headers` and `Rendering` the header text, `HeaderLines` and
`HeaderNames` what it says in bytes, `Layout` the invariant, `HeaderEdits`, `HeaderOps`,
`HeaderScan`, `EnvelopeEdits`, `Recipients` and `BodyEdits` the effect
of each edit on path and bytes, `JumpLoad` the jumps that edits add, `Starting` the file as it was
received, `QueueFiles` the editor itself with its file, stream position and offsets, `Edits`
arbitrary sequences of requests, and `EditLaws` what they make of a message. The main result: after
any sequence of header, sender, recipient and body requests of which none is refused, reading the
file from offset 0 ends, and gives the records of the same edits on a plain message. A request is
refused, and reading fails, exactly if it takes too many reverse jumps, and a bound on their number
is known beforehand.

**Recipients.** `DupFilter` is the bounded duplicate filter, `AliasExpansion` the worklist that
expands an address over an arbitrary, possibly cyclic map, and `RecipientOutput` the filter that
puts both in front of the queue file, with the choice of delivery status notifications (`Dsn`).

**Connection rates.** `AnvilModel` is a state machine without counters: links, expiry times, and a
log of all events. `AnvilServer` is the server with shared entries, stored counters, per-client
links and timers; every request takes it through the states of the model.

**Smaller cores.** `BounceLog` (writer and reader of the bounce log), `Templates` (query and result
templates of network dictionaries), `DnsLookup` (CNAME chains, DNSSEC, several record types) and
`Masquerade` (address masquerading); `Addresses` finds the domain part of an address.

## How the parts that the model does not contain appear

- Case folding is a function on characters. Where a law is needed it is a precondition
  (`RecipientOutput.Plain`, `Masquerade.FoldOk`, `AliasExpansion.Respects`).
- Map lookups, DNS replies, address quoting, the exception list of masquerading, the reply filter
  and the clock are parameters. A DNS reply is a list of decoded answers with an AD bit.
- The configuration limits of the queue file are `Rendering.Limits`: `line_length_limit` and
  `header_size_limit`.
- Addresses, DSN attributes and new recipient records are handed to the editor as records, as they
  are after address rewriting, alias expansion and duplicate elimination.
- `QueueFile.log` is a ghost list of the file contents after every record write. The commit point is
  stated about it: up to the last write of a request, the file still reads as before
  (`QueueFiles.Unseen`).

## Findings

- `rec_goto` counts reverse jumps in static variables that are reset only when another stream is
  used (`src/global/record.c:327-350`). A seek to another place does not reset them, so that the
  scans of all requests for one file add to the same count, and a request is refused once they
  exceed 10000. `Edits.Perform` says exactly when. `Edits.DeleteTooOften` is a run that gets there:
  once a recipient was added, the 10001st deletion at the latest is refused. Reading can fail
  without any refusal: every new sender overwrites the one before it and leads back to its way back,
  so that 10001 changes of the sender, none of which is refused, leave a file that holds the plainly
  edited message and cannot be read (`Edits.ChangeTooOften`). `Edits.Run` gives the bound that a
  caller can check: on a fresh stream no request of up to 139 is refused, and a file can be read
  after up to 9998 requests (`EditLaws.EditReceived`), so that this bound is nearly the best one.
- Headers that the cleanup server generates itself (`src/cleanup/cleanup_message.c:722-846`) are
  written without padding. The received file meets the editor's invariant exactly if none of them is
  a labelled text of less than 15 bytes (`Starting.StartInv`, `QueueFiles.QueueFile.constructor`);
  a From: header for a sender of up to eight bytes is one (`Starting.ShortFrom`). `Starting.ShortGenerated` is the place in the
  file at which a search for it panics with "short header without padding"
  (`src/cleanup/cleanup_milter.c:910`).
- Body replacement reserves room for one record per line (`src/cleanup/cleanup_body_edit.c:177-178`),
  but a line longer than `line_length_limit` is written as several records, each with its own
  header (`src/cleanup/cleanup_out.c:123-132`). `BodyEdits.NoOverrunIff` says exactly for which
  lines an accepted write stays inside its region. In `BodyEdits.OverrunExample` a line that is one
  byte too long makes the pointer behind the new body destroy the end-of-content marker.
- With a `header_size_limit` below the size of a pointer payload (it may be 1,
  `src/global/mail_params.c:780`) there can be headers without room for a pointer over them: long
  lines are cut and not padded, and the padding of short ones is computed before the cut
  (`src/cleanup/cleanup_out.c:194-218`). `Rendering.RoomIff` says exactly which headers have room,
  and `Rendering.AlwaysRoomIff` that all of them do exactly if the limit is at least 15. The editor
  is proved for such limits.
- An old-style bounce log line of an entry without reason is misread when the quoted address
  contains the text that ends an address. `BounceLog.EntryAppliedIff` says exactly when,
  `BounceLog.MisreadEntry` what is read, and `BounceLog.MisreadExample` gives an address.
- The expiry timer of an anvil entry is set once, by its last disconnect, and can fire while a rate
  window is still fresh. This is so exactly if a client counts an event for an entry to which no
  client is linked, or if the last client leaves in the second in which the window was opened
  (`AnvilModel.TidyIff`, over whole runs `AnvilModel.NeverForgetsIff`; `AnvilModel.LateExample`,
  `AnvilModel.ShortExample`).
- The comment at `src/global/db_common.c:375-378` says that domains with leading, consecutive or
  trailing dots are skipped. They are not: empty labels disappear when the domain is split
  (`src/util/argv_split.c:63-75`, `Templates.DotsIgnored`). The model follows the code.
- The duplicate filter lets equal recipients through once it is full. `RecipientOutput.DuplicatesIff`
  says exactly when; `RecipientOutput.FullFilter` and `RecipientOutput.DuplicateExample` are runs in
  which it happens.

## Model

| member | source | states |
|---|---|---|
| Edits.Run | src/cleanup/cleanup_milter.c:615-1857 | after any sequence of requests that fits below the pointer limit, and of which none is refused, the file holds the plainly edited message; reading from offset 0 ends and gives envelope, MESG, headers, body, XTRA, extracted part and END, each marker once and in this order, exactly if the reverse jumps are at most 10000; a bound on count, load and number of requests rules refusals out |
| Edits.ListRecords | src/global/record.c:236-367 | reading a valid file from offset 0 ends and gives its contents, with each marker once, exactly if its path has at most 10000 reverse jumps |
| Edits.Perform | src/cleanup/cleanup_milter.c:121-220 | one request keeps the invariant, its effect on what a reader gets is the plain edit, the content length is that of the last replacement, and at most one jump is added; it is refused exactly if its scan, with the reverse jumps counted before, exceeds the limit, and then a header request has changed nothing and a deletion only what it had passed |
| Edits.DeleteTooOften | src/global/record.c:323-367 | in every file to which recipients were added, a deletion is refused, at the latest the 10001st |
| Edits.ChangeTooOften | src/cleanup/cleanup_milter.c:1404-1471 | in every valid file, n changes of the sender give the plainly edited message and leave at least n reverse jumps to a reader; after 10001 of them it cannot be read, although none was refused |
| Edits.ScanCost | src/cleanup/cleanup_milter.c:717-982 | the scan of a request takes at most one reverse jump more than the jumps back and body regions in the file |
| EditLaws.EditReceived | src/cleanup/cleanup_extracted.c:177-281 | a received message, edited by any run: the body is the last one, one sender record with the latest sender, headers and recipients as in the laws below; no refusal within 139 requests, readable after 9998 |
| EditLaws.OutcomeOfRun | src/cleanup/cleanup_milter.c:121-220 | the laws of headers, body, sender and recipients hold of every received message under every run |
| EditLaws.FileOneSender | src/cleanup/cleanup_envelope.c:334-346 | every file that meets the invariant holds exactly one sender record, at the place that the editor remembers |
| EditLaws.HeadersOfRun | src/cleanup/cleanup_milter.c:615-1324 | over any sequence of requests the header records are those of the same edits on a plain list of headers, and grouping them gives that list back |
| EditLaws.SenderOfRun | src/cleanup/cleanup_milter.c:1328-1477 | after any sequence of requests there is exactly one sender record, with the latest sender |
| EditLaws.RecipientsOfRun | src/cleanup/cleanup_milter.c:1481-1824 | added recipients stand in request order before what followed the append position, and one of them is cancelled exactly if a later deletion names its original recipient |
| EditLaws.RecipientFate | src/cleanup/cleanup_milter.c:1733-1817 | the same for a single record of a single request |
| EditLaws.StartHeadersAre | src/cleanup/cleanup_message.c:850-862 | received headers with proper labels are a list of headers |
| EditLaws.ReceivedAre | src/cleanup/cleanup_message.c:722-862 | so are they together with the generated ones |
| QueueFiles.QueueFile.constructor | src/cleanup/cleanup_extracted.c:177-328 | the file as received meets the invariant exactly if no generated header is short, and then reads as the message that was received |
| QueueFiles.QueueFile.AddHeader | src/cleanup/cleanup_milter.c:615-713 | the header goes behind all others; every write before the last leaves the contents alone |
| QueueFiles.QueueFile.FindHeaderStart | src/cleanup/cleanup_milter.c:717-932 | finds the wanted header as counting headers does, or a pointer that leads to it; a short first record is always padded; the error result exactly if the records up to where the search stops take too many reverse jumps |
| QueueFiles.QueueFile.FindHeaderEnd | src/cleanup/cleanup_milter.c:936-982 | the offset of what follows the header, with jumps followed and the append pointer as a stop; the error result exactly if both searches together take too many reverse jumps |
| QueueFiles.QueueFile.WritePatch | src/cleanup/cleanup_milter.c:984-1107 | header, saved record and reverse pointer at the end of the file, then one pointer over the old record |
| QueueFiles.QueueFile.InsHeader | src/cleanup/cleanup_milter.c:1111-1182 | index at least 1, behind the end means append; contents change with the last write only; refused exactly if the search is, and then nothing is written |
| QueueFiles.QueueFile.UpdHeader | src/cleanup/cleanup_milter.c:1186-1257 | replaces the wanted header after the first one in the file, appends if there is none; contents change with the last write only; refused exactly if the search is, and then nothing is written |
| QueueFiles.QueueFile.DelHeader | src/cleanup/cleanup_milter.c:1261-1324 | removes the wanted header with all its records, or nothing; refused exactly if the search is, and then nothing is written |
| QueueFiles.QueueFile.ChangeSender | src/cleanup/cleanup_milter.c:1328-1477 | attributes and sender replace the old sender record and its padding in one final write |
| QueueFiles.QueueFile.AddRecipient | src/cleanup/cleanup_milter.c:1481-1642 | recipient records go to the append position in one final write, or nothing is written |
| QueueFiles.QueueFile.DeleteRecipient | src/cleanup/cleanup_milter.c:1653-1824 | the scan ends, skips the content, and cancels in place exactly what the plain edit cancels; refused exactly if the scan takes too many reverse jumps, with the records before that treated |
| QueueFiles.QueueFile.BodyEditStart | src/cleanup/cleanup_body_edit.c:94-149 | all regions are free again, one is opened and the headers lead to it |
| QueueFiles.QueueFile.BodyEditWrite | src/cleanup/cleanup_body_edit.c:153-213 | the line is added to the body; another region is opened when the line and a pointer do not fit |
| QueueFiles.QueueFile.BodyEditFinish | src/cleanup/cleanup_body_edit.c:218-236 | the invariant holds again, the body is what was written, and the content length is that of headers and body |
| QueueFiles.QueueFile.RegionOpen | src/cleanup/cleanup_region.c:145-192 | first free region that is large enough, or an open-ended one at the end of the file |
| QueueFiles.QueueFile.ReplaceBody | src/cleanup/cleanup_milter.c:1828-1857 | the body becomes an empty record and the lines; the content length is its size and that of the headers |
| QueueFiles.QueueFile.OutHeader | src/cleanup/cleanup_out.c:170-225 | the loop over lines writes what the specification of a header says |
| Records.ReadAt | src/global/record.c:236-319 | reading a record that was written gives it back, and the offset behind it |
| Records.RecGetRaw | src/global/record.c:236-319 | the reading loop over length bytes agrees with the specification on every file, malformed ones and lengths beyond an int included |
| Records.AtUnique | src/global/record.c:194-232 | a file holds at most one record at an offset |
| Records.PtrRoundTrip | src/global/record.c:323-367 | the padded decimal offset of a pointer record is read back, and the record has the fixed pointer size |
| Records.EncBytes | src/global/record.c:194-232 | the bytes of a record: type, length in portions of seven bits, payload |
| Records.PtrBytes | src/global/rec_type.h:179 | the 15 columns of a pointer record |
| Records.PutKeeps | src/global/record.c:194-232 | a record write leaves records alone that it does not overlap |
| Records.PadFills | src/global/record.c:408-414 | a short record and its padding leave room for a pointer record |
| Chain.Splice | src/cleanup/cleanup_milter.c:1013-1094 | records behind the file, of which the last leads back, and one pointer to them give the spliced path |
| Chain.Overwrite | src/cleanup/cleanup_milter.c:1788-1806 | a record of the same successor can replace a part of the path |
| Chain.ReadsUnique | src/global/record.c:323-367 | a file has one path from offset 0 to END |
| Following.ReadAll | src/global/record.c:236-367 | the reader that follows pointers ends on every file, loops included, and gives the visible records of the path exactly if the reverse jumps on it, with those counted before, are at most 10000 |
| Following.PassesOne | src/global/record.c:323-367 | rec_goto refuses, stays or jumps as the count of reverse jumps along the path says |
| Following.ReversesBacks | src/global/record.c:323-367 | on a path, reverse jumps are jumps to lower offsets, except perhaps the first, whatever was jumped to before |
| JumpLoad.ReaderCost | src/global/record.c:323-367 | a reader of the whole file takes at most one reverse jump more than the jumps back and body regions in the file |
| JumpLoad.EditedLoad | src/cleanup/cleanup_milter.c:984-1107 | a header edit adds at most one jump back |
| EnvelopeEdits.MovedLoad | src/cleanup/cleanup_milter.c:1328-1642 | so does a new sender or new recipients |
| BodyEdits.FinishLoad | src/cleanup/cleanup_body_edit.c:218-236 | a new body is left by one jump for each of its regions |
| Headers.ScanLabelName | src/global/is_header.c:46-92 | the label of a proper header is its name |
| Headers.FindStartPicks | src/cleanup/cleanup_milter.c:829-884 | the record scan picks the header that counting headers picks |
| Headers.InsMatchesList | src/cleanup/cleanup_milter.c:1111-1182 | inserting into the records is inserting into the list of headers |
| Headers.UpdMatchesList | src/cleanup/cleanup_milter.c:1186-1257 | updating the records is updating the list, a missing header is appended, the first one is skipped |
| Headers.DelMatchesList | src/cleanup/cleanup_milter.c:1261-1324 | deleting from the records is deleting from the list |
| Headers.GroupFlatten | src/cleanup/cleanup_milter.c:936-982 | the records determine the list of headers |
| Rendering.ChunksText | src/cleanup/cleanup_out.c:102-144 | cutting a line at the length limit loses nothing, and only the last piece ends the line |
| Rendering.ReserveCovers | src/cleanup/cleanup_body_edit.c:177-178 | the space reserved for a line covers its records exactly when it is not longer than the limit |
| Rendering.RenderShape | src/cleanup/cleanup_out.c:170-225 | a header is written as one header, with room for a pointer over its first record, for every text |
| Rendering.RoomIff | src/cleanup/cleanup_out.c:194-218 | which headers leave room for a pointer, for every text and header size limit |
| Rendering.AlwaysRoomIff | src/cleanup/cleanup_out.c:194-218 | all of them do exactly if the limit is at least 15 |
| Rendering.ShortLimitExample | src/cleanup/cleanup_out.c:194-218 | a line of ten bytes cut at five takes 12 of the 17 bytes of a pointer |
| HeaderLines.RenderRows | src/cleanup/cleanup_out.c:170-225 | for every text, the lines of a written header are the lines of the text in order, each line after the first one with a blank or a tab in front, up to the size limit, where one is cut or dropped |
| HeaderLines.AddedLines | src/cleanup/cleanup_milter.c:615-1257 | what AddHeader, InsHeader and UpdHeader put into the message holds name, colon, space and value, line by line, and changes nothing else |
| HeaderLines.AddedText | src/cleanup/cleanup_milter.c:615-1257 | a text of one line within the size limit stands there byte by byte |
| HeaderLines.ReceivedRows | src/cleanup/cleanup_message.c:722-862 | a received message starts with the lines of the received headers, then the generated ones |
| HeaderNames.LabelIff | src/global/is_header.c:46-92 | a text has a label of n bytes exactly if n visible ASCII bytes other than colons, then blanks, then a colon begin it |
| HeaderNames.CalledIff | src/cleanup/cleanup_milter.c:876-879 | a header matches a name exactly if its label is as long and each pair of bytes is equal or the two cases of one ASCII letter |
| HeaderNames.EditsByName | src/cleanup/cleanup_milter.c:829-1324 | an update or a deletion treats exactly the nth header of that name behind the first header; without one it appends, or changes nothing |
| Layout.InvReads | src/cleanup/cleanup_milter.c:121-220 | a file that meets the invariant is read from its start to END |
| Layout.CoverClear | src/cleanup/cleanup_milter.c:1013-1094 | a pointer over a record and its padding touches nothing else on the path |
| HeaderEdits.WholeView | src/cleanup/cleanup_milter.c:829-884 | what a reader gets is envelope, MESG, headers, body, XTRA, extracted part, END |
| HeaderEdits.EditedInv | src/cleanup/cleanup_milter.c:984-1107 | replacing a part of the header path keeps the whole invariant and changes the headers only |
| HeaderOps.PatchInv | src/cleanup/cleanup_milter.c:984-1107 | the bytes of a patch give the spliced path, for every text and saved record |
| HeaderOps.AddAtEnd | src/cleanup/cleanup_milter.c:615-713 | the same for appending, where the append pointer moves |
| HeaderOps.InsertAtText | src/cleanup/cleanup_milter.c:1142-1182 | insertion at a header saves its first record behind the new one |
| HeaderOps.InsertAtPtr | src/cleanup/cleanup_milter.c:1142-1182 | insertion where a pointer led to the header saves the pointer instead |
| HeaderOps.UpdateAt | src/cleanup/cleanup_milter.c:1211-1257 | an update skips exactly the records of the old header |
| HeaderOps.DeleteAt | src/cleanup/cleanup_milter.c:1285-1324 | so does a pointer over a deleted header |
| EnvelopeEdits.RcptInv | src/cleanup/cleanup_milter.c:1521-1636 | added recipient records keep the invariant; until the last write the old path is intact |
| EnvelopeEdits.RcptAbs | src/cleanup/cleanup_milter.c:1521-1636 | their effect is insertion at the append position |
| EnvelopeEdits.SenderInv | src/cleanup/cleanup_milter.c:1404-1471 | a new sender keeps the invariant; until the last write the old path is intact |
| EnvelopeEdits.SenderAbs | src/cleanup/cleanup_milter.c:1404-1471 | its effect is the plain change of the sender |
| EnvelopeEdits.SenderAnotherTurn | src/cleanup/cleanup_milter.c:1404-1471 | each change of the sender adds a reverse jump for every reader, wherever it jumped before |
| Recipients.CancelExactly | src/cleanup/cleanup_milter.c:1733-1817 | a record is cancelled exactly if it is a live recipient whose original recipient, or else itself, is the address |
| Recipients.CancelIdempotent | src/cleanup/cleanup_milter.c:1733-1817 | deleting twice is deleting once |
| Recipients.DelRcptWhole | src/cleanup/cleanup_milter.c:1733-1817 | the scan in two parts cancels what a scan of envelope and extracted part in one piece would |
| Recipients.RetypedInv | src/cleanup/cleanup_milter.c:1788-1806 | overwriting a recipient by a cancelled one keeps the invariant |
| BodyEdits.OpenConserves | src/cleanup/cleanup_region.c:145-192 | no region is lost or held twice by opening one |
| BodyEdits.OpenPool | src/cleanup/cleanup_region.c:145-222 | free and used regions stay pairwise disjoint |
| BodyEdits.EditStart | src/cleanup/cleanup_body_edit.c:94-149 | the first region and the pointer to it start a body |
| BodyEdits.EditLine | src/cleanup/cleanup_body_edit.c:153-213 | a line inside its region touches no header, envelope or marker and leaves room for the next pointer |
| BodyEdits.EditSwitch | src/cleanup/cleanup_body_edit.c:175-205 | so does the pointer to another region |
| BodyEdits.EditFinish | src/cleanup/cleanup_body_edit.c:218-236 | finishing restores the invariant with the new body |
| BodyEdits.NoOverrunIff | src/cleanup/cleanup_body_edit.c:175-211 | an accepted line stays inside its closed region, for every region, exactly if it is not longer than the line length limit |
| BodyEdits.OverrunExample | src/cleanup/cleanup_body_edit.c:175-236 | in a received file, a line one byte too long that just fits is accepted, and the pointer behind it destroys the end-of-content marker |
| Starting.StartInv | src/cleanup/cleanup_message.c:722-862 | the received file, with its generated headers and the pointers for later headers, recipients and other extracted records, meets the invariant exactly if no generated header is short |
| Starting.ShortGenerated | src/cleanup/cleanup_milter.c:893-912 | otherwise it holds a record that is taken for a header, is too short for a pointer, and has no padding behind it |
| Starting.ShortFrom | src/cleanup/cleanup_message.c:803-807 | a From: header without full name is short exactly for addresses of at most eight bytes |
| Starting.StartAbs | src/cleanup/cleanup_extracted.c:177-281 | the received file reads as the received message |
| AliasExpansion.MapOneToMany | src/cleanup/cleanup_map1n.c:77-181 | ends for every map; never empty; within the expansion limit on success; the original address on any error, which is a failed lookup on the way or a limit exceeded; succeeds if no lookup fails, no result is empty or overlong, every chain is within the recursion limit and all leaves are within the expansion limit; for maps that respect case, exactly the reachable addresses without mapping or that map to themselves |
| AliasExpansion.Settle | src/cleanup/cleanup_map1n.c:124-177 | the inner loop keeps the worklist invariant until the position needs no more work |
| AliasExpansion.TakeResult | src/cleanup/cleanup_map1n.c:144-166 | the first address replaces the old one, others are appended, self-expansion is remembered, an overlong address is an error |
| AliasExpansion.WorkStep | src/cleanup/cleanup_map1n.c:142-167 | one expansion keeps everything reachable and every successor covered |
| AliasExpansion.WorkDone | src/cleanup/cleanup_map1n.c:114-181 | a settled worklist is sound and complete |
| DupFilter.BeenHere.Fixed | src/global/been_here.c:151-189 | found or not, and remembered while there is room |
| RecipientOutput.Recipients.Output | src/cleanup/cleanup_out_recipient.c:129-264 | each address of the expansion is offered once, in order, with the given attributes and the notifications that remain; what is traced as expanded and what a verify request gets |
| RecipientOutput.Recipients.Put | src/cleanup/cleanup_out_recipient.c:159-174 | records, count and filter agree with the list of all recipients offered so far |
| RecipientOutput.RunLosesNothing | src/cleanup/cleanup_out_recipient.c:156-264 | every recipient offered has an equal that was written, nothing else is written, and equals are written once while all different ones fit |
| RecipientOutput.DuplicatesIff | src/global/been_here.c:151-189 | equals are written once exactly if every key offered twice found room |
| RecipientOutput.FullFilter | src/global/been_here.c:151-189 | any new key passes a full filter as often as it is offered |
| RecipientOutput.DuplicateExample | src/cleanup/cleanup_out_recipient.c:156-174 | with room for one key, three recipients of which two are equal are all written |
| RecipientOutput.NothingLost | src/global/been_here.c:151-189 | a suppressed key passed before |
| RecipientOutput.KeySeparates | src/cleanup/cleanup_out_recipient.c:159-163 | joined and folded keys are equal exactly if the recipients are, up to case |
| RecipientOutput.RecordsRoundTrip | src/cleanup/cleanup_out_recipient.c:164-173 | reading the records gives each written recipient with its own attributes |
| RecipientOutput.RelayedDropsSuccessOnly | src/cleanup/cleanup_out_recipient.c:238-246 | expanded recipients keep all notifications but SUCCESS, and never fall back to the default (option (b), section 5.2.7.3 of RFC 3461) |
| AnvilServer.Server.Run | src/anvil/anvil.c:524-884 | any sequence of requests and timer events takes the server through the states of the model, with every stored count, rate, link and timer as derived |
| AnvilServer.Server.Connect | src/anvil/anvil.c:593-669 | the reported count is the number of linked clients, the rate that of the window; reconnecting included |
| AnvilServer.Server.Register | src/anvil/anvil.c:673-785 | the reported rate is the saturated number of events of that kind in the window |
| AnvilServer.Server.Disconnect | src/anvil/anvil.c:823-855 | only a linked client lets go of an entry |
| AnvilServer.Server.Done | src/anvil/anvil.c:859-884 | a client that goes away lets go of its entry |
| AnvilServer.Server.Lookup | src/anvil/anvil.c:547-589 | reports derived numbers, and no stale ones |
| AnvilServer.Server.Expire | src/anvil/anvil.c:524-543 | an entry is freed only when nobody is linked to it; the panic is unreachable |
| AnvilServer.Server.DropOne | src/anvil/anvil.c:404-411 | one connection less, and a timer when it was the last |
| AnvilModel.GoodSteps | src/anvil/anvil.c:386-451 | in every reachable state links lead to known entries, exactly the entries without clients have a timer, and windows hold no event older than one time unit |
| AnvilModel.CountedWindow | src/anvil/anvil.c:375-382 | a reported event was counted in a window at most one time unit old, which was not cut short or continued when stale |
| AnvilModel.RateIs | src/anvil/anvil.c:375-382 | a rate is the number of events of its kind since the window was opened, or 2147483647 if there are more |
| AnvilModel.DueAfter | src/anvil/anvil.c:386-543 | an entry is due one time unit after its last client let go, at no other time, and is freed by its timer only |
| AnvilModel.StaleQuery | src/anvil/anvil.c:574-578 | a stale query yields zeros and the next event opens a fresh window |
| AnvilModel.TidyIff | src/anvil/anvil.c:375-411 | a request leaves a window that can be fresh when its entry is due exactly if it opens one for an unlinked entry that is due by the end of the window, or unlinks the last client in the second in which the window was opened |
| AnvilModel.HastyForgets | src/anvil/anvil.c:404-543 | after such a request there is a time at which the timer forgets a fresh window |
| AnvilModel.NeverForgetsIff | src/anvil/anvil.c:375-884 | over any run, no timer can forget a fresh window, whenever it fires, exactly if no request of the run is of that kind |
| AnvilModel.StartForgetsIff | src/anvil/anvil.c:375-884 | in particular over every run from the start of the server |
| AnvilModel.LateExample | src/anvil/anvil.c:524-543 | two messages within one time unit of which one is reported |
| AnvilModel.ShortExample | src/anvil/anvil.c:404-543 | a connection that ends in its first second, forgotten in a second in which a query would report it |
| BounceLog.LogFile.Append | src/bounce/bounce_append_service.c:114-152 | the whole entry is appended, or nothing when flushing fails |
| BounceLog.Reader.GetLine | src/util/vstring_vstream.c:150-162 | the next line without its newline, partial last line included |
| BounceLog.Reader.Read | src/global/bounce_log.c:147-300 | the line loop agrees with the specification of the reader on every file |
| BounceLog.LogRoundTrip | src/global/bounce_log.c:164-300 | reading until null gives the appended entries in order, whether or not each has an old-style line; a last entry cut off at any byte is not returned |
| BounceLog.EntryAppliedIff | src/global/bounce_log.c:195-283 | the lines of an entry give it back exactly if no old-style line is misread |
| BounceLog.MisreadEntry | src/global/bounce_log.c:260-283 | such an entry keeps all but its reason, which becomes the rest of the quoted address |
| BounceLog.MisreadExample | src/bounce/bounce_append_service.c:118-122 | the entry that is read back for an address with a quoted local part |
| BounceLog.AttributesAre | src/global/bounce_log.c:195-258 | the name of each attribute, spelt out, and the one field that it sets |
| BounceLog.OldEntryReads | src/global/bounce_log.c:260-300 | an entry with an old-style line only has that address and reason, and the status and action that the file stands for |
| BounceLog.NoAddressReads | src/global/bounce_log.c:284-300 | an entry without recipient gets a place holder |
| BounceLog.SplitSpaced | src/util/split_nameval.c:61-97 | blanks around name and value do not count, and without an equals sign there is no attribute |
| BounceLog.SplitAttr | src/util/split_nameval.c:61-97 | name and value of an attribute line are found again |
| Dsn.AtolDecimal | src/bounce/bounce_append_service.c:129-133 | offsets and notification flags survive being written and read |
| Templates.Context.Parse | src/global/db_common.c:185-247 | accepts exactly well-formed templates, and keeps all that they need |
| Templates.Context.Expand | src/global/db_common.c:299-516 | no panic or fatal call for any input of an accepted template; zero exactly for unsuitable inputs, result untouched; else old text, comma, exact substitution |
| Templates.Configure | src/global/db_common.c:185-247 | all templates accepted into one context may be expanded in their mode |
| Templates.TokensIff | src/global/db_common.c:185-247 | a text is accepted exactly if every percent sign is followed by one of the fifteen letters, and is read as what it writes |
| Templates.NeedsIff | src/global/db_common.c:185-247 | a part of the input is asked for exactly if a conversion stands for it |
| Templates.PartsIs | src/global/db_common.c:185-247 | as many labels are asked for as the greatest digit says |
| Templates.ResultConversions | src/global/db_common.c:399-480 | lower case letters stand for the value, upper case letters for the key |
| Templates.QueryConversions | src/global/db_common.c:399-480 | in a query both stand for the value |
| Templates.LabelConversion | src/global/db_common.c:454-480 | digits count the labels of the key from the right |
| Templates.DynamicIff | src/global/db_common.c:185-247 | a template is reported as dynamic exactly if its expansion depends on the input |
| Templates.DotsIgnored | src/global/db_common.c:361-384 | empty labels never count, at the start, at the end or anywhere between |
| DnsLookup.GetAnswer | src/dns/dns_lookup.c:805-910 | all usable resources in order or none; trusted only if this reply and those before it were secure |
| DnsLookup.Lookup | src/dns/dns_lookup.c:914-1049 | at most ten replies are followed; the last one determines status and records, filtered, or negative-caching data; every record carries the trust of the whole chain |
| DnsLookup.MissingIs | src/dns/dns_lookup.c:884-886 | a temporary failure wins over others, and not found means that nothing of the kind was there |
| DnsLookup.TrustedIff | src/dns/dns_lookup.c:878-896 | trusted exactly if DNSSEC was asked for and every reply followed had the AD bit |
| DnsLookup.ResourcesConcat | src/dns/dns_lookup.c:805-910 | exactly the decoded records of the wanted type are kept, in order |
| DnsLookup.LastAlias | src/dns/dns_lookup.c:805-910 | the lookup goes on with the name of the last alias |
| DnsLookup.MadeStops | src/dns/dns_lookup.c:1123-1177 | one query for each type before the first zero, in order, up to the first result that stops the series: success, invalid reply, null MX, or policy for MX, as asked for |
| DnsLookup.ListsConcat | src/dns/dns_lookup.c:1123-1177 | the records of all queries stand in query order |
| DnsLookup.LookupTypes | src/dns/dns_lookup.c:1054-1177 | status is the maximum over the queries made, rcode and reason those of the last query that attains it, records concatenated in query order, for every type list and stop condition |
| Masquerade.Address.External | src/cleanup/cleanup_masquerade.c:77-149 | the scan in place agrees with the first covering pattern, and reports a rewrite exactly if there was one |
| Masquerade.MasqueradedIff | src/cleanup/cleanup_masquerade.c:77-149 | an address changes exactly if its local part is not excluded and the first listed name that its domain equals or lies under is a proper parent with an even number of exclamation marks; the domain becomes that name |
| Masquerade.Idempotent | src/cleanup/cleanup_masquerade.c:118-147 | a second pass changes nothing, for every ordered list with negations |
| Masquerade.Masquerades | src/cleanup/cleanup_masquerade.c:118-147 | the local part stays, excluded names are left alone, the domain is the old one or a listed proper parent that is not negated |

## Left out

- Edits.Run: file offsets are below 10^15, the largest value that the fixed-size pointer record holds. After a refusal the filter protocol sends no more requests and the file is not delivered; the model stops there too.
- EditLaws.HeadersOfRun: new headers have proper labels shorter than both size limits; for other names, which a filter can send, the effect is stated on header records by Edits.Run only.
- EditLaws.RecipientsOfRun: added records are complete, an original recipient being followed by its recipient as cleanup_out_recipient writes them, and sender attributes contain no original recipient.
- QueueFiles.QueueFile.ReplaceBody: lines are at most `line_length_limit` long; what longer lines do is stated by BodyEdits.NoOverrunIff. A replacement is one sequence from start to finish, as the filter protocol keeps other requests out in between.
- QueueFiles.QueueFile.BodyEditWrite: the same limit on lines.
- QueueFiles.QueueFile.RegionOpen: regions are sequences of values rather than linked nodes; the order of the free list and first fit are kept, splicing of pointers is not.
- QueueFiles.QueueFile.UpdHeader: an index below 1 is a panic in the code and excluded; so it is for DelHeader.
- QueueFiles.QueueFile.constructor: the pointer for later extracted records is part of the file, but adding FILTER and REDIRECT records there (`src/cleanup/cleanup_milter.c:429-497`) is not modelled.
- EditLaws.EditReceived: starts from files without short generated headers; the others do not meet the invariant (Starting.StartInv).
- QueueFiles.QueueFile.ChangeSender: parsing of addresses and ESMTP parameters, and BCC maps for the new sender, are not modelled.
- QueueFiles.QueueFile.DeleteRecipient: the duplicate filter is not rolled back by a delete, in the code as in the model.
- AliasExpansion.MapOneToMany: log messages and the reason text of an error are not modelled, the kind of error is.
- RecipientOutput.Recipients.Output: output errors, and the contents of trace and verify reports beyond the recipient, are not modelled.
- AnvilServer.Server.Connect: connection counts do not wrap around; rates saturate as in the code.
- AnvilServer.Server.Run: peak statistics and their periodic report are not modelled; the clock is read once per request, while setting a timer reads it again.
- BounceLog.LogRoundTrip: values are printable ASCII without blanks at either end; UTF-8 text is not modelled, nor overflow of numbers.
- Templates.Context.Expand: the domain match list, and warnings, are not modelled.
- DnsLookup.Lookup: decoding of replies and retries of truncated ones are parameters; h_errno is not modelled.
- DnsLookup.LookupTypes: dns_lookup_rl and dns_lookup_rv have the same loop, which is modelled once over a list that ends with zero.
- Masquerade.Address.External: lookup errors of the exception list are not modelled.
- Header checks on headers that filters add, MIME processing, macro evaluation and the filter protocol itself.
- Stream, locking and file system errors, except where a property is about the error result.
- Embedded null characters in header text.
- The flush server, bounce templates and notices, and the other programs of the mail system.
