# Model of the DVB receiver board's core

The board scans the transport streams on its input channels, keeps what it finds in pools of
streams, programs and PIDs, exchanges data with other boards, talks to conditional access modules,
and tells its hardware which PIDs to send on. This project models the parts where most can go
wrong and proves what they promise, for every input and every run.

- **Pools** (`TsPool`, `TsTree`, `TsAppend`). Three flat pools threaded into trees by 16-bit
  indices, with a valid flag per slot. The slot helpers behind the calls in TSProcess.c (first-fit
  scan with growth by `realloc`, chain walk refused at 300 slots, last slot of a chain, resetting a
  slot) are written out with contracts. `TsTree` says what tree a stream stands for: reading by
  counts and links (`ReadStream`), and the same tree node by node in named slots (`StreamAt`).
- **Scanning** (`TsBuild`, `TsPmt`, `TsScan`, `PidMap`, `ScanNeeds`, `ParseSi`, `ScanTheorems`,
  `ScanLimits`). PAT, CAT, PMT and single PIDs are entered into a temporary pool. Every call keeps the state `Built`: the
  pool holds one tree, every slot serves once, there are no other elementary streams. `Parse` then
  leaves exactly the tree `ScanFound` that the tables and the scanner's map describe, as long as the
  list of recorded PIDs has room. `ScanNeeds` follows what a scan fetches, requests and records, and
  so says beforehand whether it succeeds and whether the list has room. `ScanTheorems` tells that
  tree node by node from the tables, and says that every PID seen has exactly one kind of place in it.
- **Copying** (`TsAlloc`, `TsCopy`, `TsCopyProg`, `TsCopyStream`, `TsTheorems`, `TsScanCopy`, `ScanTs`).
  The deep copy into the live pools at three levels of nested allocation: same tree, no leak, no
  sharing, nothing else touched. `TsAlloc` follows the requests for slots on the valid flags alone
  and so says, from the state before the copy, whether it succeeds and whether an ECM head is lost.
  `ScanTs.Scan` is the whole way from the tables to the live pools.
- **Sections** (`PsiFilter`, `PsiTheorems`, `PsiLastSection`). Collecting a PSI section from the
  packets of a PID (ISO/IEC 13818-1, sections 2.4.3.3 and 2.4.4.2): only what was sent is returned
  (soundness), and everything sent properly is returned (completeness), also after a gap. Which
  packets count is said by their bytes. The hardware is any sequence of answers, the CRC any function.
- **Board-to-board transfer** (`Bytes`, `IpFrame`, `IpSender`, `IpReceiver`, `IpTransfer`). Frames,
  the sender with its shared retry budget, the receiver of an upgrade image, and both together
  over a network that damages requests and replies or cuts them short.
- **Characters** (`RankDict`, `Utf8`). The rank dictionary against "position in the sorted list of
  code points", and UTF-8 (RFC 3629, section 3) both ways, for characters and strings.
- **Menus** (`Mmi`). The two-pass conversion of menus and lists (EN 50221, section 8.6.5).
- **Hardware table** (`Lut`, `LutTree`, `LutTable`, `LutTheorems`). Collecting the PIDs of a stream
  without duplicates, sorting, packing, and what is sent on compared with the tree of the stream.

Where the program updates something in place, the model does too: the pools, the receiver's
globals, the entry list and the hardware cells are fields that methods reassign, buffers are
arrays. Sockets, clocks, the tuner, `malloc`, `realloc` and the hardware are parameters: sequences
of outcomes, or functions that answer. Parsed tables are arbitrary values.

## Where the code does less than it is meant to

Each of these is proved as a fact about the model, with the condition under which it does not happen.

- The copy of an elementary stream keeps a pointer to its slot across an allocation. When that
  allocation moves the PID pool, the head of the ECM chain is written to the old block.
  `TsAlloc.LosesHead` is the exact condition for a whole stream, on the state before the copy
  (`TsCopyStream.CopyStream`), and `TsCopy.LosesEcmHead` the one for a single PID.
  `TsTheorems.LostHeadExample` is a concrete input, `TsTheorems.LostHeadReads` what is read after it,
  `TsTheorems.RoomIsEnough` what a caller can check.
- The copy asks for EMMs and other PIDs together, and for at most 300 slots at once. A scan may leave
  299 of each, and such a stream cannot be copied (`TsAlloc.CopyLimits`). Within the limits, room for
  all requests is enough (`TsAlloc.RoomSucceeds`).
- A copied ECM does not name its elementary stream (`TsTheorems.CopiedEcmsAreOrphans`).
- The number of PIDs lies behind a list of 8191 entries, so with all 8192 PIDs present the last
  entry is lost (`PidMap.ListIsExact`). The PIDs left over are not affected (`ParseSi.LeftoverIsThePartition`).
- The PIDs that tables name are recorded in such a list too, each as often as it is named, without a
  look at its end; the 8192nd record is written over the count. `ScanNeeds.Records` is how many there
  are, for every map and all tables. Up to 8191 the scan is right (`ParseSi.Parse`); 42 programs that
  share 195 elementary streams are too many, in a scan that succeeds (`ScanLimits.TooManyRecords`).
- The header checks read seven bytes even when the first packet holds fewer
  (`PsiTheorems.HeaderMustFit`).
- A table found on the very last try is written, and reported as a timeout
  (`PsiLastSection.GetLastSectionNum`).
- The number of the fragment expected next is never set back, so only the first upgrade after a
  start can complete (`IpReceiver.OnlyOneSession`), until the 32-bit counter has wrapped
  (`IpReceiver.ImageHasSession`).
- Other data between two fragments moves the write position of the image. For any interleaving, the
  file is right exactly when there is none (`IpReceiver.FilesAreComplete`; `IpReceiver.DataInBetween`
  for two fragments). Behind fragments, such data also has fewer than its 2800 bytes
  (`IpReceiver.NextStaysInside`).
- The block for an image has the size that fragment 0 names, computed in 32 bits, and later fragments
  are copied without looking at it. `IpReceiver.InsideExactly` says when they stay inside,
  `IpReceiver.OneSumIsInside` that one sum without wrap suffices, `IpReceiver.LargerSumOverruns` is an
  input. An upgrade of more than 4,294,966,200 bytes wraps (`IpTransfer.TransferIsExact`).
- Requests and replies shorter than 20 bytes are not detected: the frame before them is used again.
  `IpTransfer.SuccessIsTheFile` is the exact condition under which the sender's success still means
  the file, `IpTransfer.ShortRequests` and `IpTransfer.ShortReplies` what it comes to when only
  requests or only replies suffer, and `IpTransfer.ShortAtFirst` what a receiver makes of short requests
  before any other. `IpTransfer.ShortRequestIsAcknowledged` and
  `IpTransfer.ShortReplyIsAcknowledgement` are inputs, for two fragments.
- The PMTs sent on are those of the stream that the first slot with the channel's number names, in use
  or not. Deletion clears a slot to zero (TSConstruct.c:3763), so with slot 0 cleared and the stream of
  channel 0 in a later slot none of its PMTs is sent on (`LutTheorems.ClearedSlotHidesPmts`).
  `LutTheorems.TableSendsWhatIsMet` is the exact condition for any state, and
  `Lut.FirstSlotIsTheStream` says when the slot is the stream's own.
- unicode32ToUtf8 passes its limit on the number of characters as the room for one character, and
  copies with the error code as a length. `Utf8.TextToUtf8` says exactly when; a limit of at least
  three excludes it.
- For a stream that is passed on as a whole, the number of table entries is not reported
  (`Lut.GetEntries`).

## Model

| member | source | states |
|---|---|---|
| TsBuild.SetPat | src/TSProcess/TSProcess.c:1106-1186 | The stream's program chain is the old chain followed by the PAT's programs in table order, in slots that were free, each once; the count is the length of the chain; every other slot in use is unchanged; a failure changes nothing in use; success is guaranteed when the chain is short and there is room. |
| TsBuild.SetCat | src/TSProcess/TSProcess.c:1403-1485 | The same for the EMM chain and the CAT; an empty CAT changes nothing. |
| TsBuild.SetOther | src/TSProcess/TSProcess.c:1584-1639 | The same for one other PID; a chain that cannot be walked leaves the new slot taken and the stream as it was. |
| TsAppend.AppendDone | src/TSProcess/TSProcess.c:1145-1181 | The finished append loop, for any well-formed chain: one longer chain, ended by INDEX_INVALID, and nothing else in use moved. |
| TsPmt.SetPmt | src/TSProcess/TSProcess.c:1199-1390 | Exactly the slots asked for are taken, all free before, each used once; the program read back is the PMT: elementary streams in table order, each with its ECMs in table order, and the program's ECMs, every chain ended. There is a PCR node, with one slot of its kind, exactly if the PCR PID is below 0x1FFF; otherwise the program points nowhere and its PCR PID is 0x1FFF. Beyond the limits nothing is taken. |
| TsPmt.PmtShapeDealt | src/TSProcess/TSProcess.c:1260-1377 | The interleaved dealing of PCR, streams, their ECMs and program ECMs uses up the whole list, and no two nodes share a slot. |
| TsPmt.EsShapesDealt | src/TSProcess/TSProcess.c:1279-1345 | After n elementary streams exactly a prefix of the list is used, and their slots are pairwise disjoint. |
| TsPmt.CountSlots | src/TSProcess/TSProcess.c:1239-1251 | The number asked for is one slot for every PID that the PMT names, the PCR counted exactly if it is below 0x1FFF. |
| TsPmt.PmtTreeDescribes | src/TSProcess/TSProcess.c:1260-1377 | The tree of a PMT told number by number from the table: a PCR node exactly below 0x1FFF, one node with type and ECMs for each stream, one for each program ECM, with kinds, PIDs, owners and CA system ids. |
| TsScan.BuiltAtStart | src/TSProcess/TSProcess.c:2838-2851 | A cleared pool with an initialised stream is the start of a scan: the empty tree. |
| TsScan.BuiltByPat | src/TSProcess/TSProcess.c:1145-1183 | Entering the PAT keeps the pool a tree with no shared slots; its programs are the old ones followed by empty ones in table order. |
| TsScan.BuiltByPmt | src/TSProcess/TSProcess.c:1260-1387 | Entering a PMT replaces one empty program of the tree by the program of the table and leaves all the others as they were. |
| TsScan.BuiltByCat | src/TSProcess/TSProcess.c:1447-1482 | Entering a CAT appends its EMMs to the tree and moves nothing else. |
| TsScan.BuiltByOther | src/TSProcess/TSProcess.c:1613-1636 | Entering another PID appends it to the tree and moves nothing else. |
| PidMap.GetAllPids | src/TSProcess/TSProcess.c:306-330 | What a reader finds in the buffer afterwards, for every map of 8192 bits. |
| PidMap.ListIsExact | src/TSProcess/TSProcess.c:312-330 | The list is strictly increasing and is the list of all set bits exactly when some bit is clear; with all bits set the last entry reads 8192. |
| PidMap.IsPidExist | src/TSProcess/TSProcess.c:345-365 | True exactly for the members of the list. |
| ParseSi.LeftoverIsThePartition | src/TSProcess/TSProcess.c:1989-2007 | For every map, a full one included, the leftover PIDs are exactly those seen, other than the null PID, that no table accounts for; increasing, each once. |
| ParseSi.EachTableOnce | src/TSProcess/TSProcess.c:1750-1900 | PAT and CAT are each handled once, the PAT first, although the loop only compares with the PIDs recorded so far. |
| ParseSi.ReadTables | src/TSProcess/TSProcess.c:1748-1900 | Succeeds exactly if PAT, CAT and SDT can be fetched as far as they are asked for and programs and EMMs find room; the tree then has the programs of the PAT, and the EMMs of the CAT exactly if PID 1 was seen; the recorded PIDs are those the tables account for, and how many there are. |
| ParseSi.ReadPmts | src/TSProcess/TSProcess.c:1914-1987 | Succeeds exactly if every PMT asked for is fetched, keeps its limits and finds room; exactly the programs whose PMT PID was seen are then filled, each with its own PMT; the PIDs these name, the PCR among them, are recorded exactly as long as the list of 8191 cells has room, and when it has is stated. That these are the PIDs of the nodes is `ScanTheorems.OthersHaveNoPlace`. |
| ParseSi.AddOthers | src/TSProcess/TSProcess.c:1989-2007 | The other PIDs of the tree grow by the PIDs not recorded, in order; succeeds exactly if each finds a slot and a chain of fewer than 300. |
| ParseSi.Parse | src/TSProcess/TSProcess.c:1653-2010 | If the records fit into their list, the scan succeeds exactly if all it fetches is there and all it requests is granted, and the pool then holds exactly the tree that the tables and the map describe: with a PAT, and without one (the first 200 PIDs), and with no PID at all. Whether they fit is given by the tables and the map. What that tree is, is told by the next four rows. |
| ScanTheorems.TreeIsDescribed | src/TSProcess/TSProcess.c:1748-1987 | With a PAT: one program for each of its entries, in order, filled from its own PMT exactly if that PMT was seen, and the EMMs of the CAT exactly if PID 1 was seen; node by node with all numbers. |
| ScanTheorems.OthersHaveNoPlace | src/TSProcess/TSProcess.c:1914-2007 | With a PAT: the other PIDs of the tree are exactly the PIDs seen below 0x1FFF that are not 0, 1, 0x10 or 0x11, not the PID of a PMT, and not the PID of a node of a program or of an EMM; increasing, each once. |
| ScanTheorems.WithoutPat | src/TSProcess/TSProcess.c:1710-1747 | Without a PAT: no programs, no EMMs, and as other PIDs the first 200 seen. |
| ScanNeeds.ScanSucceeds | src/TSProcess/TSProcess.c:1653-2010 | Given the tables, fewer than 300 programs, at most 300 EMMs and other PIDs each, PMTs within their limits, room for the indices and a realloc that never fails, everything a scan requests is granted, however full the pools are. |
| ScanLimits.TooManyRecords | src/TSProcess/TSProcess.c:1945-1971 | 42 programs with 195 shared elementary streams: the scan succeeds, within all limits, and records 8275 PIDs in a list of 8191. |
| TsScanCopy.BuiltIsScanned | src/TSProcess/TSProcess.c:2853-2881 | A pool left by the scan meets what the copy needs of its source, and reads back as its tree. |
| ScanTs.Scan | src/TSProcess/TSProcess.c:2809-2929 | From tables to live pools, as long as the records fit: the tables are read exactly if all that is fetched is there and the temporary pools have room, and with a PAT no PID is entered both as an other PID and elsewhere; a new channel then gets a stream exactly if a stream slot is free and the copy is granted all its requests; the stream is in a slot that was free and stands for what the tables said, exactly if no ECM head was lost, for which the condition is given; a known channel changes nothing. |
| TsCopy.CopyPid | src/TSProcess/TSProcess.c:2345-2442 | One PID and its ECMs, for every pool and every answer of realloc: exactly when it succeeds, which slots are taken, what they hold, and exactly when the ECM head is lost. |
| TsCopy.CopiedPidInPlace | src/TSProcess/TSProcess.c:2375-2439 | The copy stands for the same tree as the source exactly when no head is lost, and a head is lost only when the pool grew. |
| TsCopyProg.ReservePids | src/TSProcess/TSProcess.c:2494-2511 | The siblings are marked valid and otherwise untouched, so no nested allocation takes them. |
| TsCopyProg.CopyPcr | src/TSProcess/TSProcess.c:2513-2540 | With a PCR its slot holds the copy; without one the last slot reserved is free again, as it was. |
| TsCopyProg.CopyProg | src/TSProcess/TSProcess.c:2457-2621 | Succeeds exactly if all its requests are granted and all links lead into the source; the slots are new, disjoint, and at most as many as the tree has nodes; a head is lost exactly as the requests foretell, and then one leads elsewhere than to its ECMs; otherwise the program reads back as the source's tree with its new owners. |
| TsCopyStream.CopyStream | src/TSProcess/TSProcess.c:2635-2797 | Succeeds exactly if all its requests are granted and all links lead into the source; the new stream stands for the tree of the source, node by node with its new owners, and as read by counts and links, exactly if no ECM head is lost, which is foretold exactly from the pools before; slots newly taken, no two nodes sharing one, other programs and PIDs untouched. |
| TsTheorems.StreamReach | src/TSProcess/TSProcess.c:2673-2797 | The slots reached by walking the stream are exactly the slots of its nodes. |
| TsTheorems.CopyNeitherLeaksNorAliases | src/TSProcess/TSProcess.c:2635-2797 | The slots newly in use are exactly those reachable from the new stream, each serving once; whatever was in use before is unchanged. |
| TsScanCopy.OtherStreamsReadTheSame | src/TSProcess/TSProcess.c:2635-2797 | Whatever is copied, lost head or not, every other stream of the live pools stands for the same tree as before and reads the same. |
| TsTheorems.CopiedEcmsAreOrphans | src/TSProcess/TSProcess.c:2416-2422 | ECMs of a copied stream would name it as their owner only if there were none. |
| TsTheorems.LostHeadExample | src/TSProcess/TSProcess.c:2391-2408 | A stream with one program (PCR, one elementary stream, one ECM) and a pool with two free slots: the copy succeeds and loses the head. |
| TsTheorems.LostHeadReads | src/TSProcess/TSProcess.c:2391-2408 | In that example the copied elementary stream is read with whatever another owner keeps in the third slot in place of its ECM. |
| TsAlloc.RoomSucceeds | src/TSProcess/TSProcess.c:2635-2797 | A sound source within the limits is copied, without a lost head, whenever the free slots suffice for all requests, whatever realloc would answer. |
| TsAlloc.CopyWithMemory | src/TSProcess/TSProcess.c:2635-2797 | While realloc does not fail and the indices have room, a sound stream within the limits can be copied into any pools, however full. |
| TsPool.GrantedWithMemory | src/TSProcess/TSProcess.c:2494-2511 | A request of at most 300 slots is granted whenever realloc does not fail and the indices have room, for both pools with their growth of 100 and 500. |
| TsAlloc.CopyLimits | src/TSProcess/TSProcess.c:2635-2797 | A copy that succeeds has at most 300 programs, at most 300 EMMs and other PIDs together, at most 299 siblings in a program and 300 ECMs below a PID, and no link out of the source. |
| TsTree.StreamAtReads | src/TSProcess/TSProcess.c:2276-2325 | A tree in place node by node is the tree that reading by counts and links gives. |
| PsiFilter.LookAt | src/TSProcess/TSProcess.c:518-602 | A packet gives a payload exactly if its 13 PID bits are the PID, the error bit is clear, a payload is announced, adaptation and pointer fields end inside the packet, and it starts a section when that is waited for; start, counter and position are those of bytes 1, 3, 4 and the pointer; other packets count one error. |
| PsiFilter.LookIsByBytes | src/TSProcess/TSProcess.c:518-602 | The same of the specification `Look` for every memory, with exactly which packets count an error and which are passed over. |
| PsiFilter.FilterPsi | src/TSProcess/TSProcess.c:463-697 | The loop over the buffer gives the outcome and the bytes of the state machine `Run`; at most 1024 bytes are written, and the success behind the loop is never reached. |
| PsiTheorems.SoundStep | src/TSProcess/TSProcess.c:503-686 | Every packet keeps the state explained: nothing collected, or the payload of a run of packets with consecutive counters from a section start on. |
| PsiTheorems.Soundness | src/TSProcess/TSProcess.c:463-697 | Success implies a run of packets whose 13 PID bits are the PID, without the error bit, from one that begins the wanted section, counters rising by one modulo 16, nothing left out in between, whose payload cut at section_length + 3 is the result, with zero CRC, within 3000 tries. |
| PsiTheorems.OthersCountAsErrors | src/TSProcess/TSProcess.c:525-534 | A packet of another PID or with the error bit is harmless at any time and counts exactly one error. |
| PsiTheorems.SentIsWanted | src/TSProcess/TSProcess.c:603-642 | A section returned after a first slice of seven bytes or more carries the wanted table id, section number and service id, and its own length. |
| PsiTheorems.LookFindsSlice | src/TSProcess/TSProcess.c:545-602 | In a packet laid out by the standard, with any adaptation field and pointer field, the filter finds the slice that was put there. |
| PsiTheorems.Completeness | src/TSProcess/TSProcess.c:463-697 | Any section with zero CRC, cut into slices of any sizes, the first holding the header, delivered among harmless answers within the budgets, is returned byte for byte. |
| PsiTheorems.CompletenessFrom | src/TSProcess/TSProcess.c:463-697 | The same from any state that waits for a section start, with whatever errors and bytes are left from before. |
| PsiTheorems.SectionAfterGap | src/TSProcess/TSProcess.c:641-655 | A counter gap while a section is collected drops it and counts one error; a section delivered behind the gap is returned byte for byte. |
| PsiTheorems.OnePacketIsEnough | src/TSProcess/TSProcess.c:503-686 | A section of up to 183 bytes in a single packet is returned at the first try. |
| PsiTheorems.HeaderMustFit | src/TSProcess/TSProcess.c:605-642 | The start of a section is accepted whatever lies behind the packet exactly when its slice has seven bytes or more. |
| PsiLastSection.GetLastSectionNum | src/TSProcess/TSProcess.c:711-856 | Success exactly if a packet that begins the table, by its bytes, is met before the last try; met on the last try, the number is written and a timeout reported; not met, nothing is written. |
| IpFrame.LoadData | src/Comm/IPComm.c:67-94 | The buffer holds slot, a zero, command, numbers, length, data, zeros up to a multiple of four and the CRC, byte by byte and least significant byte first, and is untouched behind it. |
| IpFrame.SealedCoversAll | src/Comm/IPComm.c:67-107 | What is sent ends with the CRC of its 16 header bytes and all its data. |
| IpFrame.AcceptedIsIntact | src/Comm/IPComm.c:385-443 | An accepted string has the length its field says, at most 1400 bytes of data, and ends with the CRC of header and all data; slot, command and numbers are those of its bytes. |
| IpFrame.ParseOfLoad | src/Comm/IPComm.c:385-443 | Parsing a loaded frame gives back slot, command, fragment numbers and data for every length and padding. |
| IpFrame.LoadOfParse | src/Comm/IPComm.c:385-443 | Loading what was parsed from an accepted byte string gives that string, with byte 1 and the padding zero. |
| IpSender.SendFragment | src/Comm/IPComm.c:738-771 | One fragment: acknowledged, or given up with the retries used up; every attempt sent this fragment. |
| IpSender.RequestIsLaidOut | src/Comm/IPComm.c:713-745 | What goes over the wire for fragment i, byte by byte: slot, command, i, the number of fragments, and the data from 1400 i on, with the CRC behind it. |
| IpSender.SendData | src/Comm/IPComm.c:713-786 | Whatever the network does: fragments go out in order, the next only after an acknowledgement; success means all were acknowledged, the bytes counted are the data's, and at most two attempts failed; never more than three attempts beyond the number of fragments. |
| IpSender.AckedDataIsPrefix | src/Comm/IPComm.c:773-777 | The acknowledged fragments, one after the other, are the beginning of the data, and the whole once all are acknowledged. |
| IpReceiver.Server.DoUpgrade | src/Comm/IPComm.c:298-345 | The branch, statement by statement, has the effect of `Upgrade` on all globals, the size of the block and whether the copy stays inside it included. |
| IpReceiver.Server.Handle | src/Comm/IPComm.c:484-486 | One round of the server, parsing ignored when it fails, has the effect and the reply of `Serve`; the reply says success exactly for the six commands 0x101, 0x10A, 0x102, 0xF01, 0x201 and 0x202. |
| IpReceiver.ImageIsTheFragments | src/Comm/IPComm.c:298-345 | For every run of frames: there is an image exactly when all fragments since the start came once each in order from 0 on, none was the last, and there was memory; as long as all copies stayed inside, the write position is the length of their data and of other data in between, and without the latter the image is their data. |
| IpReceiver.ImageHasSession | src/Comm/IPComm.c:298-345 | For runs of upgrade frames of any length that stay inside: an image always holds the frames of one session in order, which began with the counter at zero, and fits into its block. |
| IpReceiver.FilesAreComplete | src/Comm/IPComm.c:285-342 | For every run of frames of any commands: a file is handed on with an image exactly when it is complete and in order, nothing was left out before it and there was memory; as long as all copies stayed inside, it is the data exactly if moreover no other data came in between. |
| IpReceiver.OnlyOneSession | src/Comm/IPComm.c:298-326 | A session that begins after any other frame never gets an image. |
| IpReceiver.DataInBetween | src/Comm/IPComm.c:285-296 | The same for two fragments with other data between them. |
| IpReceiver.InsideExactly | src/Comm/IPComm.c:300-315 | For every run of upgrade frames: no copy leaves its block exactly when each fragment that is copied ends within the size that the first one named, in 32 bits. |
| IpReceiver.OneSumIsInside | src/Comm/IPComm.c:306-315 | Frames that all name the same sum stay inside, if that many full fragments do not wrap. |
| IpReceiver.NextStaysInside | src/Comm/IPComm.c:285-317 | With an image, the next frame stays inside exactly if it ends within the block, or within 2800 bytes for other data, counted from the shared position. |
| IpReceiver.LargerSumOverruns | src/Comm/IPComm.c:306-315 | A sum of two first and a larger one next: the third fragment leaves the block. |
| IpTransfer.OneExchange | src/Comm/IPComm.c:755-772 | Seen from both ends, for a receiver in step with any number of fragments: a request is received, taken for the frame before it, or ignored; what each does to the receiver and to the reply. |
| IpTransfer.TransferIsExact | src/Comm/IPComm.c:713-786 | End to end, with nothing cut short and replies intact: all fragments acknowledged if and only if the receiver handed on exactly the sender's data, and no file otherwise; the memory is left exactly when the size of the whole wraps and a fragment was acknowledged. |
| IpTransfer.SuccessIsTheFile | src/Comm/IPComm.c:713-786 | For any number of fragments and a network that may damage or cut short requests and replies, the first request not being cut short unless the receiver's structure starts with a frame it ignores: a sender with everything acknowledged has made the receiver hand on exactly the data, inside its memory, if and only if at every exchange receiver and sender both saw success just when the request arrived as sent, and the size does not wrap. |
| IpTransfer.ShortRequests | src/Comm/IPComm.c:393-397 | With intact replies this holds exactly if no request that arrived short was acknowledged. |
| IpTransfer.ShortReplies | src/Comm/IPComm.c:759-766 | With no request cut short it holds exactly if at every reply that did not arrive as sent the sender was left with a success just when the request had arrived. |
| IpTransfer.ShortAtFirst | src/Comm/IPComm.c:484-486 | As long as only short requests have arrived, the receiver has handled the frame its structure started with, once for each of them, and has said success unless that frame means nothing to it. |
| IpTransfer.StaleFragmentSpoils | src/Comm/IPComm.c:317-326 | If that frame is a fragment other than the first, no file of the transfer is ever the data, whatever follows. |
| RankDict.CountBelow | src/char_conversion/char_conversion.c:2669-2678 | Masking and adding up in pairs, nibbles and bytes counts the set bits below i, for every 16-bit mask. |
| RankDict.PresentIs | src/char_conversion/char_conversion.c:2651-2668 | A code point is present exactly if its bit, by the lowest hexadecimal digit, is set in the entry of its page, for the six literal ranges. |
| RankDict.BlockRank | src/char_conversion/char_conversion.c:2149-2637 | If each number continues the one before, across all pages, it is the number of code points present below its block. |
| RankDict.TableSize | src/char_conversion/char_conversion.c:2631-2637 | The table of codes has exactly one entry for every code point present. |
| RankDict.PositionIsRank | src/char_conversion/char_conversion.c:2651-2687 | The rank of a present code point is its position in the sorted list of all present ones, hence in range. |
| RankDict.RankIncreases | src/char_conversion/char_conversion.c:2651-2687 | Ranks are strictly increasing in the code point. |
| RankDict.Wctomb | src/char_conversion/char_conversion.c:2651-2687 | Succeeds exactly on present code points, and then writes the code at their position; fails with the right code otherwise and writes nothing; all table accesses are in bounds. |
| RankDict.LastPageIsRanked | src/char_conversion/char_conversion.c:2631-2637 | The numbers of the last page, as they are, continue each other up to the size of the table of codes. |
| RankDict.Mbtowc | src/char_conversion/char_conversion.c:1180-1213 | Succeeds exactly for a valid row and column with a mapped entry, whatever the top bits; never reads outside the tables. |
| RankDict.EncodeDecode | src/char_conversion/char_conversion.c:2912-2931 | With tables that agree, a present code point comes back from its two bytes, also with their top bits set. |
| Utf8.UcsToUtf8 | src/char_conversion/char_conversion.c:2800-2842 | The fall-through writes the standard's encoding for every code point below 0x110000 (the first byte in the range for its length, 10 in front of the bits of every other byte), and nothing when it fails. |
| Utf8.StandardBytes | src/char_conversion/char_conversion.c:2826-2840 | The first byte of an encoding tells its length by range, and every further byte is between 0x80 and 0xBF. With the round trip this fixes every byte. |
| Utf8.DecodeOfEncoded | src/char_conversion/char_conversion.c:2700-2751 | Decoding an encoded code point gives the code point and its number of bytes, for every code point. |
| Utf8.TextToUtf8 | src/char_conversion/char_conversion.c:2843-2873 | For every limit: exactly when a copy of negative length happens; otherwise the bytes written are those of the longest prefix that fits, cut between characters, none of them zero, with a zero behind. |
| Utf8.Utf8ToText | src/char_conversion/char_conversion.c:2763-2798 | How many characters are counted and how many stored, for every memory contents and every room, none and negative ones included. |
| Utf8.RoundTrip | src/char_conversion/char_conversion.c:2763-2873 | Without such a fault, text to UTF-8 and back is the longest prefix that fits, unit by unit the low 16 bits of the text; count and stored units follow the room. |
| Mmi.BodyFits | src/CI/CI_MMI.c:142-175 | The texts never need more than the space reserved, for menus and for lists. |
| Mmi.ItemOfObject | src/CI/CI_MMI.c:148-167 | An object with any tag and a length of one, two or three bytes, as the standard writes it, is read as that tag with its text behind the length. |
| Mmi.FillText | src/CI/CI_MMI.c:202-224 | A text is copied without the six control codes, a zero behind it, nothing further on touched. |
| Mmi.Convert | src/CI/CI_MMI.c:142-231 | Both passes visit the same objects and end; the message is header, texts, final zero and filling; bytes 0 to 5 are kind, slot, session with the high byte first, number of texts modulo 256, and number of choices with three more. |
| Mmi.PrintableKeeps | src/CI/CI_MMI.c:205-218 | Exactly the six literal control codes disappear, and a text without any stays as it is. |
| Mmi.StringsOfBody | src/CI/CI_MMI.c:221-230 | Reading the message as zero-terminated strings gives back the texts. |
| Lut.EntryList.Add | src/LUT/lut.c:153-159 | An entry is added exactly if it is not there and there is room. |
| Lut.CollectIsASet | src/LUT/lut.c:150-380 | Entries are distinct, of one stream, at most 2048, as many as there are different PIDs up to that limit; every PID has its entry exactly when the limit is not exceeded. |
| Lut.GetEntries | src/LUT/lut.c:124-381 | Succeeds exactly if one of the first four slots in use has the channel and it is passed on as a whole or every chain walked ends at its count, below 300. The list then holds what the nested walks visit: PAT, SDT, the PMTs of the stream that the first slot of the channel names, as far as the walk gets, and for each program sent on its PCR, streams with ECMs and ECMs, then EMMs and other PIDs. |
| LutTree.WalkFindsTheTree | src/LUT/lut.c:193-376 | If these are its own programs, the nested walks over a stream in place visit exactly the PIDs of its tree (PMTs, PCRs, elementary streams, ECMs, EMMs, others), programs held back left aside; no node is missed. |
| LutTable.PackingKeepsOrder | src/LUT/lut.c:401-403 | The packed word is injective, never zero, and ordered like stream and PID. |
| LutTable.Sort | src/LUT/lut.c:383-386 | The entries come out sorted, the same ones as often as before, and nothing behind them changes. |
| LutTable.Hardware.Write | src/LUT/lut.c:388-426 | Words of the list, then zeros to the end of the table; cells of other tables stay. |
| LutTable.Hardware.Clear | src/LUT/lut.c:104-121 | All 2048 cells of the table are zero, the others stay. |
| LutTable.TableIsTheList | src/LUT/lut.c:399-419 | A word is in the table exactly when its entry is in the list. |
| LutTable.SentOnMeans | src/LUT/lut.c:394-419 | Sent on means: one of the 2048 cells from 4096 times the table number on holds 0x800000 + stream times 0x2000 + PID. |
| LutTable.SetTable | src/LUT/lut.c:480-508 | Succeeds exactly as the collection does. The table then sends on exactly the PIDs that the walks visit, if there are at most 2048; cleared for a stream passed on as a whole and after an error. |
| LutTheorems.SetTableOfStream | src/LUT/lut.c:480-508 | For a stream in place with chains below 300, setting the table succeeds, and it then sends on exactly what is met, which is the tree if the first slot is the stream's. |
| LutTheorems.TableSendsTheTree | src/LUT/lut.c:480-508 | For a stream in place in the first slot of its channel, with at most 2048 PIDs: a PID is sent on exactly if it belongs to the tree of the stream, programs held back left aside. |
| LutTheorems.TableSendsWhatIsMet | src/LUT/lut.c:170-196 | For a stream in any slot: what is sent on, and that it is the tree exactly if the PMTs met belong to the tree and those of the tree are met or sent on anyway. |
| LutTheorems.ClearedSlotHidesPmts | src/LUT/lut.c:170-196 | With slot 0 cleared and the stream of channel 0 in a later slot, only what is sent on besides PMTs is sent on. |
| Lut.FirstSlotIsTheStream | src/LUT/lut.c:170-184 | The slot taken is the stream's own exactly if it is one of the first four and no slot before it has the channel's number. |

The helpers called at these lines but defined in TSConstruct.c (unused-slot lists, chain walks, last
index, slot initialisation, sorting) are `TsPool.TsInfo.UnusedProgs`, `TsPool.TsInfo.UnusedPids`,
`TsPool.IndexList`, `TsPool.LastIndex`, `TsBuild.InitProg`, `TsBuild.InitPid` and `LutTable.Sort`.

## Left out

- Fixed-size descriptor arrays are sequences; SDT texts, NIT, output side, backup and CAM fields of the pool records.
- Pools of 65,535 slots or more: the growth that would lead there is treated as a failing `realloc`.
- States after a failed copy or scan: there is no rollback in the program, so results on the pools are claimed on success.
- ParseSi.Parse: what follows once more PIDs are recorded than the list holds, because the program then writes over its own count.
- ScanTs.Scan: does not store the configuration in a file afterwards, whose failure the program reports.
- The moment at which a head link is written, before or after the slots it leads to are filled.
- The section buffer of TSP_FilterPSI: its size is the 1024 bytes that all callers pass.
- IpReceiver.Server.Handle: for a frame whose length field exceeds the 1400-byte data area only that memory is left is modelled (`inside` becomes false); the rest of the state then depends on the memory layout and means nothing.
- IpSender.SendFragment: a reply with such a length is taken for its command alone, without the overwriting.
- IpTransfer.SuccessIsTheFile: a short request before any other, at a receiver whose structure does not start harmless, is covered by IpTransfer.ShortAtFirst instead.
- States of the receiver after a copy outside its memory; blocks that are never freed.
- The contents of the buffer behind IPCOMM_SEND_DATA (its size is modelled), and the effects of commands other than upgrades.
- Utf8.TextToUtf8: the buffer is taken to hold zeros at the start, and its contents after a copy of negative length are not modelled.
- The literal GB2312 tables: their continuity is a hypothesis, proved as they are for the last page only; iconv wrappers; gb2312ToUtf8 and utf8ToGb2312 as wholes, which pass byte sizes as element counts.
- Mmi.Convert: menus and lists are one method with a parameter, although the program has two copies; the check of one vendor's rejection text is left out.
- Lut.GetEntries: whether a program is sent on is a parameter, and the index fields of all stream slots are taken to be in range.
- Swapping the two halves of a hardware table after it was written.
- CRC arithmetic, logging, threads, sockets, files, the tuner and the registers of the hardware.
- The web, JSON, XML, status, network, report, upgrade-file and timer modules, the serial link, and the other conditional access resources.
