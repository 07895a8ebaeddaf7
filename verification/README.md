# CloudHands: verified models of the traffic-analysis core

CloudHands receives packets, hands them to analysis tasks over bounded rings, follows TCP and
UDP sessions, captures their payloads and keeps statistics. This project models the parts of it
that carry real algorithms or protocols and proves what they are for. Every `.dfy` file is one
component; `dafny verify dfyconfig.toml` checks all of them.

| files | component |
|---|---|
| `Fnmatch`, `FnmatchTest`, `FnmatchForms` | glob matching against a declarative "there is a split" meaning, and what each form of pattern matches |
| `HandOff`, `HandOffRuns`, `HandOffSegments`, `HandOffLoss`, `HandOffRest`, `HandOffOrder` | the reference-counted packet hand-off, as an interleaved step system: counts, chained packets, lost references, coming to rest, order |
| `Assembler`, `Capture` | the out-of-order fragment buffer and in-order payload capture |
| `Handshake` | the three-way handshake tracker, over every packet trace |
| `Filepath`, `FilepathProps`, `FilepathStack`, `FilepathAnswer` | path merging in one buffer, root containment, stack semantics, idempotence, errors and flags |
| `Mpool`, `MpoolProps`, `MpoolCode` | the pool allocator: small regions, large blocks, reset, destroy |
| `Getopt`, `GetoptCode`, `GetoptForms`, `Blocks` | the option permuter, in place on argv, and command lines as they are written |
| `Monitor`, `MonitorCode` | the table of monitored sessions |
| `Stat`, `Output`, `OutputCode`, `StatOut` | windowed statistics, the output buffer, the serialisers and a reader |
| `Jhash` | the symmetric flow hash and UDP session lookup |
| `List` | the intrusive list, on heap nodes |
| `DataStore` | the pool of payload stores and their owners |
| `CStrings`, `Common` | NUL-terminated strings; optional values and memcpy |

Code that changes things step by step is modelled by classes and methods over arrays, sequences
and heap nodes; each such method is tied by its `ensures` to a function of the old state, and the
properties are proved of those functions over all inputs, runs or traces. What comes from outside
(malloc answers, the clock, table room, the packets and their rings, copy mode, the order of task
steps) is a parameter or a free choice.

## Where the code does less than its surroundings suggest

Each of these is proved as an exact condition or as a concrete counterexample.

- The note at `lib/common/ch_fnmatch.h:67` on empty bracket expressions does not hold: a leading
  `]` is ordinary, so `[]`, `[!]` and `[^]` never close and each matches exactly one string, itself,
  whatever the flags (`FnmatchTest.EmptyClassIsLiteral`).
- With PERIOD a leading period must be matched by the first token of its pattern segment
  (`FnmatchTest.PeriodStandsFirst`; section 2.13.3 of POSIX.1-2017 XCU), so `*.c` does not match `.c`;
  what it does match is exactly `FnmatchTest.StarDotC`.
- The full-ring test and the enqueue of `MProcess/ch_process_interface.c:192-196` are two steps and
  the result of the second is ignored: buffers can be lost exactly when two receive tasks can put on
  one ring and can fill it (`HandOffLoss.CanLoseIffOverrun`).
- The count of two is given to the first segment of a packet only (`packet/ch_packet.h:255`), while
  a release takes all segments. So no run uses a released segment exactly if no TCP or UDP packet that
  gets through both puts is chained (`HandOffSegments.SafeIffNotTwiceChained`); the first segment is
  always safe (`HandOff.NeverUsedAfterRelease`).
- A pool whose size is not a multiple of 8, or below the 80 bytes of its header, hands out memory
  beyond its block, because a negative difference is cast to an unsigned type; with any other size it
  never does (`MpoolProps.ContainedIffSized`).
- A store holds at most 512 bytes. So data_ok is set exactly if payload_data_size is at most 512 and
  no byte below it is missing, and never for a larger size (`Capture.Run`, `Capture.DataOkExactly`).
- The payload of a FIN packet and of packets from an RST on is not captured: what this costs is
  exactly `Capture.LostExactly`, and `Capture.FinDataLost` is a stream that loses its last segment.
- A payload that begins before the first byte of the stream is ignored whole, with what it holds of the
  stream (`Capture.EarlyIgnored`, `Capture.EarlyDataLost`).
- All receive tasks share one statistics pool, and the update of one can fall between the update and
  the packets of another. So slots add up to the totals after every run exactly when there is one task
  at most, the slot length divides the window and the slot count fits 32 bits
  (`Stat.ExactIffOneTaskCovers`).
- The statistics task handles a packet before it updates, so the packet that opens a window is
  counted nowhere (`Stat.TaskTurnUndisturbed`).
- It also returns the entry to its pool before it reads the entry's time for the update
  (`statistic/ch_stat_task.c:11-15`), and a receive task may have filled the entry anew. The balance
  then survives exactly if the packet had a slot or the time read again ends the window
  (`Stat.TaskTurnExact`); `Stat.TaskTurnDisturbed` is a turn that loses it.
- Ends of fragments are computed in 32 bits: the test whether a slice is covered is right, whatever the
  buffer holds, exactly for slices that end below 2^32 (`Assembler.CoveredIffFits`).
- Reading from a capture file, a receive task waits for ever at a ring that can hold nothing; from
  every reachable state in which no task has such a ring before it, all tasks can come to rest
  (`HandOffRest.CanRestIffNotStuck`).
- A merged path that is fed back comes back unchanged exactly if it is canonical
  (`FilepathStack.MergeIdempotent`); empty segments of the root stay in the result
  (`FilepathStack.EmptySegmentStays`).
- A test of the result alone is not SECUREROOTTEST: a path can leave the root and come back
  (`FilepathProps.LeavesAndReturns`); the flag refuses exactly the paths of which some prefix has more
  ".." than names (`FilepathProps.SecureRefusesExactly`).
- The room made for a 16-bit string is computed in 16 bits: the string stays before the end of every
  buffer exactly up to 65533 bytes (`OutputCode.Inside16Iff`), and only up to there is the length
  returned the number of bytes appended (`OutputCode.ReturnedIff`).
- A restart does not look for a running duplicate: two items for one thing run exactly after a restart
  of an item beside which another was added (`Monitor.StepUnique`, `Monitor.TwoRunning`).
- Initialising a session entry clears its store pointers without a look: a run loses a store exactly
  if it initialises an entry that still holds one (`DataStore.LosesIff`).
- `_item_add` answers 1 for a full table; ids start at 12345, so before wrap-around this is no id
  (`Monitor.AddAnswer`).

## Model

| member | source | states |
|---|---|---|
| `Fnmatch.Fnmatch` | lib/common/ch_fnmatch.c:141-340 | for every pattern, string and combination of NOESCAPE, PATHNAME and PERIOD it ends, and answers 0 exactly when some split of the string among the pattern's tokens matches |
| `Fnmatch.GlobIsMatches` | lib/common/ch_fnmatch.c:141-340 | the recursive meaning used in the proof and the declarative "there are cuts" meaning are the same relation |
| `Fnmatch.LeftmostRun` | lib/common/ch_fnmatch.c:256-321 | after a star, committing to the leftmost place where the fixed run fits loses no match |
| `Fnmatch.AnchoredRun` | lib/common/ch_fnmatch.c:237-254 | the last fixed run of a segment may be tried at the end of the segment only |
| `Fnmatch.FnmatchCh` | lib/common/ch_fnmatch.c:21-138 | one pattern element is consumed and its answer is that of the token there: escapes, brackets with ranges and negation, unclosed brackets as literals, slashes and leading periods excluded as the flags say |
| `Fnmatch.ScanClass` | lib/common/ch_fnmatch.c:36-109 | the bracket loop finds whether the bracket closes, where, and whether the character is a member |
| `Fnmatch.MatchSegment` | lib/common/ch_fnmatch.c:186-330 | one slash-delimited segment is matched exactly when the rest of the match can be |
| `Fnmatch.MatchFloating` | lib/common/ch_fnmatch.c:286-321 | the search loop finds the leftmost fit of a fixed run, or that there is none |
| `Fnmatch.SkipWild` | lib/common/ch_fnmatch.c:212-227 | collapsing stars and question marks keeps what can still match |
| `FnmatchTest.Test` | lib/common/ch_fnmatch.c:352-381 | the scan answers whether the pattern has glob characters, by its own escape and bracket rules |
| `FnmatchTest.HasGlobExactly` | lib/common/ch_fnmatch.c:352-381 | by the text alone: the scan answers yes exactly if there is an unescaped question mark or star, or an unescaped closing bracket with an unescaped opening one somewhere before it, escaped meaning behind an odd number of backslashes |
| `FnmatchTest.NoGlobAcceptsOneString` | lib/common/ch_fnmatch.c:352-381 | if the scan finds no glob characters, the matcher with flags 0 accepts exactly the unescaped pattern |
| `FnmatchTest.EmptyClassIsLiteral` | lib/common/ch_fnmatch.h:67-68 | for every string and all flags, the patterns of an empty bracket expression, plain or negated, match exactly themselves, unlike the header's note |
| `FnmatchTest.PeriodStandsFirst` | lib/common/ch_fnmatch.c:173-184 | with PERIOD, in every way to match, each leading period of the string or, with PATHNAME, of one of its segments is matched by a period token that stands first in the pattern or right behind a slash token |
| `FnmatchTest.StarDotC` | lib/common/ch_fnmatch.c:173-184 | for every string and all flags: what a star followed by a fixed suffix with a period matches |
| `FnmatchForms.BracketMatches` | lib/common/ch_fnmatch.c:32-103 | for every list of characters and ranges, written out with escapes where needed: the bracket expression matches exactly the one-character strings whose character is named, the negated one exactly the others, and neither a slash under PATHNAME or a leading period under PERIOD |
| `FnmatchForms.RangeMatches` | lib/common/ch_fnmatch.c:69-92 | a range of seven-bit characters, plain or negated, in terms of character codes |
| `FnmatchForms.SetMatches` | lib/common/ch_fnmatch.c:94-103 | a list of characters, plain or negated, in terms of membership |
| `FnmatchForms.LeadingCloseMatches` | lib/common/ch_fnmatch.c:41-43 | a closing bracket that stands first is a member |
| `FnmatchForms.ByteOrder` | lib/common/ch_fnmatch.c:82-84 | the order of ranges is that of signed characters |
| `FnmatchForms.QuestionMatches` | lib/common/ch_fnmatch.c:111-116 | a question mark matches any one character but those two |
| `FnmatchForms.EscapeMatches` | lib/common/ch_fnmatch.c:118-127 | a backslash makes any character an ordinary one |
| `FnmatchForms.NoEscapeMatches` | lib/common/ch_fnmatch.c:118-127 | under NOESCAPE the backslash is an ordinary character |
| `FnmatchForms.StarSlashStar` | lib/common/ch_fnmatch.c:141-340 | two stars around a slash match under PATHNAME exactly the strings with one slash, otherwise those with any, with no leading period of a segment under PERIOD |
| `HandOff.StepKeepsInv` | PDispatcher/ch_packet_rxtask.c:116-182 | every step of every task keeps: the reference count of a buffer is its places in rings, plus consumers that hold it, plus puts that are still owed, plus references lost |
| `HandOff.NeverUsedAfterRelease` | MProcess/ch_process_interface.c:159-255 | in every interleaving of any number of receive tasks and consumers the first segment of a packet is not read, written or released after its last release; its count is what its holders owe; receipts are releases plus live buffers |
| `HandOffSegments.SafeIffNotTwiceChained` | packet/ch_packet.h:255-268 | no run uses or releases any segment that is back in the mempool, exactly if no receive task can get a chained TCP or UDP packet whose two puts get through |
| `HandOffSegments.StepKeepsSafe` | MProcess/ch_process_interface.c:231-255 | without such packets every step keeps: a chained packet has a count of one and all its segments, or its task stands for ever before the SA put with at most one delivery made |
| `HandOffSegments.FaultingRun` | PDispatcher/ch_packet_rxtask.c:152-178 | any such packet gives a run, by both puts and the consumers of both rings, that uses its released segments |
| `HandOffLoss.EveryBufferReleased` | StreamAnalyze/ch_sa_session_task.c:21-38 | where no ring can be overrun, when all tasks rest and the rings are empty every buffer received was released, once, with its further segments |
| `HandOffLoss.CanLoseIffOverrun` | MProcess/ch_process_interface.c:159-205 | a run that loses a reference exists exactly when two receive tasks can get packets for one ring that has places, and one of them can put there any number of times or they are more than the places |
| `HandOffRest.CanRestIffNotStuck` | MProcess/ch_process_interface.c:159-205 | from every reachable state a state of rest can be reached, each packet going the way that its content fixes, exactly unless a task that reads a capture file has a put before it, now or later, on a ring of no size |
| `HandOffRest.AllCanBeReleased` | StreamAnalyze/ch_sa_session_task.c:21-38 | so where no ring can be overrun every buffer received so far can still be released |
| `HandOffOrder.FirstInFirstOut` | MProcess/ch_process_interface.c:192-255 | over every run: what the consumer of a ring has handled, then the packet it holds, then the packets on the ring are exactly the packets that were put there, in the order of the puts |
| `HandOffOrder.ReceivedOrder` | PDispatcher/ch_packet_rxtask.c:116-182 | over every run: what a receive task has put on a ring is what it received, some left out, in the order of receipt |
| `HandOffOrder.EveryPacketPut` | MProcess/ch_process_interface.c:159-205 | over every run: the packets received that are due on a ring (a TCP packet on its TCP ring, a UDP packet that is not filtered on its UDP ring, any accepted packet on its SA ring) are those enqueued there, refused there, under way there or not yet there; at rest the first two |
| `HandOffOrder.RightRing` | PDispatcher/ch_packet_rxtask.c:152-178 | a put goes to a ring of the interface for the packet's type, and then to one of the SA interface |
| `HandOffOrder.CountersCount` | MProcess/ch_process_interface.c:176-199 | packets, ok_packets and error_packets are the numbers of packets that chose the ring, were enqueued and were refused |
| `HandOffOrder.CopiedExactly` | MProcess/ch_process_interface.c:241-253 | a consumer works on the shared packet exactly if its ring is not in copy mode and the packet has one segment |
| `Assembler.FreeCovered` | tcp/session/ch_assemble_fragment.c:193-210 | fragments inside the new one are freed; the new one is dropped if it lies inside a kept one; coverage is that of both |
| `Assembler.CoveredIffFits` | tcp/session/ch_assemble_fragment.c:188-191 | the 32-bit test for a covered slice is right, whatever the buffer holds, exactly if the slice ends below 2^32 |
| `Assembler.Trim` | tcp/session/ch_assemble_fragment.c:81-108 | the overlap with the neighbours is cut off and nothing else |
| `Assembler.Merge` | tcp/session/ch_assemble_fragment.c:115-186 | touching neighbours are joined; order, gaps and coverage are kept |
| `Assembler.FreeStale` | tcp/session/ch_assemble_fragment.c:260-283 | what lies below the offset is dropped or cut, all else stays |
| `Assembler.Buffer.Push` | tcp/session/ch_assemble_fragment.c:212-249 | the buffer then covers exactly what it covered and the new slice, in separated fragments that are slices of the stream |
| `Assembler.Buffer.Pop` | tcp/session/ch_assemble_fragment.c:285-304 | the fragment that starts at the offset, if any, is taken out with the rest of its coverage kept |
| `Capture.Direction.Process` | StreamAnalyze/ch_sa_tcp_session_handler.c:494-702 | one packet, retransmitted, overlapping or out of order, keeps the store a prefix of the stream and the arrived bytes exactly those below last_offset or in the buffer |
| `Capture.Direction.WritePayload` | StreamAnalyze/ch_sa_tcp_session_handler.c:532-624 | the store grows by what both caps allow; error is set just when no store was got, data_ok just when the cap is reached |
| `Capture.Direction.UpToFirstGap` | StreamAnalyze/ch_sa_tcp_session_handler.c:648-702 | without an allocation failure the store is the stream up to the first byte that no packet carried, cut at the capacity |
| `Capture.Direction.Handle` | StreamAnalyze/ch_sa_tcp_session_handler.c:744-758 | a FIN packet or an empty payload changes nothing; any other packet is processed |
| `Capture.Run` | StreamAnalyze/ch_sa_tcp_session_handler.c:720-758 | over every packet sequence of one stream, unless an allocation failed: byte q of the stream is stored exactly if q is below payload_data_size and 512 and every byte up to q was carried, where a packet that is no FIN and comes before any RST carries q as its i-th byte, i at most q, exactly if its sequence number plus i and the initial one plus q are equal modulo 2^32; data_ok exactly if as many are stored as asked for |
| `Capture.OffsetIs` | tcp/session/ch_tcp_session_endpoint.h:53-56 | the offset is the one 32-bit number that added to the initial sequence number gives the packet's |
| `Capture.EarlyIgnored` | StreamAnalyze/ch_sa_tcp_session_handler.c:494-503 | a payload that holds a byte of the stream but begins before its first byte is ignored whole |
| `Capture.EarlyDataLost` | StreamAnalyze/ch_sa_tcp_session_handler.c:494-503 | a packet that starts one byte early loses its data |
| `Capture.LostExactly` | StreamAnalyze/ch_sa_tcp_session_handler.c:744-754 | less is captured than the packets carried exactly if a byte of that was carried only by FIN packets and by packets from an RST on |
| `Capture.FinDataLost` | StreamAnalyze/ch_sa_tcp_session_handler.c:744-748 | a stream whose only segment is a FIN packet is not captured |
| `Capture.DataOkExactly` | StreamAnalyze/ch_sa_tcp_session_handler.c:607-623 | the captured bytes are all that were asked for exactly if at most 512 were and no byte below is missing |
| `Capture.OrderIrrelevant` | StreamAnalyze/ch_sa_tcp_session_handler.c:648-702 | two captures of the same packets of a stream, in any order and with any repetitions, hold the same bytes |
| `Handshake.SessionIffHandshake` | StreamAnalyze/ch_sa_tcp_session_request_handler.c:287-475 | over every trace, read by its events alone, a packet creates a session exactly if no session is open and it is the first data with or after the ACK of the first SYN+ACK after the SYN that made the request, the ACK's number being that SYN+ACK's plus one modulo 2^32, and nothing ended the request between |
| `Handshake.ReadingIsLog` | StreamAnalyze/ch_sa_tcp_session_request_handler.c:421-461 | whether a session is open and whether a request waits is told by the events alone: completed handshakes, ends of sessions, and SYNs that nothing has ended |
| `Handshake.AllReached` | StreamAnalyze/ch_sa_tcp_session_request_handler.c:287-419 | the phase, the two initial sequence numbers and the response count of every live request say exactly which packets have come since its SYN |
| `Handshake.PhaseMonotone` | StreamAnalyze/ch_sa_tcp_session_request_handler.c:342-415 | three_way_state never moves backward while a request lives |
| `Handshake.OneSessionEach` | StreamAnalyze/ch_sa_tcp_session_request_handler.c:374-408 | no request makes two sessions |
| `Handshake.ThreePackets` | StreamAnalyze/ch_sa_tcp_session_request_handler.c:287-419 | for all sequence numbers, after a SYN and a SYN+ACK a packet with ACK and data creates a session exactly if it acknowledges the number after that of the SYN+ACK, which wraps at 32 bits |
| `Handshake.ControlBits` | packet/ch_packet_tcp.h:46-75 | SYN, RST and ACK are bits 1, 2 and 4 of the flags |
| `Handshake.Connection.ThreeWayHandshake` | StreamAnalyze/ch_sa_tcp_session_request_handler.c:287-419 | the code's updates are those of the step function, and it returns 0 just for a packet that makes a session |
| `Handshake.Connection.Handle` | StreamAnalyze/ch_sa_tcp_session_request_handler.c:421-475 | SYN and SYN+ACK always go to the handshake, other packets to an open session first |
| `Filepath.Merge` | lib/common/ch_filepath.c:65-274 | every outcome is that of the named whole operation, and every write stays inside the maxlen buffer |
| `FilepathAnswer.ErrorsExactly` | lib/common/ch_filepath.c:83-274 | for a given root, each error and when it is answered, in their order, and otherwise the resolved path |
| `FilepathAnswer.SecureContains` | lib/common/ch_filepath.c:84-90 | with SECUREROOTTEST no rooted addpath succeeds, and every success has the slash-terminated root in front |
| `FilepathAnswer.NeverAbsolute` | lib/common/ch_filepath.c:91-113 | with NOTABSOLUTE every success is a relative path, and it refuses exactly a rooted addpath, unless SECUREROOTTEST has, and a rooted root |
| `FilepathAnswer.NeverRelative` | lib/common/ch_filepath.c:153-157 | with NOTRELATIVE every success is a rooted path |
| `FilepathAnswer.AboveNever` | lib/common/ch_filepath.c:256-274 | with NOTABOVEROOT every success has the root in front on a component boundary, the working directory where none is given |
| `FilepathAnswer.CwdExactly` | lib/common/ch_filepath.c:97-131 | the working directory has a say exactly for a NULL root that is needed: there it is the root, or its error is the answer; elsewhere the answer does not depend on it |
| `FilepathAnswer.GivenRoot` | lib/common/ch_filepath.c:115-131 | with a given root the working directory is never read |
| `FilepathAnswer.NullRoot` | lib/common/ch_filepath.c:97-111 | a NULL root that is not needed is the empty one |
| `Filepath.PickRoot` | lib/common/ch_filepath.c:83-131 | the early exits on the flags and the choice between the given root, none and the working directory |
| `Filepath.WalkBuffer` | lib/common/ch_filepath.c:172-255 | the loop over addpath computes the specified text and kept length in the buffer, terminated |
| `Filepath.StepBuffer` | lib/common/ch_filepath.c:181-244 | one segment: nothing for empty and dot segments, crop, append or refuse for dot-dot, append otherwise |
| `Filepath.TestAbove` | lib/common/ch_filepath.c:262-270 | the final test refuses exactly a result that the root is no boundary prefix of, once the root was cut |
| `FilepathProps.UnderRoot` | lib/common/ch_filepath.c:256-274 | a merge that succeeds with NOTABOVEROOT has the given root as a prefix that ends on a component boundary, whatever the paths |
| `FilepathProps.SecureKeepsRoot` | lib/common/ch_filepath.c:172-236 | with SECUREROOTTEST the slash-terminated root is at the front of the text at every turn of the loop, also of a merge that is refused later |
| `FilepathProps.SecureRefusesExactly` | lib/common/ch_filepath.c:133-236 | for every root a merge with it fails exactly for its length, for two relative paths with NOTRELATIVE, or if some prefix of addpath's segments has more dot-dots than names; where it does not fail the flag changes nothing |
| `FilepathProps.LeavesAndReturns` | lib/common/ch_filepath.c:172-274 | a path that leaves the root and comes back is refused with it and accepted with NOTABOVEROOT alone |
| `FilepathStack.MergeIsRawStack` | lib/common/ch_filepath.c:154-254 | for every root and every successful merge of a relative addpath without SECUREROOTTEST the segments of the result are those of a stack of the root's segments as written: empty and dot segments of addpath drop, dot-dot pops whatever is last, stays at the lone slash, and is kept where nothing or a dot-dot is last; when the result ends in a slash is told exactly |
| `FilepathProps.MergeIsStack` | lib/common/ch_filepath.c:133-254 | for a canonical root the components of the result are those of the usual stack: drop empty and dot, pop on dot-dot, keep dot-dot only where nothing is left to pop in a relative path |
| `FilepathProps.MergeRooted` | lib/common/ch_filepath.c:142-152 | under the same flags a rooted addpath gives the stack of its own segments, absolute, whatever the root |
| `FilepathProps.SucceedsExactly` | lib/common/ch_filepath.c:133-274 | without SECUREROOTTEST a merge fails exactly for its length, for two relative paths with NOTRELATIVE, or with NOTABOVEROOT for a result that is not under the root |
| `FilepathStack.MergeIdempotent` | lib/common/ch_filepath.c:133-274 | for every root, feeding a result back as addpath, under any flags but SECUREROOTTEST, returns it unchanged if it succeeds, exactly if the result is canonical; when it succeeds is then told exactly |
| `FilepathStack.MergeAgain` | lib/common/ch_filepath.c:133-274 | under the same absolute root and the same flags the second merge, if it fits, gives the same exactly if the result is canonical |
| `FilepathStack.MergedCanonical` | lib/common/ch_filepath.c:133-254 | the result is canonical for a rooted addpath and for a canonical root |
| `FilepathStack.UnchangedIff` | lib/common/ch_filepath.c:133-254 | any path with nothing before it is left as it is exactly if it is canonical |
| `FilepathStack.EmptySegmentStays` | lib/common/ch_filepath.c:154-170 | a root of two slashes gives a result that is not canonical |
| `MpoolProps.RunInv` | lib/common/ch_mpool.c:13-255 | over every run of small, large and aligned requests, releases and resets: small regions are pairwise disjoint, inside their block past its header; slots are regions of their own; each live heap block is in exactly one place; a block is passed over for good exactly after six failures; every call on the way answers right (AnswerOk), and the small requests are those of up to 4095 bytes that fit behind the pool header |
| `MpoolProps.StepAnswers` | lib/common/ch_mpool.c:89-237 | a small request answers NULL exactly if no block from current on has room and memalign fails, else the address of the newest region, of that size, aligned if asked, cut from the first block with room or behind the header of a new one; a large one and ch_pmemalign answer NULL exactly if malloc fails or no slot can be had, else the live block of that size, in exactly one slot; ch_pfree answers 0 exactly for an address in a slot |
| `MpoolProps.SmallKeeps` | lib/common/ch_mpool.c:89-151 | a small request keeps the invariant, is aligned when asked, and is NULL exactly if no block from current on fits and memalign fails |
| `MpoolProps.LargeKeeps` | lib/common/ch_mpool.c:156-192 | a large block goes into the first empty slot among the first five, or else into a new first slot; if no slot can be made it is released again; NULL exactly on an allocation failure |
| `MpoolProps.SlotKeeps` | lib/common/ch_mpool.c:215-237 | ch_pmemalign always makes a new slot or releases the block |
| `MpoolProps.PfreeOwns` | lib/common/ch_mpool.c:240-255 | ch_pfree answers 0 exactly for an address in a slot, and the slot and the heap block go together |
| `MpoolProps.ResetKeeps` | lib/common/ch_mpool.c:68-87 | after a reset exactly the chain is live and the invariant holds |
| `MpoolProps.EverythingFreedOnce` | lib/common/ch_mpool.c:39-65 | after any run, destroy leaves nothing live, released nothing twice, and releases equal requests |
| `MpoolProps.ContainedIffSized` | lib/common/ch_mpool.c:13-151 | for every pool size: no run hands out memory beyond a block exactly when the size is at least that of the pool header and a multiple of the alignment |
| `MpoolCode.PoolT.PallocSmall` | lib/common/ch_mpool.c:125-151 | the walk from current on serves the request as specified |
| `MpoolCode.PoolT.PassOver` | lib/common/ch_mpool.c:114-118 | the walk to the tail counts failures and moves current as specified |
| `MpoolCode.PoolT.PallocLarge` | lib/common/ch_mpool.c:156-192 | the slot scan stops after five slots and refines the specification |
| `MpoolCode.PoolT.Pfree` | lib/common/ch_mpool.c:240-255 | the scan releases what the first matching slot holds |
| `MpoolCode.PoolT.Reset` | lib/common/ch_mpool.c:68-87 | all blocks rewound past the pool header, all large blocks released, list emptied |
| `MpoolCode.PoolT.Destroy` | lib/common/ch_mpool.c:39-65 | large blocks and then the chain are released, each once |
| `Getopt.RunIsPartition` | lib/common/ch_getopt.c:177-286 | a whole run reports what one left-to-right reading of the words says, ends in the same error or EOF, and parts the words stably |
| `Getopt.SelectPermutes` | lib/common/ch_getopt.c:129-155 | the parted words are a permutation of the given ones |
| `GetoptForms.ReadBack` | lib/common/ch_getopt.c:177-286 | a command line that is written out of operands, long options with and without arguments and groups of letters is read back by the calls: the reports are what was written, the last call answers EOF or the error of the word the line ends in, and at EOF the operands are left in order |
| `GetoptForms.EveryLine` | lib/common/ch_getopt.c:177-286 | every sequence of words is such a line, with one of nine endings: end, double dash, operand, bare dash, unknown letter or name, missing argument of either, argument to an option that takes none |
| `GetoptForms.ShortExactly` | lib/common/ch_getopt.c:260-268 | the row of a letter is the first with it before the end of the table, and there is none otherwise |
| `GetoptForms.LongExactly` | lib/common/ch_getopt.c:214-226 | the row of a long option is the first whose name it is, or stands before its equals sign, and there is none otherwise |
| `Blocks.ExchangeBlocks` | lib/common/ch_getopt.c:135-155 | three reversals exchange two neighbouring blocks |
| `Blocks.Reverse` | lib/common/ch_getopt.c:118-127 | the swapping loop reverses the range in place and nothing else |
| `GetoptCode.GetoptT.Permute` | lib/common/ch_getopt.c:135-155 | the words just consumed move in front of the skipped ones |
| `GetoptCode.GetoptT.Next` | lib/common/ch_getopt.c:177-286 | one call, with long options, clusters of letters, inline and following arguments, "--" and each error, does what the value-level step says |
| `GetoptCode.GetoptT.Run` | lib/common/ch_getopt.c:177-286 | calls until EOF leave options with their arguments first and from ind on the other words, each in the original order, as a permutation; without interleave likewise |
| `Monitor.BestIsDuplicate` | SessionMonitor/ch_session_monitor.c:244-306 | because keys are non-zero and types ranked, best match for a key is an exact search for a running item of that type and key, sessions up to direction |
| `Monitor.MatchByEnds` | SessionMonitor/ch_session_monitor.c:244-267 | for every packet: an IP item matches exactly if one of the two ends has its address, a port item its port, an IP and port item both at one end, a session item if both ends are its own, in either direction |
| `Monitor.MatchBothWays` | SessionMonitor/ch_session_monitor.c:244-267 | the direction of a packet does not matter |
| `Monitor.RunKeeps` | SessionMonitor/ch_session_monitor.c:398-573 | over every run before wrap-around the used items carry strictly increasing ids below the next id and allowed keys |
| `Monitor.StepUnique` | SessionMonitor/ch_session_monitor.c:398-573 | while the running items are for different things, an operation keeps this exactly unless it restarts an item beside a running one for the same thing |
| `Monitor.RunUnique` | SessionMonitor/ch_session_monitor.c:398-573 | over a run they are for different things at all times exactly if no step is such a restart |
| `Monitor.TwoRunning` | SessionMonitor/ch_session_monitor.c:564-573 | add, stop, add and restart of any key give two running items for it |
| `Monitor.AddAnswer` | SessionMonitor/ch_session_monitor.c:398-433 | the answer is an old id exactly for a duplicate, FULL exactly for a full table without one, else a new id above all others |
| `Monitor.AddTwice` | SessionMonitor/ch_session_monitor.c:398-433 | adding the same thing again, a session in either direction, returns the same id and changes nothing |
| `Monitor.DeleteRemoves` | SessionMonitor/ch_session_monitor.c:542-551 | the deleted id is gone and every other id stays |
| `Monitor.DeleteKeepsOthers` | SessionMonitor/ch_session_monitor.c:521-551 | a delete takes away the item with the id and changes no other |
| `Monitor.StatusAlone` | SessionMonitor/ch_session_monitor.c:553-573 | stop and restart change the status of the item with the id and nothing else |
| `MonitorCode.MonitorT.Find` | SessionMonitor/ch_session_monitor.c:269-306 | the loop finds the first of the highest-type running matches |
| `MonitorCode.MonitorT.AddItem` | SessionMonitor/ch_session_monitor.c:372-433 | an add refines appending to the sequence of items |
| `MonitorCode.MonitorT.AddIp` | SessionMonitor/ch_session_monitor.c:435-446 | 0 for a zero address, else the add |
| `MonitorCode.MonitorT.AddPort` | SessionMonitor/ch_session_monitor.c:448-459 | 0 for a zero port, else the add |
| `MonitorCode.MonitorT.AddIpPort` | SessionMonitor/ch_session_monitor.c:461-471 | 0 for a zero address or port, else the add |
| `MonitorCode.MonitorT.AddSession` | SessionMonitor/ch_session_monitor.c:473-488 | 0 if any part is zero, else the add |
| `MonitorCode.MonitorT.MoveElements` | SessionMonitor/ch_session_monitor.c:521-540 | the items behind move up by one in place and the last becomes free |
| `MonitorCode.MonitorT.Del` | SessionMonitor/ch_session_monitor.c:542-551 | a delete refines removal from the sequence |
| `MonitorCode.MonitorT.FindById` | SessionMonitor/ch_session_monitor.c:490-505 | lookup by id is lookup in the sequence |
| `MonitorCode.MonitorT.SetState` | SessionMonitor/ch_session_monitor.c:553-573 | stop and restart change one item's state only |
| `Stat.ExactIffOneTaskCovers` | PDispatcher/ch_packet_rxtask.c:226-245 | the slots add up to pkt_total and pkt_bytes after every run of n receive tasks, their updates and packets interleaved, exactly if there is no task, or one and the slots cover the window; time need not be monotone |
| `Stat.RunSplits` | statistic/ch_stat_pool.c:137-196 | with packet types 1 to 5 every slot of the ALL series is the sum of the typed slots, in count and bytes, after every run of any number of tasks |
| `Stat.RunMeans` | statistic/ch_stat_pool.c:137-196 | after every run of any number of tasks slot i of each series holds the number and bytes of exactly the packets of its type, handled since the window began, whose time lies in its i-th interval, and the totals hold all packets since then, if the times read lie within 2^32 slots |
| `Stat.OneTaskMeans` | statistic/ch_stat_pool.c:137-196 | the same for a single task whatever the times, if the slots cover the window |
| `Stat.HandleMeans` | statistic/ch_stat_pool.c:149-162 | a packet keeps this exactly unless its 32-bit slot index wraps into the window |
| `Stat.HandleExact` | statistic/ch_stat_obj.c:60-69 | a packet keeps the balance exactly when it has a slot |
| `Stat.OverWhen` | statistic/ch_stat_pool.c:175-178 | the unsigned test ends the window exactly for times outside it, on either side |
| `Stat.NoneMissed` | PDispatcher/ch_packet_rxtask.c:226-245 | after an update no packet of that time misses the window |
| `Stat.TaskTurnExact` | statistic/ch_stat_task.c:3-19 | the balance survives a turn of the statistics task exactly if the packet has a slot or the time that is read again after the entry's release ends the window |
| `Stat.TaskTurnUndisturbed` | statistic/ch_stat_task.c:3-19 | if the entry is not filled anew the balance holds, and a packet outside the window is counted nowhere |
| `Stat.TaskTurnDisturbed` | statistic/ch_stat_task.c:11-15 | an entry filled anew between the two calls can lose the balance |
| `Stat.StatPool.HandlePacket` | statistic/ch_stat_pool.c:137-164 | totals, the ALL slot and the typed slot are updated as specified |
| `Stat.StatPool.UpdateWindow` | statistic/ch_stat_pool.c:167-196 | the reset loops empty every slot of every series |
| `Output.NumberOf` | lib/common/ch_data_output.h:76-84 | reading the written bytes gives the value modulo 256 to the width |
| `Output.ReadAllBack` | lib/common/ch_data_output.h:241-345 | any sequence of numbers, byte strings and 16-bit strings is read back, whatever follows |
| `Output.ValueBytes` | lib/common/ch_data_output.h:76-84 | the shifting loop writes the big-endian bytes |
| `OutputCode.Dout.Grow` | lib/common/ch_data_output.h:51-74 | growth keeps the content; failure changes nothing |
| `OutputCode.Dout.WriteNumber` | lib/common/ch_data_output.h:86-299 | no write passes end; the content grows by the encoding; -1 only if room was missing |
| `OutputCode.Dout.WriteBlob` | lib/common/ch_data_output.h:301-325 | count and bytes are appended, with their length returned |
| `OutputCode.Dout.WriteStr16` | lib/common/ch_data_output.h:333-345 | the same with a 16-bit count, for every 16-bit length: when the copy passes end is told exactly |
| `OutputCode.Dout.WriteAll` | lib/common/ch_data_output.h:241-345 | for any sequence of writes the content is the old content and the concatenated encodings; only a string of more than 65533 bytes can be copied past end |
| `OutputCode.Inside16Iff` | lib/common/ch_data_output.h:333-345 | after the two checks of the writer there is room for a 16-bit string, whatever the buffer, exactly up to 65533 bytes |
| `OutputCode.ReturnedIff` | lib/common/ch_data_output.h:333-345 | the length returned is the number of bytes appended exactly up to there |
| `OutputCode.ReturnedLength` | lib/common/ch_data_output.h:241-345 | so the lengths returned for other writes add up to the bytes appended |
| `StatOut.ObjOut` | statistic/ch_stat_obj.c:92-114 | the length returned is the number of bytes appended, and they are the clipped series |
| `StatOut.PoolOut` | statistic/ch_stat_pool.c:249-272 | the same for the header and one series; -1 for a wrong type |
| `StatOut.PoolOutAll` | statistic/ch_stat_pool.c:274-300 | the same for the header and all series |
| `StatOut.ReadReportBack` | statistic/ch_stat_pool.c:240-300 | a reader recovers the header and the first n entries of every series, with their types |
| `Jhash.MixReversible` | lib/common/ch_jhash.h:31-40 | the mix of three words can be undone |
| `Jhash.FinalReversible` | lib/common/ch_jhash.h:42-52 | the final mixing of three words can be undone |
| `Jhash.EmptyKey` | lib/common/ch_jhash.h:126-158 | an empty key hashes to 0xdeadbeef plus the previous hash |
| `Jhash.Jhash2` | lib/common/ch_jhash.h:126-158 | the loop and the switch compute the final mixing of the blocks of the key, mixed in order, for every length |
| `Jhash.OneBlockTold` | lib/common/ch_jhash.h:126-158 | keys of one length that differ within one block of three words reach different states before the final mixing and after it: no block is lost on the way |
| `Jhash.Hash4Symmetric` | lib/common/ch_jhash.h:183-198 | the sorting network makes the 4-word hash the same under every permutation |
| `Jhash.Hash3Symmetric` | lib/common/ch_jhash.h:205-213 | the same for three words |
| `Jhash.Sort4Sorts` | lib/common/ch_jhash.h:185-190 | the six conditional swaps sort and keep every word |
| `Jhash.FlowOf` | StreamAnalyze/ch_sa_udp_session.h:84-169 | a session made by a packet matches exactly the packets of the same flow and direction, or the reverse direction |
| `Jhash.SameBucket` | StreamAnalyze/ch_sa_udp_session_pool.c:16-65 | a packet judged to belong to a session hashes to the bucket of the packet that made it |
| `List.AddFront` | lib/common/ch_list.h:53-74 | insertion behind the head keeps the ring and writes three nodes |
| `List.AddTail` | lib/common/ch_list.h:85-88 | insertion before the head |
| `List.Unlink` | lib/common/ch_list.h:97-117 | the neighbours are linked and the ring is the ring without the entry |
| `List.Del` | lib/common/ch_list.h:119-124 | removal, with the entry's pointers cleared |
| `List.DelInit` | lib/common/ch_list.h:153-157 | removal, with the entry a ring of its own |
| `List.Replace` | lib/common/ch_list.h:133-140 | the new entry takes the old one's place, even in a ring of one |
| `List.Move` | lib/common/ch_list.h:164-168 | an entry moves to the front of its list |
| `List.MoveTail` | lib/common/ch_list.h:175-180 | an entry moves to the end of its list |
| `List.MoveAcross` | lib/common/ch_list.h:164-168 | an entry moves to another list; both stay rings |
| `List.MoveTailAcross` | lib/common/ch_list.h:175-180 | an entry moves to the end of another list; both stay rings |
| `List.RotateLeft` | lib/common/ch_list.h:225-233 | the first entry becomes the last |
| `List.CutPosition` | lib/common/ch_list.h:244-288 | the part up to the entry becomes its own list and the rest stays, with the special cases of empty lists and of the head |
| `List.SpliceFront` | lib/common/ch_list.h:290-316 | all entries of one list, if any, are put at the front of another |
| `List.SpliceTail` | lib/common/ch_list.h:323-330 | all entries of one list, if any, are put at the end of another |
| `List.SpliceFrontInit` | lib/common/ch_list.h:339-346 | as before, and the emptied list is a list again |
| `List.SpliceTailInit` | lib/common/ch_list.h:356-363 | as before, at the end |
| `List.Turned` | lib/common/ch_list.h:18-45 | any node of a ring may be taken as its head |
| `DataStore.RunKeeps` | StreamAnalyze/ch_sa_data_store_pool.h:62-107 | over every run each store is once in the free list, with one session direction, or lost, and there are at most max(1000, limit + 1) |
| `DataStore.LosesIff` | StreamAnalyze/ch_sa_session_entry.h:55-86 | a run loses a store exactly if it initialises the entry of a session that still holds one |
| `DataStore.AllAccounted` | StreamAnalyze/ch_sa_session_entry.h:55-86 | every allocated store is free, held or lost |
| `DataStore.GetKeeps` | StreamAnalyze/ch_sa_tcp_session_handler.c:532-605 | a direction gets a store exactly if one is free or the limit and the memory allow a new one |
| `DataStore.Pool.GetFor` | StreamAnalyze/ch_sa_data_store_pool.h:62-95 | free_n is the length of the free list, using_n the number of owners, and their sum allac_dstore_n |
| `DataStore.Pool.ReleaseSession` | StreamAnalyze/ch_sa_session_entry.h:77-86 | both stores of a session go back and its pointers are cleared |
| `DataStore.Pool.InitSession` | StreamAnalyze/ch_sa_session_entry.h:55-58 | both pointers are cleared, and the stores they held stay counted in using_n |

## Left out

- CASE_BLIND matching, and the multi-directory glob functions around the matcher.
- Capture.Run: requires payload_data_size + 65535 below 2^32, since offsets are 32-bit numbers; one direction at a time, so the close of a session when both directions are full, or by the other direction's RST or the four-way close, is the end of the packet sequence.
- Capture.Direction.Process: the fragment memory statistics and timeouts of the assembler are not modelled.
- The four-way close of TCP sessions and the session packet counters: the code's states are not monotone there.
- Handshake.SessionIffHandshake: one connection at a time; the lookup in the tables, time stamps and record output are outside, and the direction of packets is not checked by the code either.
- HandOff.NeverUsedAfterRelease: the rings, the mempool and the port queues are bounded queues and a map of live buffers; the packets that a task can get, with the rings their hash chooses, are given by the configuration; counter increments are atomic.
- HandOffSegments.SafeIffNotTwiceChained: after a released further segment was used the model goes on as if the mempool were sound, so the other results speak of runs without such a use; the copy buffer is large enough.
- Assembler.Buffer.Push: for slices that end below 2^32, which CoveredIffFits shows to be the exact bound; a slice that passes it can be dropped.
- Filepath.Merge: the current directory is a parameter.
- FilepathProps.MergeIsStack: for roots that are already canonical; FilepathStack.MergeIsRawStack tells the result for every root.
- Cleanup handlers of the pool, the zeroing of ch_pcalloc, and the contents of regions.
- MpoolProps.RunInv: the heap consists of this pool's blocks; answers of malloc and memalign are disjoint from them and end below 2^64.
- The short-only ch_getopt, the reset flag, calls after EOF, and error messages.
- Monitor.RunKeeps: until the ids wrap around modulo 2^64 - 1; mmap files, dumps and the states LIVING and DEL, which nothing sets, are not modelled.
- Stat.ExactIffOneTaskCovers: each call of the pool is one step, so increments that two tasks make at once are not lost; counters are unbounded; window ends are below 2^64; files are new, not reloaded.
- OutputCode.Dout.WriteStr16: lengths are 16-bit numbers, as the parameter's type says; the model stops at a copy past end.
- The signed and the other fixed-width writers of the output buffer, which differ only in the width.
- Jhash.SameBucket: for packets of the session's IP version; an IPv4 packet compared with an IPv6 session reads address fields that were not set.
- The byte-wise ch_jhash and the hash tables themselves.
- Iteration macros of the list, and concurrent use of list_empty_careful.
- DataStore.Pool.GetFor: the bytes of a store are modelled by Capture; UDP sessions use the pool in the same way; counters do not wrap.
- DPDK ports, RocksDB, msgpack, rule loading, configuration directives, command-line tools, dumps and scripts: plumbing.
