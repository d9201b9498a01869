# lsh, verified in part

A Dafny model of the parts of lsh (an implementation of the Secure Shell protocol) whose
correctness is hardest to see from the code, and proofs of what those parts promise.
`dafny verify dfyconfig.toml` checks all of it.

- **Channels** (`Channel*.dfy`, `ForwardedChannel.dfy`): two ends of a forwarded channel
  joined by the messages they have written, with every step either end can take. The theorems
  in `ChannelTheorems.dfy` are about every state that any run from CHANNEL_OPEN on can reach;
  `ChannelPair.dfy` runs two channel objects against each other and keeps them there.
- **The client session** (`ClientSession.dfy`, `SessionActions.dfy`, `Escape.dfy`): what keeps
  a session channel open, the queue of requests it makes, and the escape character on its
  standard input.
- **SPKI authorization** (`Tags.dfy`, `TagIntersect.dfy`, `TagSyntax.dfy`, `TagWalks.dfy`,
  `Reduction.dfy`, `Authorization.dfy`, `Principals.dfy`, `Delegation.dfy`): tags get a
  meaning, as sets of star-free requests; inclusion, intersection and compilation are measured
  against it; reduction is characterized by chains of certificates; and the table of principals
  is shown to identify exactly the principals that are the same, which ties chains to lookups.
- **Argument parsing** (`Argp*.dfy`): the scanner that permutes `argv` in place, against a plan
  computed from the command line.
- **Formatting** (`Digits.dfy`, `FormatSpec.dfy`, `Snprintf.dfy`): the bounded formatter against
  the unbounded text a format stands for.
- **SFTP** (`SftpCodec.dfy`, `SftpIo.dfy`): the attribute codec, and packets written and read in
  frames.

Objects that the C code updates in place are classes, and its loops are loops; each such method
is proved to compute a function on values, and the theorems are about those functions. Failed
asserts, protocol errors and I/O errors are part of the model (`fault`, `Abort`, `Crash`,
`Broken`, `Aborted`, ...), and are proved unreachable where that is claimed. What only the outside
world decides (how much a read or write moves, what the peer sends, hash values) is a parameter.

## What turned out not to hold

- Intersecting lists drops a child whose intersection is empty (spki/tag.c:846-853), so the
  result can grant what neither input grants: `IntersectCanBroaden`. `IntersectIsExactIff` gives
  the condition: between set-free tags the result is the intersection exactly when no prefix
  meets a prefix and every aligned pair of list children has something in common.
- So a reduced tuple can grant what no member of its chain grants: from (ftp a) and (ftp b)
  reduction proves (ftp), which grants (ftp c): `ProvedTupleCanBroaden`. Without sets, a tuple
  grants exactly what its chain does if and only if the chain fits, that is, tags are compatible
  wherever they meet along it: `ProvedTupleAttenuatesIff`, `ReductionAttenuatesIff`. Nothing that
  is delegated is lost that way: `DelegatedIff`, `ReductionFindsDelegatedIff`.
- The inclusion test can answer no though the request is covered, as the comment at
  spki/tag.c:722-724 admits: `CoveredCanBeMissed`. `IncludesIffCovers` says where it cannot: sets
  occur on top of the request only and meet a set or `(*)`, and there are no prefix forms.
- Intersecting fails an assert when a prefix meets a prefix, even itself, and when two lists
  meet that have nothing in common in any aligned pair, whatever follows in the longer one
  (spki/tag.c:855 stands before the tail is added): `IntersectFailures`. `IntersectFailsIff` says
  for all normal tags when it does, and `ReductionEndsWellIff` what that means for reduction.
- A set against anything but a set or `(*)` yields nothing (spki/tag.c:817-834), also against one
  of its own elements: `IntersectFailures`, and `SetAgainstElementIsMissed` for a delegation that
  is lost that way. `NothingIsWrongIff` says when a null result hides a request both tags grant.
- An empty set is compiled without leaving its list (spki/tag.c:577-578): `EmptySetEndsItsList`,
  and `CompileIsBalancedIff` for exactly when compiling ends where the expression ends. A prefix
  form without its atom fails an assert (spki/tag.c:306): `PrefixWithoutAtomFails`,
  `CompileOutcome`, `SoundCompileDoesNotFail`.
- CHANNEL_EVENT_START, which is raised for every channel (src/channel.c:1322-1332), makes a
  channel read again that has no source left after its EOF, and the next read fails an assert
  (src/channel_io.c:70): `StartAfterEofFails`. `StartIsHarmlessIff` says exactly when the event
  can lead to no fault: a source is left, or there is no window to send.
- Numbers of twenty digits or more lose their leading digits (misc/vsnprintf.c:485-491):
  `LargestIsCut`, and `PrintedMeansItsNumberIff` for exactly when the digits mean the number.
- A number padded with zeros that also has a precision can be narrower than its field
  (misc/vsnprintf.c:493-501): `ZeroPaddingCanBeNarrow`, and `NumberFieldWidthIff` for exactly
  when. A precision of `.` alone
  means none, where section 7.19.6.1 of C99 means zero: `PointAloneIsNoPrecision`,
  `PointPrintsAll`.
- With a size of zero the formatter stores a NUL all the same (misc/vsnprintf.c:400-406), where
  section 7.19.6.5 of C99 has nothing written; otherwise nothing from that size on changes: `Dopr`.
- `sftp_put_final_length` asserts that something was put after the reserved length
  (sftp/io_output.c:146), so an empty string cannot be built that way: `PutPatched`.
- `sftp_get_data` returns -1 on a read error, which its callers take for success (sftp/buffer.c:59),
  and reads for ever when the stream ends inside a frame: `GetData`, `GetBytes`.
- `sftp_read_packet` is documented to return -1 at the end of file and 0 on errors
  (sftp/io_input.c:118); it also returns 0 after skipping the rest of a packet that was not read
  to its end, and -1 on read errors: `ReadPacket`.

## Model

| member | source | states |
|---|---|---|
| ChannelTheorems.WindowCreditIsConserved | src/channel.c:234-271 | in every reachable state, send window + data in flight + adjustments in flight is at most the peer's receive window, and equal to it until EOF or CLOSE as long as no data of an unknown kind is sent |
| ChannelTheorems.NoFault | src/channel.c:590-629 | two ends never drive each other into an assert or a protocol-error branch of the adjust, EOF, CLOSE, open or confirm handlers |
| ChannelTheorems.ReceiveBufferIsBounded | src/channel_forward.c:193-213 | receive window + bytes waiting to be written never exceed the write buffer, which is below 2^32, so neither overflows |
| ChannelTheorems.DataArrivesInOrder | src/channel.c:632-675 | what the receive callback gets is a prefix of the peer's data messages, whole and in order, and what reaches the socket or waits for it is a prefix of the bytes sent |
| ChannelTheorems.NothingIsLost | src/channel_io.c:180-254 | an end that saw EOF, drained its sink and did not close early has written all bytes the peer ever sends |
| ChannelTheorems.CloseHandshake | src/channel.c:982-1030 | each side sends at most one EOF and one CLOSE, nothing but adjustments and CLOSE after EOF, nothing but data after CLOSE; its number is freed at most once, and exactly when CLOSE was both sent and handled |
| ChannelTheorems.CloseCompletes | src/channel.c:789-839 | when a CLOSE was sent and all messages are handled, both ends are finished |
| ChannelTheorems.StepKeeps | src/channel.c:1057-1120 | every step of either end keeps the joint invariant of windows, flags, counters and contents; CHANNEL_EVENT_STOP is one, and START wherever it can do no harm |
| ChannelTheorems.StartIsHarmlessIff | src/channel.c:1322-1332 | from a reachable state, no run after CHANNEL_EVENT_START fails an assert or reports a protocol error exactly when a source is left or there is no window to send |
| ChannelTheorems.StartAfterEofFails | src/channel_forward.c:135-140 | a reachable state past EOF in which START makes the next read fail its assert |
| ChannelTheorems.SumSplit | src/channel.c:234-243 | the data and credit carried by a log are those of its parts |
| ChannelTheorems.OrderlyMeans | src/channel.c:982-1030 | the running summary of a log says which of EOF and CLOSE occur and that its order is the protocol's |
| ChannelRun.NeverTruncated | src/channel.c:645-661 | data on an open channel is never cut to the window or the packet limit, and fits the write buffer |
| ChannelRun.HandleKeeps | src/channel.c:590-887 | handling the peer's next message keeps the invariant |
| ChannelRun.ReadKeeps | src/channel_forward.c:107-123 | reading from the socket, with data, end of file or an error, keeps the invariant |
| ChannelRun.FlushKeeps | src/channel_forward.c:71-84 | writing buffered data keeps the invariant, also when that drains the buffer after EOF |
| ChannelRun.StartKeepsIff | src/channel_forward.c:135-140 | CHANNEL_EVENT_START keeps the invariant exactly while there is something to read, or no window to send it |
| ChannelRun.ReadAfterStartFailsIff | src/channel_io.c:63-70 | a read after START fails its assert exactly when no source is left |
| ChannelContents.HandleStream | src/channel.c:632-741 | handling a message moves its bytes to the socket or the buffer, behind those before, and nothing else |
| ForwardedChannel.Forward.constructor | src/channel_forward.c:193-213 | a fresh channel's window is its write buffer |
| ForwardedChannel.Forward.ChannelIoWrite | src/channel_io.c:180-208 | what is not written at once is buffered and the window adjusted by what was; an error closes the channel, and so does a full buffer, after what was written |
| ForwardedChannel.Forward.OopReadSocket | src/channel_forward.c:107-123 | no more is read than window and packet limit allow; the last source's end of file sends EOF |
| ForwardedChannel.Forward.ReceiveDataCommon | src/channel.c:632-675 | data is cut to the limits, charged to the receive window and passed on, or ignored |
| ForwardedChannel.Forward.HandleChannelOpen | src/channel.c:435-588 | an accepted open takes the peer's limits and confirms with ours |
| ForwardedChannel.Forward.PacketHandler | src/channel.c:1057-1120 | each message is handled by its handler |
| ForwardedChannel.Forward.Event | src/channel_forward.c:159-187 | whatever happens to one end, the object moves as the step of the run does |
| ChannelPair.Connection.constructor | src/channel.c:1150-1201 | two fresh channels, one of which has sent CHANNEL_OPEN, are the start of a run |
| ChannelPair.Connection.Dispatch | src/channel_forward.c:159-187 | an event at either object keeps the joint invariant: no assert fails, buffers and windows stay within bounds, and what is written is a prefix of what the other end sent |
| ChannelPair.Connection.Run | src/channel.c:1057-1120 | any run of the two objects is a run of their states, so what holds of reachable states holds of them |
| ClientSession.SinksAreCounted | src/client_session.c:218-298 | in every run of a confirmed session, `sinks` is (stdout open) + (stderr open) + (exit message pending), and no assert on sinks or sources fails |
| ClientSession.ClosesExactlyWhenDone | src/channel.c:999-1014 | unless an error, a refused request or the peer's CLOSE intervenes, CLOSE is sent exactly when our EOF was and, unless CHANNEL_NO_WAIT_FOR_EOF is set, the peer's EOF has come, all bytes taken for either output are written and the exit message has come |
| ClientSession.BuffersHoldTheWindow | src/client_session.c:109-134 | one window feeds two buffers, and window + both buffers never exceed the size of one |
| ClientSession.StepKeeps | src/client_session.c:218-372 | every event, repeated EOFs and malformed exit messages included, keeps the invariant of sinks, outputs, buffers and closing |
| ClientSession.Client.constructor | src/client_session.c:225-243 | a confirmed session has one source and three sinks |
| ClientSession.Client.DoReceive | src/client_session.c:109-134 | data goes to its output or its buffer; errors close both the channel and the output |
| ClientSession.Client.HandleEvent | src/client_session.c:218-372 | every event leaves the object sound: no failed assert, sinks counted, buffers within bounds, CLOSE sent exactly if it was due or forced |
| ClientSession.Client.Run | src/client_session.c:218-372 | any run of the object is a run of its states |
| SessionActions.RepliesMatchActions | src/client_session.c:198-288 | in every run, pending requests are at most the actions started and not answered, and the bounds asserts hold |
| SessionActions.ActionsStartInOrder | src/client_session.c:198-216 | actions start once and in order, and a serial one only when all earlier ones have been answered |
| SessionActions.NothingStalls | src/client_session.c:198-216 | if every action asks for a reply, a session with nothing pending has started and finished all of them |
| SessionActions.NextActionKeeps | src/client_session.c:198-216 | starting what may start keeps the invariant and ends only at a serial action that must wait |
| SessionActions.Queue.SendRequest | src/channel.c:1203-1243 | a request that wants a reply is counted, and nothing is sent after CLOSE |
| SessionActions.Queue.SessionNextAction | src/client_session.c:198-216 | the loop starts all actions up to the first that must wait |
| SessionActions.Queue.HandleSuccess | src/channel.c:929-953 | a reply answers the oldest unanswered action and lets the next start; unexpected replies are ignored |
| SessionActions.Queue.HandleFailure | src/channel.c:955-980 | as success for actions that tolerate failure, and otherwise the channel is closed |
| Escape.RunSplit | src/client_escape.c:133-202 | how the input is cut into pieces does not change what is sent, what is dispatched, or the state |
| Escape.QuotedInputIsSent | src/client_escape.c:105-121 | every byte string can be sent: with escape characters at line starts doubled, it is sent as it is and nothing is dispatched |
| Escape.NothingIsAdded | src/client_escape.c:133-202 | no more is sent and dispatched than was read |
| Escape.ClientEscapeProcess | src/client_escape.c:133-202 | a step consumes at least one byte, copies a prefix, and does what the three-state automaton does with the bytes consumed |
| Escape.Stdin.ChannelTransmitData | src/channel.c:1122-1133 | a packet is charged to the window |
| Escape.Stdin.ProcessAll | src/client_session.c:155-174 | the loop treats all bytes of a read as the automaton would, within window and packet limit |
| Escape.Stdin.OopReadStdin | src/client_session.c:137-186 | after any sequence of reads, packets and dispatched characters are those of the automaton on all input so far; no more is read than buffer, window and packet limit allow; packets total the window used; the end of the input and errors stop the reading |
| Tags.IncludesDecidesGrants | spki/tag.c:774-805 | on star-free requests, inclusion holds exactly when the request is in the tag's meaning |
| Tags.IncludesIsSound | spki/tag.c:713-805 | an included tag grants no request that the including tag does not, for all tags |
| Tags.IncludesIffCovers | spki/tag.c:713-805 | without prefix forms, with sets on top only and met by a set or (*), a request is included exactly when all it grants is granted |
| Tags.CoveredCanBeMissed | spki/tag.c:720-735 | (x (* set a b)) is covered by (x a) and (x b) together and not included |
| Tags.IncludesIsTransitive | spki/tag.c:713-805 | inclusion is transitive when the innermost tag is prefix-free |
| Tags.IncludesIsReflexive | spki/tag.c:713-805 | prefix-free tags include themselves |
| Tags.NoAbort | spki/tag.c:693-701 | a prefix-free request never fails the assert on prefixes |
| TagWalks.TagIncludes | spki/tag.c:774-805 | the walk answers inclusion |
| TagWalks.WalkSet | spki/tag.c:713-741 | a set includes a set if it includes each element, anything else if some element does |
| TagWalks.WalkList | spki/tag.c:743-770 | a list includes a list that it includes element by element, and that is at least as long |
| TagWalks.NReverse | spki/tag.c:175-192 | the list in reverse |
| TagWalks.TagSetAlloc | spki/tag.c:451-491 | a singleton is its element, inner sets are merged, and a set inside an inner set fails the assert |
| TagWalks.IntersectTags | spki/tag.c:879-926 | intersection, with the tag of the wider type first |
| TagWalks.IntersectSets | spki/tag.c:810-837 | all pairs of elements are intersected |
| TagWalks.IntersectLists | spki/tag.c:839-867 | aligned elements are intersected, empty intersections dropped, and the longer tail kept |
| TagIntersect.SetAllocKeepsMeaning | spki/tag.c:451-491 | normalizing a set keeps the requests it grants |
| TagIntersect.SetAllocIsNormal | spki/tag.c:451-491 | normalizing leaves no set directly inside a set |
| TagIntersect.IntersectIsNormal | spki/tag.c:810-926 | intersecting normal tags, compatible or not, puts no set directly inside a set |
| TagIntersect.IntersectFailsIff | spki/tag.c:810-926 | intersecting normal tags fails an assert exactly when they clash, and gives nothing exactly when they are away from each other, both read off their form |
| TagIntersect.IntersectFailures | spki/tag.c:817-855 | a prefix against itself and (ftp) against (http x) fail an assert; a set against its own element gives nothing |
| TagIntersect.CompatibleTagsDoNotClash | spki/tag.c:810-926 | compatible tags fail no assert |
| TagIntersect.SharedIff | spki/tag.c:774-805 | two tags grant a star-free request in common exactly when they touch, read off their form |
| TagIntersect.NothingIsWrongIff | spki/tag.c:817-834 | when a null result hides a request that both tags grant |
| TagIntersect.IntersectMeansIntersection | spki/tag.c:810-926 | whenever compatible tags have a result, it grants exactly what both grant |
| TagIntersect.IntersectedIncludes | spki/tag.c:774-926 | then a star-free request is included in the result exactly when it is included in both |
| TagIntersect.IntersectIsExactIff | spki/tag.c:839-867 | between set-free tags with an intersection, its meaning is the intersection of the meanings exactly when the tags are compatible |
| TagIntersect.IncompatibleCanBeExact | spki/tag.c:817-834 | with sets that condition is too strong: beside (*) on both sides, (f x) and (f y) do no harm |
| TagIntersect.IntersectKeepsShared | spki/tag.c:810-926 | between set-free tags no shared request is lost, unless an assert fails |
| TagIntersect.IncompatibleBroadens | spki/tag.c:846-853 | otherwise there is a star-free request that the result grants and not both inputs do |
| TagIntersect.IntersectCanBroaden | spki/tag.c:846-853 | (ftp a) and (ftp b) intersect to (ftp), which grants (ftp c) |
| TagSyntax.CompileConsumesOne | spki/tag.c:556-669 | without empty sets, an expression that compiles is consumed exactly and yields a well-formed tag |
| TagSyntax.CompileIsNormal | spki/tag.c:556-669 | compiling puts no set directly inside a set, for every input |
| TagSyntax.CompileOutcome | spki/tag.c:496-669 | without empty sets, whether an expression is compiled, refused or fails an assert is read off its form |
| TagSyntax.PrefixWithoutAtomFails | spki/tag.c:300-307 | (* prefix) fails the assert |
| TagSyntax.SoundCompileDoesNotFail | spki/tag.c:556-669 | with empty sets or without, no assert fails if no prefix form lacks its atom |
| TagSyntax.CompileIsBalancedIff | spki/tag.c:556-669 | compiling ends right after the expression exactly when that holds no empty set |
| TagSyntax.EmptySetEndsItsList | spki/tag.c:577-578 | (a (* set) b) compiles to two elements and leaves b unread |
| TagSyntax.CompileKeepsMeaning | spki/tag.c:556-669 | without empty sets, the compiled tag grants what the expression denotes |
| TagSyntax.CompileUndoesFormat | spki/tag.c:931-1012 | compiling a formatted well-formed tag gives the tag back, and consumes just that |
| TagSyntax.CompiledTagsRoundTrip | spki/tag.c:931-1012 | formatting a compiled tag and compiling it again gives the same tag |
| Reduction.OverlapMeansBoth | spki/reduce.c:46-84 | the intersected validity holds exactly the dates valid in both, is absent only when there are none, and passes the sanity check |
| Reduction.BySubjectNext | spki/certificate.c:460-481 | the next tuple with the subject, none before it |
| Reduction.JoinTuples | spki/reduce.c:100-121 | a known tuple and a certificate join if the tuple propagates and validities and tags intersect; insane validities fail the assert |
| Reduction.ReduceWithList | spki/reduce.c:90-124 | one more certificate: exactly the chains over it are added |
| Reduction.Reduce | spki/reduce.c:131-149 | the result holds one tuple for each order-respecting chain of certificates from an ACL entry that proves one, and nothing else; an assert fails exactly when it does along some chain |
| Authorization.ProvedTupleDelegates | spki/reduce.c:90-149 | a chain's tuple has the ACL entry's issuer and the last subject; it is valid exactly when all its members are; and every link matches and was allowed to delegate |
| Authorization.ProvedTupleAttenuates | spki/reduce.c:90-149 | its tag grants exactly what every member of the chain grants, wherever tags that meet are compatible |
| Authorization.ProvedTupleAttenuatesIff | spki/reduce.c:90-149 | without sets, for every proved chain: its tuple grants exactly what all members grant if and only if tags are compatible wherever they meet |
| Authorization.ProvedTupleCanBroaden | spki/reduce.c:100-121 | (ftp a) and (ftp b) prove (ftp), which grants (ftp c) |
| Authorization.ReductionAttenuatesIff | spki/reduce.c:131-149 | without sets, every reduced tuple grants exactly what its chain grants if and only if every chain of the result fits |
| Authorization.ProvedTupleAuthorizesIff | spki/reduce.c:90-149 | a chain's tuple includes a star-free request for a subject at a date exactly when the chain delegates it, grants it and is valid, and no two tags along it look unrelated; again where tags that meet are compatible |
| Authorization.ReductionAuthorizesIff | spki/reduce.c:131-149 | among reduced tuples of fitting chains, one includes a star-free request for a subject at a date exactly when a fitting chain authorizes that, in the same sense |
| Authorization.FittingReductionAuthorizesIff | spki/reduce.c:131-149 | so if all chains fit, some reduced tuple includes the request exactly when some chain authorizes it |
| Authorization.DelegatedIff | spki/reduce.c:90-149 | without sets, and unless an assert fails, a chain delegates a request to a subject at a date exactly when it fits and its tuple includes that |
| Authorization.ReductionFindsDelegatedIff | spki/reduce.c:131-149 | so some chain delegates the request exactly when the reduced tuple of a fitting chain includes it |
| Authorization.SetAgainstElementIsMissed | spki/reduce.c:104-106 | a delegation from a set of requests to one of them proves nothing |
| Authorization.ReductionEndsWellIff | spki/reduce.c:131-149 | reduction of normal tags fails no assert exactly when no chain has a link that follows on and is insane or clashes |
| Authorization.FittingChainsDoNotBreak | spki/reduce.c:131-149 | chains of sane certificates whose tags are compatible where they meet fail no assert |
| Principals.ByKeyKeeps | spki/certificate.c:206-241 | looking a key up keeps the table canonical and returns the unaliased record that holds the key |
| Principals.ByDigestKeeps | spki/certificate.c:243-280 | looking a digest up keeps the table canonical and returns an unaliased record with the digest |
| Principals.LookUpAllIsFaithful | spki/certificate.c:191-280 | after any lookups the table is canonical, every principal returned still answers its lookup, and the known keys are those asked for |
| Principals.NormalizedPrincipalsAreCanonical | spki/certificate.c:297-305 | normalized principals are equal exactly when the lookups asked for the same principal |
| Delegation.LinkMatchesIff | spki/reduce.c:98-101 | a certificate follows on from a tuple exactly when the tuple may propagate and its subject and the issuer were looked up as the same principal |
| Delegation.ChainDelegatesIff | spki/reduce.c:90-149 | in any table that lookups build, a chain delegates exactly when that holds at each of its links |
| Principals.Database.FixPrincipalAliases | spki/certificate.c:191-204 | exactly the older records with a digest of the key are aliased |
| Principals.Database.PrincipalByKey | spki/certificate.c:206-241 | the walk returns the principal and the table that the lookup defines |
| Principals.Database.PrincipalByDigest | spki/certificate.c:243-280 | the same for each kind of digest |
| Principals.Database.NormalizePrincipal | spki/certificate.c:297-305 | following aliases ends, at an unaliased record |
| Argp.Exchange | argp/argp-parse.c:823-878 | the two segments trade places with their order kept, nothing else moves, and the segment is relocated |
| Argp.RotateInPlace | argp/argp-parse.c:836-872 | the shrinking loop ends with the segments rotated |
| Argp.SwapBlocks | argp/argp-parse.c:845-850 | two blocks trade places |
| ArgpParser.FindShortOption | argp/argp-parse.c:329-349 | the first option with the character as its key |
| ArgpParser.MatchOption | argp/argp-parse.c:360-383 | an exact match is the name before '=', a partial one a proper prefix of it |
| ArgpParser.FindLongOption | argp/argp-parse.c:385-432 | an exact match, else the only partial one |
| ArgpParser.Parser.constructor | argp/argp-parse.c:612-665 | the scan starts after the program's name unless ARGP_PARSE_ARGV0 |
| ArgpParser.Parser.ParseArg | argp/argp-parse.c:766-812 | an operand is consumed and handed to the parsers |
| ArgpParser.Parser.ParseShort | argp/argp-parse.c:963-1023 | one short option of a group, its value the rest of the word or the next word |
| ArgpParser.Parser.ParseLong | argp/argp-parse.c:1127-1199 | a long option, its value inline or the next word |
| ArgpParser.Parser.ParseQuote | argp/argp-parse.c:1103-1125 | after "--" the skipped words and the rest are operands |
| ArgpParser.Parser.SkipArg | argp/argp-parse.c:1071-1088 | a plain word joins the skipped ones |
| ArgpParser.Parser.EndOfArgs | argp/argp-parse.c:1038-1058 | at the end the skipped words move behind the options and become operands |
| ArgpParser.Parser.Rationalize | argp/argp-parse.c:949-962 | indices beyond `next` are pulled back, and a "--" behind it forgotten |
| ArgpParser.Parser.ParseNext | argp/argp-parse.c:946-1211 | a step keeps the scan on its plan and makes progress, or ends it as planned |
| ArgpParser.Parser.Parse | argp/argp-parse.c:1255-1261 | the loop ends, with what the plan says |
| ArgpParser.ArgpParse | argp/argp-parse.c:1218-1264 | `argv` is permuted into options with their values in order, skipped words in order, and what followed "--"; the parsers see the options and then exactly those operands in order; a bad option stops the scan as planned; nothing is lost |
| ArgpPlan.PlanKeepsOrder | argp/argp-parse.c:946-1211 | the words are the planned parts, `front` and `skipped` shuffled with the order of each kept, then `rest` |
| ArgpPlan.PlanPermutes | argp/argp-parse.c:946-1211 | the rearranged words are a permutation |
| ArgpPlan.PlanSetsAsidePlainWords | argp/argp-parse.c:1068-1102 | only plain words are set aside, and only in PERMUTE order; the scan ends at the end, at "--", or in REQUIRE_ORDER at the first plain word |
| ArgpPlan.RearrangedMeansTheSame | argp/argp-parse.c:814-822 | parsed again, the permuted words give the same options, calls and operands |
| Digits.PrintedMeansItsNumberIff | misc/vsnprintf.c:485-491 | the digits printed mean the number exactly when it is below base^19, and its remainder otherwise |
| Digits.NumeralMeansItsNumber | misc/vsnprintf.c:485-490 | the digits produced by repeated division mean the number |
| Digits.NumeralLength | misc/vsnprintf.c:485-491 | a number has at most n digits exactly when it is below base^n |
| Digits.LargestIsCut | misc/vsnprintf.c:490-491 | the largest 64-bit number is printed without its first digit |
| FormatSpec.UnsignedReadsBackIff | misc/vsnprintf.c:299-308 | the text of the format %lu for a 64-bit number reads back exactly when the number is below 10^19 |
| FormatSpec.StringFieldWidth | misc/vsnprintf.c:410-447 | a string field is as wide as asked, or as the text shown |
| FormatSpec.NumberFieldWidthIff | misc/vsnprintf.c:493-501 | a number field is at least as wide as asked, except when zero padding meets a precision that adds zeros and does not fill the field |
| FormatSpec.ZeroPaddingCanBeNarrow | misc/vsnprintf.c:493-501 | %08.5d prints five characters of 1 |
| FormatSpec.PointAloneIsNoPrecision | misc/vsnprintf.c:233-257 | a point with neither digits nor * behind it is no precision |
| FormatSpec.PointPrintsAll | misc/vsnprintf.c:233-257 | so %.s prints all of a string |
| Snprintf.MakeDigits | misc/vsnprintf.c:484-492 | the scratch array holds the printed digits, last one first |
| Snprintf.Sink.Outch | misc/vsnprintf.c:721-726 | a character is stored if that leaves room for the NUL, and counted in any case; the rest of the buffer is untouched |
| Snprintf.Sink.Note | misc/vsnprintf.c:349-370 | %n stores the number of characters in the buffer, in the type asked for |
| Snprintf.Sink.Fmtstr | misc/vsnprintf.c:410-447 | the string's field is printed and its length returned |
| Snprintf.Sink.Fmtint | misc/vsnprintf.c:451-542 | the number's field is printed and its length returned |
| Snprintf.Step | misc/vsnprintf.c:170-396 | one turn of the state machine: what is printed and what the rest of the format stands for add up, and the machine comes closer to its end |
| Snprintf.Dopr | misc/vsnprintf.c:152-408 | the machine ends and returns the length of the full text whatever the size; a buffer holds the longest prefix that fits with a NUL behind it; nothing from the size on changes, except that with size zero the first character becomes NUL; %n stores are those of the text, cut to the size |
| Snprintf.Vsnprintf | misc/vsnprintf.c:729-734 | the same for the library function |
| SftpCodec.WordRoundTrip | sftp/buffer.c:118-124 | a 32-bit number written is read back |
| SftpCodec.ReadWordRoundTrip | sftp/buffer.c:55-64 | four bytes read as a number are written back |
| SftpCodec.LongRoundTrip | sftp/buffer.c:203-233 | a file size written is read back, negative ones too |
| SftpCodec.GetStringBack | sftp/buffer.c:66-86 | a string written is read back, and what follows is left |
| SftpCodec.AttribRoundTrip | sftp/buffer.c:298-376 | attributes written are read back, less the fields their flags do not announce |
| SftpCodec.AttribReadsBackIff | sftp/buffer.c:298-376 | they are read back unchanged exactly when unannounced fields are zero |
| SftpCodec.PacketRoundTrip | sftp/io_output.c:165-212 | a packet written is read back, and what follows is left |
| SftpIo.Output.CheckOutput | sftp/io_output.c:85-96 | there is room, and the contents are kept when the buffer grows |
| SftpIo.Output.PutData | sftp/io_output.c:98-105 | the bytes are appended |
| SftpIo.Output.PutString | sftp/buffer.c:126-131 | the length and the bytes are appended |
| SftpIo.Output.PutLength | sftp/io_output.c:141-148 | a reserved word is filled in and nothing else changes, or the assert fails |
| SftpIo.Output.PutPatched | sftp/io_output.c:129-155 | reserving, putting and patching is putting a string, exactly when it is not empty |
| SftpIo.Output.PutAttributes | sftp/buffer.c:352-376 | the attributes are appended as encoded |
| SftpIo.Output.WritePacket | sftp/io_output.c:165-212 | the packet goes out whole in its frame, however write splits it, and the buffer is empty; or, exactly if write fails first, a part of the frame goes out and the packet is kept |
| SftpIo.Input.GetData | sftp/io_input.c:53-78 | position + `left` stays the end of the frame whatever happens; 1, 0, -1 or an endless loop exactly as frame and stream say, with the bytes that came |
| SftpIo.Input.GetBytes | sftp/buffer.c:55-64 | a caller is told success without the bytes exactly when the frame should hold them and the stream fails before it does |
| SftpIo.Input.GetText | sftp/buffer.c:66-86 | if the stream holds the frame, a string is read off exactly when it is all there; the frame is kept in any case |
| SftpIo.Input.GetAttributes | sftp/buffer.c:298-350 | if the stream holds the frame, attributes are read off as decoded, extensions skipped; the frame is kept in any case |
| SftpIo.Input.SkipFrame | sftp/io_input.c:125-134 | the rest of the frame is skipped, or what the stream has of it |
| SftpIo.Input.ReadPacket | sftp/io_input.c:119-168 | which of 1, 0 and -1 is returned, or that it does not return; the next frame is entered with its length left, an unread rest is skipped first |

## Left out

- Data sent after our own CLOSE is possible in the code (`channel_transmit_data` tests no flags) and is part of the runs; reuse of a freed channel number is not.
- ForwardedChannel.Forward.HandleChannelOpen: the open is accepted; refusal, `pending_close` and running out of channel numbers only answer with CHANNEL_OPEN_FAILURE and leave no channel.
- ForwardedChannel.Forward.PacketHandler: global requests, channel requests and their replies, and CHANNEL_OPEN_FAILURE are not dispatched; replies that race with CLOSE are not modelled.
- ChannelTheorems.StepKeeps: CHANNEL_EVENT_START is a step only where `StartIsHarmlessIff` says it does no harm, and `channel_start_receive` only before CLOSE and while nothing is buffered, which is how its callers use it.
- SessionActions.RepliesMatchActions: each action sends at most one request that wants a reply, and nothing else on the channel does.
- Bytes of session outputs are counted, not carried; the forwarded channel carries them.
- What a dispatched escape character does.
- Tags.IncludesIffCovers: one way for other requests (`IncludesIsSound`); with sets below lists, covering depends on all elements together.
- Authorization.ProvedTupleAttenuatesIff: for tags with sets only the direction of `ProvedTupleAttenuates` is stated; there one pair of elements can grant what another broadens (`IncompatibleCanBeExact`), so the tags would have to be compared by what they grant.
- Authorization.ProvedTupleAttenuates: chains that do not fit are excluded, since for them it is false; `ProvedTupleAttenuatesIff` is the exact statement.
- Authorization.ProvedTupleAuthorizesIff: chains that do not fit are excluded in the same way; `DelegatedIff` covers them without sets.
- TagSyntax.CompileOutcome: expressions with empty sets are not judged by form; for them there is `SoundCompileDoesNotFail`.
- Signatures, hashing, S-expression parsing at byte level (tags are compiled from trees), range tags, display of dates; hashes are assumed free of collisions.
- Reference counts, memory allocation and its failures, everywhere; linked lists are sequences, with principals named by their place.
- Wrap-around of C integers is modelled for windows and for the arguments of conversions, not for counters such as `total`, field widths, sizes of SFTP buffers, or indices.
- ArgpParser.Parser.ParseArg: the user's parsers accept every call and leave `next` and `argv` alone; ARGP_KEY_ARGS, ARGP_LONG_ONLY, the calls around the scan, and help output are not modelled.
- Snprintf.Dopr: what fmtfp prints for a floating point number is a parameter; missing or mistyped arguments, %w at the end of a format and a null buffer of more than one character have no defined meaning in C and are preconditions; the magnitude of the smallest `long` is taken mathematically.
- misc/getopt.c repeats the exchange of argument parsing; transport, key exchange, terminals, X11, SFTP server and client commands are not modelled.
